/** Refresh-session rotation as a step system over the refresh_sessions table.

    Each repository call is one atomic transaction. A refresh token is what jwt.Parse authenticated:
    the user, the family and the token id it was signed with. */
module Sessions {
  import opened Domain

  const REFRESH_TTL := 30 * 24 * 60 * 60 * 1000

  /** A row of refresh_sessions; the table lists its rows in the order of insertion. */
  datatype Row = Row(
    user: string,
    family: string,
    jti: string,
    parent: Option<string>,
    expiresAt: int,
    revokedAt: Option<int>,
    reason: string)

  datatype Token = Token(user: string, family: string, jti: string)

  /** What became of a transaction, and whether the caller was told. */
  datatype Outcome = Committed | RolledBack | CommittedUnconfirmed

  /** `issued` are the refresh tokens handed to clients and `rotated` the token ids of the Rotate
      calls that took effect, in order: both are history. */
  datatype State = State(rows: seq<Row>, clock: int, issued: set<Token>, rotated: seq<string>)

  datatype Step =
    | Advance(elapsed: nat)
    | Login(user: string, newFamily: string, newJTI: string, created: Outcome)
    | Refresh(token: Token, nextJTI: string, done: Outcome, delivered: bool)
    | Logout(bye: Token, gone: Outcome)

  // -------------------------------------------------------------- the statements

  predicate KnownJTI(rows: seq<Row>, jti: string) {
    exists i :: 0 <= i < |rows| && rows[i].jti == jti
  }

  predicate KnownFamily(rows: seq<Row>, family: string) {
    exists i :: 0 <= i < |rows| && rows[i].family == family
  }

  /** The row that Rotate's UPDATE selects. */
  predicate Live(row: Row, token: Token, now: int) {
    row.user == token.user && row.family == token.family && row.jti == token.jti && row.revokedAt.None?
        && row.expiresAt > now
  }

  predicate HasLive(rows: seq<Row>, token: Token, now: int) {
    exists i :: 0 <= i < |rows| && Live(rows[i], token, now)
  }

  /** The rows that RevokeFamily's UPDATE selects. */
  predicate Open(row: Row, user: string, family: string) {
    row.user == user && row.family == family && row.revokedAt.None?
  }

  function Revoked(row: Row, now: int, reason: string): Row {
    row.(revokedAt := Some(now), reason := reason)
  }

  /** UPDATE ... SET revoked_at, revoked_reason WHERE hit. */
  function Stamp(rows: seq<Row>, hit: Row -> bool, now: int, reason: string): (r: seq<Row>)
    ensures |r| == |rows|
    ensures forall i :: 0 <= i < |rows| ==> r[i] == if hit(rows[i]) then Revoked(rows[i], now, reason) else rows[i]
  {
    seq(|rows|, i requires 0 <= i < |rows| => if hit(rows[i]) then Revoked(rows[i], now, reason) else rows[i])
  }

  function NewRow(token: Token, parent: Option<string>, now: int): Row {
    Row(token.user, token.family, token.jti, parent, now + REFRESH_TTL, None, "")
  }

  function AfterRotate(rows: seq<Row>, token: Token, nextJTI: string, now: int): seq<Row> {
    Stamp(rows, row => Live(row, token, now), now, "rotated") + [NewRow(token.(jti := nextJTI), Some(token.jti), now)]
  }

  function AfterRevoke(rows: seq<Row>, user: string, family: string, now: int): seq<Row> {
    Stamp(rows, row => Open(row, user, family), now, "logout")
  }

  // ------------------------------------------------------------------- the steps

  /** Family ids are 32 random bytes and never repeat; a repeated token id violates a constraint. */
  predicate CanLogin(s: State, family: string, jti: string) {
    !KnownFamily(s.rows, family) && (forall t :: t in s.issued ==> t.family != family) && !KnownJTI(s.rows, jti)
  }

  predicate CanRotate(s: State, token: Token, nextJTI: string) {
    token in s.issued && HasLive(s.rows, token, s.clock) && !KnownJTI(s.rows, nextJTI)
  }

  function Apply(s: State, step: Step): State {
    match step
    case Advance(elapsed) => s.(clock := s.clock + elapsed)
    case Login(user, family, jti, created) =>
      if !CanLogin(s, family, jti) || created.RolledBack? then s
      else
        var token := Token(user, family, jti);
        s.(rows := s.rows + [NewRow(token, None, s.clock)],
           issued := if created.Committed? then s.issued + {token} else s.issued)
    case Refresh(token, nextJTI, done, delivered) =>
      if !CanRotate(s, token, nextJTI) || done.RolledBack? then s
      else
        s.(rows := AfterRotate(s.rows, token, nextJTI, s.clock),
           rotated := s.rotated + [token.jti],
           issued := if done.Committed? && delivered then s.issued + {token.(jti := nextJTI)} else s.issued)
    case Logout(token, done) =>
      if token !in s.issued || done.RolledBack? then s
      else s.(rows := AfterRevoke(s.rows, token.user, token.family, s.clock))
  }

  /** The call returned a new token pair. */
  predicate Succeeds(s: State, step: Step) {
    step.Refresh? && CanRotate(s, step.token, step.nextJTI) && step.done.Committed? && step.delivered
  }

  function Run(s: State, steps: seq<Step>): State
    decreases |steps|
  {
    if steps == [] then s else Apply(Run(s, steps[..|steps| - 1]), steps[|steps| - 1])
  }

  function Init(clock: int): State {
    State([], clock, {}, [])
  }

  // -------------------------------------------------------------------- families

  /** The rows of a family, in order of insertion. */
  function FamilyRows(rows: seq<Row>, family: string): (r: seq<Row>)
    ensures forall i :: 0 <= i < |r| ==> r[i] in rows && r[i].family == family
  {
    if rows == [] then []
    else
      var n := |rows| - 1;
      FamilyRows(rows[..n], family) + if rows[n].family == family then [rows[n]] else []
  }

  /** An unforked chain of one user's rows from the login row on; all but its last row are revoked. */
  predicate Chain(c: seq<Row>) {
    && (|c| > 0 ==> c[0].parent.None?)
    && (forall i :: 0 < i < |c| ==> c[i].parent == Some(c[i - 1].jti) && c[i].user == c[i - 1].user)
    && (forall i :: 0 <= i < |c| - 1 ==> c[i].revokedAt.Some?)
  }

  predicate DistinctJTIs(rows: seq<Row>) {
    forall i, j :: 0 <= i < j < |rows| ==> rows[i].jti != rows[j].jti
  }

  predicate HasRow(rows: seq<Row>, token: Token) {
    exists i :: 0 <= i < |rows| && rows[i].jti == token.jti && rows[i].family == token.family
        && rows[i].user == token.user
  }

  predicate WasRevoked(rows: seq<Row>, jti: string) {
    exists i :: 0 <= i < |rows| && rows[i].jti == jti && rows[i].revokedAt.Some?
  }

  ghost predicate Inv(s: State) {
    && DistinctJTIs(s.rows)
    && (forall family :: Chain(FamilyRows(s.rows, family)))
    && (forall t :: t in s.issued ==> HasRow(s.rows, t))
    && (forall i :: 0 <= i < |s.rotated| ==> WasRevoked(s.rows, s.rotated[i]))
    && (forall i, j :: 0 <= i < j < |s.rotated| ==> s.rotated[i] != s.rotated[j])
  }

  lemma {:induction false} FamilyOfStamp(rows: seq<Row>, hit: Row -> bool, now: int, reason: string, family: string)
    ensures FamilyRows(Stamp(rows, hit, now, reason), family) == Stamp(FamilyRows(rows, family), hit, now, reason)
  {
    if rows != [] {
      var n := |rows| - 1;
      FamilyOfStamp(rows[..n], hit, now, reason, family);
      assert Stamp(rows, hit, now, reason)[..n] == Stamp(rows[..n], hit, now, reason);
    }
  }

  lemma FamilyOfAppend(rows: seq<Row>, row: Row, family: string)
    ensures FamilyRows(rows + [row], family) == FamilyRows(rows, family) + if row.family == family then [row] else []
  {
    assert (rows + [row])[..|rows|] == rows;
  }

  lemma {:induction false} InFamily(rows: seq<Row>, i: nat) returns (k: nat)
    requires i < |rows|
    ensures k < |FamilyRows(rows, rows[i].family)| && FamilyRows(rows, rows[i].family)[k] == rows[i]
  {
    var n := |rows| - 1;
    if i == n {
      k := |FamilyRows(rows[..n], rows[n].family)|;
    } else {
      k := InFamily(rows[..n], i);
    }
  }

  lemma {:induction false} UnknownFamilyIsEmpty(rows: seq<Row>, family: string)
    requires !KnownFamily(rows, family)
    ensures FamilyRows(rows, family) == []
  {
    if rows != [] {
      assert forall i :: 0 <= i < |rows| - 1 ==> rows[..|rows| - 1][i] == rows[i];
      UnknownFamilyIsEmpty(rows[..|rows| - 1], family);
    }
  }

  // ------------------------------------------------------- the chain is kept

  lemma LoginKeepsChains(s: State, token: Token, family: string)
    requires Inv(s) && !KnownFamily(s.rows, token.family)
    ensures Chain(FamilyRows(s.rows + [NewRow(token, None, s.clock)], family))
  {
    FamilyOfAppend(s.rows, NewRow(token, None, s.clock), family);
    if family == token.family { UnknownFamilyIsEmpty(s.rows, family); }
  }

  /** The one row that Rotate may revoke is the last of its family. */
  lemma LiveIsLast(s: State, token: Token, i: nat)
    requires Inv(s) && i < |s.rows| && Live(s.rows[i], token, s.clock)
    ensures var c := FamilyRows(s.rows, token.family);
            |c| > 0 && c[|c| - 1] == s.rows[i]
  {
    var k := InFamily(s.rows, i);
    assert Chain(FamilyRows(s.rows, token.family));
  }

  lemma StampKeepsChain(c: seq<Row>, hit: Row -> bool, now: int, reason: string)
    requires Chain(c)
    ensures Chain(Stamp(c, hit, now, reason))
  {
  }

  /** Revoking the last row and appending its child keeps the chain. */
  lemma ChainExtends(c: seq<Row>, hit: Row -> bool, now: int, row: Row)
    requires Chain(c) && |c| > 0 && hit(c[|c| - 1])
    requires row.parent == Some(c[|c| - 1].jti) && row.user == c[|c| - 1].user
    ensures Chain(Stamp(c, hit, now, "rotated") + [row])
  {
  }

  lemma RotateKeepsChains(s: State, token: Token, nextJTI: string, family: string)
    requires Inv(s) && HasLive(s.rows, token, s.clock)
    ensures Chain(FamilyRows(AfterRotate(s.rows, token, nextJTI, s.clock), family))
  {
    hide Chain;
    var hit := row => Live(row, token, s.clock);
    var stamped, row := Stamp(s.rows, hit, s.clock, "rotated"),
        NewRow(token.(jti := nextJTI), Some(token.jti), s.clock);
    var c := FamilyRows(s.rows, family);
    FamilyOfStamp(s.rows, hit, s.clock, "rotated", family);
    FamilyOfAppend(stamped, row, family);
    if family == token.family {
      var i :| 0 <= i < |s.rows| && Live(s.rows[i], token, s.clock);
      LiveIsLast(s, token, i);
      ChainExtends(c, hit, s.clock, row);
    } else {
      StampKeepsChain(c, hit, s.clock, "rotated");
      assert FamilyRows(stamped, family) + [] == FamilyRows(stamped, family);
    }
  }

  lemma RevokeKeepsChains(s: State, user: string, name: string, family: string)
    requires Inv(s)
    ensures Chain(FamilyRows(AfterRevoke(s.rows, user, name, s.clock), family))
  {
    FamilyOfStamp(s.rows, row => Open(row, user, name), s.clock, "logout", family);
    assert Chain(FamilyRows(s.rows, family));
  }

  lemma LoginKeepsInv(s: State, user: string, family: string, jti: string, created: Outcome)
    requires Inv(s)
    ensures Inv(Apply(s, Login(user, family, jti, created)))
  {
    var token, s' := Token(user, family, jti), Apply(s, Login(user, family, jti, created));
    if s' != s {
      assert s'.rows[|s.rows|] == NewRow(token, None, s.clock);
      StepPreserves(s, Login(user, family, jti, created));
      AllFactsPersist(s, s'.rows);
      forall f ensures Chain(FamilyRows(s'.rows, f)) { LoginKeepsChains(s, token, f); }
      assert forall i :: 0 <= i < |s.rows| ==> s'.rows[i] == s.rows[i];
    }
  }

  /** What a row keeps for ever, and that a revocation is for ever. */
  predicate Preserved(rows: seq<Row>, rows': seq<Row>) {
    && |rows| <= |rows'|
    && forall i :: 0 <= i < |rows| ==>
         && rows'[i] == rows[i].(revokedAt := rows'[i].revokedAt, reason := rows'[i].reason)
         && (rows[i].revokedAt.Some? ==> rows'[i].revokedAt.Some?)
  }

  lemma StepPreserves(s: State, step: Step)
    ensures Preserved(s.rows, Apply(s, step).rows)
  {
  }

  lemma FactsPersist(rows: seq<Row>, rows': seq<Row>, token: Token, jti: string)
    requires Preserved(rows, rows')
    ensures HasRow(rows, token) ==> HasRow(rows', token)
    ensures WasRevoked(rows, jti) ==> WasRevoked(rows', jti)
  {
    if HasRow(rows, token) {
      var i :| 0 <= i < |rows| && rows[i].jti == token.jti && rows[i].family == token.family
          && rows[i].user == token.user;
      assert rows'[i].jti == token.jti;
    }
    if WasRevoked(rows, jti) {
      var i :| 0 <= i < |rows| && rows[i].jti == jti && rows[i].revokedAt.Some?;
      assert rows'[i].jti == jti;
    }
  }

  lemma AllFactsPersist(s: State, rows': seq<Row>)
    requires Inv(s) && Preserved(s.rows, rows')
    ensures forall t :: t in s.issued ==> HasRow(rows', t)
    ensures forall i :: 0 <= i < |s.rotated| ==> WasRevoked(rows', s.rotated[i])
  {
    hide Chain;
    forall t | t in s.issued ensures HasRow(rows', t) { FactsPersist(s.rows, rows', t, ""); }
    forall i | 0 <= i < |s.rotated| ensures WasRevoked(rows', s.rotated[i]) {
      FactsPersist(s.rows, rows', Token("", "", ""), s.rotated[i]);
    }
  }

  lemma StampKeepsInv(s: State, s': State)
    requires Inv(s) && s' == s.(rows := s'.rows) && |s'.rows| == |s.rows| && Preserved(s.rows, s'.rows)
    requires forall f :: Chain(FamilyRows(s'.rows, f))
    ensures Inv(s')
  {
    hide Chain, HasRow, WasRevoked;
    AllFactsPersist(s, s'.rows);
  }

  lemma LogoutKeepsInv(s: State, token: Token, done: Outcome)
    requires Inv(s)
    ensures Inv(Apply(s, Logout(token, done)))
  {
    hide Chain;
    var s' := Apply(s, Logout(token, done));
    if s' != s {
      StepPreserves(s, Logout(token, done));
      forall f ensures Chain(FamilyRows(s'.rows, f)) { RevokeKeepsChains(s, token.user, token.family, f); }
      StampKeepsInv(s, s');
    }
  }

  /** The token id just rotated was not rotated before: its row was open until now. */
  lemma RotatedIsNew(s: State, token: Token)
    requires Inv(s) && HasLive(s.rows, token, s.clock)
    ensures token.jti !in s.rotated
  {
    hide Chain;
    var i :| 0 <= i < |s.rows| && Live(s.rows[i], token, s.clock);
    assert !WasRevoked(s.rows, token.jti);
  }

  lemma RefreshKeepsInv(s: State, token: Token, nextJTI: string, done: Outcome, delivered: bool)
    requires Inv(s)
    ensures Inv(Apply(s, Refresh(token, nextJTI, done, delivered)))
  {
    hide Chain;
    var s' := Apply(s, Refresh(token, nextJTI, done, delivered));
    if s' != s {
      StepPreserves(s, Refresh(token, nextJTI, done, delivered));
      AllFactsPersist(s, s'.rows);
      forall f ensures Chain(FamilyRows(s'.rows, f)) { RotateKeepsChains(s, token, nextJTI, f); }
      RotatedIsNew(s, token);
      RotationRecorded(s, token, nextJTI);
      assert s'.rows[|s.rows|].jti == nextJTI;
    }
  }

  lemma RotationRecorded(s: State, token: Token, nextJTI: string)
    requires HasLive(s.rows, token, s.clock)
    ensures var rows := AfterRotate(s.rows, token, nextJTI, s.clock);
            WasRevoked(rows, token.jti)
  {
    var i :| 0 <= i < |s.rows| && Live(s.rows[i], token, s.clock);
    assert AfterRotate(s.rows, token, nextJTI, s.clock)[i].revokedAt.Some?;
  }

  lemma StepKeepsInv(s: State, step: Step)
    requires Inv(s)
    ensures Inv(Apply(s, step))
  {
    match step
    case Advance(_) =>
    case Login(user, family, jti, created) => LoginKeepsInv(s, user, family, jti, created);
    case Refresh(token, nextJTI, done, delivered) => RefreshKeepsInv(s, token, nextJTI, done, delivered);
    case Logout(token, done) => LogoutKeepsInv(s, token, done);
  }
}
