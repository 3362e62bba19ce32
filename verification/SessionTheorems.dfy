/** What refresh-session rotation promises, over every run. */
module SessionTheorems {
  import opened Domain
  import opened Sessions

  function Reached(clock: int, steps: seq<Step>): State {
    Run(Init(clock), steps)
  }

  lemma {:induction false} RunKeepsInv(s: State, steps: seq<Step>)
    requires Inv(s)
    ensures Inv(Run(s, steps))
    decreases |steps|
  {
    hide Inv, Apply;
    if steps != [] {
      RunKeepsInv(s, steps[..|steps| - 1]);
      StepKeepsInv(Run(s, steps[..|steps| - 1]), steps[|steps| - 1]);
    }
  }

  lemma InitInv(clock: int)
    ensures Inv(Init(clock))
  {
  }

  lemma ReachedInv(clock: int, steps: seq<Step>)
    ensures Inv(Reached(clock, steps))
  {
    InitInv(clock);
    RunKeepsInv(Init(clock), steps);
  }

  /** Each family is one unforked chain from its login row, and only its last row can be open. */
  lemma FamiliesAreChains(clock: int, steps: seq<Step>, family: string)
    ensures var c := FamilyRows(Reached(clock, steps).rows, family);
            && (|c| > 0 ==> c[0].parent.None?)
            && (forall i :: 0 < i < |c| ==> c[i].parent == Some(c[i - 1].jti))
            && (forall i, j :: 0 <= i < |c| && 0 <= j < |c| && i != j ==> c[i].jti != c[j].jti)
            && (forall i :: 0 <= i < |c| && c[i].revokedAt.None? ==> i == |c| - 1)
  {
    ReachedInv(clock, steps);
    var s := Reached(clock, steps);
    assert Chain(FamilyRows(s.rows, family));
    FamilyIsDistinct(s.rows, family);
  }

  lemma {:induction false} FamilyIsDistinct(rows: seq<Row>, family: string)
    requires DistinctJTIs(rows)
    ensures DistinctJTIs(FamilyRows(rows, family))
  {
    if rows != [] {
      var n := |rows| - 1;
      FamilyIsDistinct(rows[..n], family);
      var r := FamilyRows(rows[..n], family);
      forall i | 0 <= i < |r| ensures r[i].jti != rows[n].jti {
        assert r[i] in rows[..n];
      }
    }
  }

  /** Following parent_jti in the table. */
  ghost function ParentOf(rows: seq<Row>, jti: string): Option<string> {
    if i :| 0 <= i < |rows| && rows[i].jti == jti then rows[i].parent else None
  }

  ghost function Ancestor(rows: seq<Row>, jti: string, n: nat): Option<string>
    decreases n
  {
    if n == 0 then Some(jti)
    else match ParentOf(rows, jti)
      case None => None
      case Some(parent) => Ancestor(rows, parent, n - 1)
  }

  lemma ParentIsTheRows(rows: seq<Row>, row: Row)
    requires DistinctJTIs(rows) && row in rows
    ensures ParentOf(rows, row.jti) == row.parent
  {
    var j :| 0 <= j < |rows| && rows[j] == row;
    var i :| 0 <= i < |rows| && rows[i].jti == row.jti && ParentOf(rows, row.jti) == rows[i].parent;
    assert !(i < j) && !(j < i);
  }

  lemma {:induction false} LinksLeadBack(rows: seq<Row>, family: string, i: nat)
    requires DistinctJTIs(rows) && Chain(FamilyRows(rows, family)) && i < |FamilyRows(rows, family)|
    ensures var c := FamilyRows(rows, family);
            Ancestor(rows, c[i].jti, i) == Some(c[0].jti) && Ancestor(rows, c[i].jti, i + 1) == None
  {
    var c := FamilyRows(rows, family);
    ParentIsTheRows(rows, c[i]);
    if i > 0 {
      LinksLeadBack(rows, family, i - 1);
    } else {
      assert Ancestor(rows, c[0].jti, 1) == None;
    }
  }

  /** In every run, from the i-th row of a family i parent links lead to the login row, which has none: no
      cycles. */
  lemma AncestryEndsAtLogin(clock: int, steps: seq<Step>, family: string, i: nat)
    requires i < |FamilyRows(Reached(clock, steps).rows, family)|
    ensures var rows := Reached(clock, steps).rows;
            var c := FamilyRows(rows, family);
            Ancestor(rows, c[i].jti, i) == Some(c[0].jti) && Ancestor(rows, c[i].jti, i + 1) == None
  {
    ReachedInv(clock, steps);
    assert Chain(FamilyRows(Reached(clock, steps).rows, family));
    hide Chain, Reached, FamilyRows, DistinctJTIs;
    LinksLeadBack(Reached(clock, steps).rows, family, i);
  }

  /** No token id is rotated twice. */
  lemma RotatedAtMostOnce(clock: int, steps: seq<Step>)
    ensures var rotated := Reached(clock, steps).rotated;
            forall i, j :: 0 <= i < j < |rotated| ==> rotated[i] != rotated[j]
  {
    ReachedInv(clock, steps);
  }

  /** An issued token can be refreshed exactly when its row is its family's last, open and unexpired. */
  lemma RefreshableIff(clock: int, steps: seq<Step>, token: Token)
    requires token in Reached(clock, steps).issued
    ensures var s := Reached(clock, steps);
            var c := FamilyRows(s.rows, token.family);
            && |c| > 0
            && (HasLive(s.rows, token, s.clock) <==>
                c[|c| - 1].jti == token.jti && c[|c| - 1].revokedAt.None? && c[|c| - 1].expiresAt > s.clock)
  {
    hide Chain, Reached, Run;
    ReachedInv(clock, steps);
    var s := Reached(clock, steps);
    LiveIff(s, token);
  }

  lemma SameUser(c: seq<Row>, i: nat)
    requires Chain(c) && i < |c|
    ensures c[i].user == c[0].user
  {
    if i > 0 { SameUser(c, i - 1); }
  }

  lemma OwnFamily(s: State, token: Token)
    requires Inv(s) && token in s.issued
    ensures |FamilyRows(s.rows, token.family)| > 0
    ensures forall i :: 0 <= i < |FamilyRows(s.rows, token.family)| ==>
            FamilyRows(s.rows, token.family)[i].user == token.user
  {
    hide Chain;
    var c := FamilyRows(s.rows, token.family);
    assert HasRow(s.rows, token);
    var i :| 0 <= i < |s.rows| && s.rows[i].jti == token.jti && s.rows[i].family == token.family
        && s.rows[i].user == token.user;
    var k := InFamily(s.rows, i);
    SameUser(c, k);
    forall j | 0 <= j < |c| ensures c[j].user == token.user { SameUser(c, j); }
  }

  lemma LiveIff(s: State, token: Token)
    requires Inv(s) && token in s.issued
    ensures var c := FamilyRows(s.rows, token.family);
            && |c| > 0
            && (HasLive(s.rows, token, s.clock) <==>
                c[|c| - 1].jti == token.jti && c[|c| - 1].revokedAt.None? && c[|c| - 1].expiresAt > s.clock)
  {
    hide Chain;
    var c := FamilyRows(s.rows, token.family);
    OwnFamily(s, token);
    if HasLive(s.rows, token, s.clock) {
      var i :| 0 <= i < |s.rows| && Live(s.rows[i], token, s.clock);
      LiveIsLast(s, token, i);
    }
    if c[|c| - 1].jti == token.jti && c[|c| - 1].revokedAt.None? && c[|c| - 1].expiresAt > s.clock {
      assert c[|c| - 1] in s.rows;
      var j :| 0 <= j < |s.rows| && s.rows[j] == c[|c| - 1];
      assert Live(s.rows[j], token, s.clock);
    }
  }

  // -------------------------------------------------------------- the end of a family

  /** The family exists, and no token handed out for it can be refreshed. */
  predicate Stranded(s: State, family: string) {
    && KnownFamily(s.rows, family)
    && forall t :: t in s.issued && t.family == family ==> !HasLive(s.rows, t, s.clock)
  }

  lemma KnownFamilyStays(s: State, step: Step, family: string)
    requires KnownFamily(s.rows, family)
    ensures KnownFamily(Apply(s, step).rows, family)
  {
    StepPreserves(s, step);
    var i :| 0 <= i < |s.rows| && s.rows[i].family == family;
    assert Apply(s, step).rows[i].family == family;
  }

  /** A row that is live after a step was live before it, unless the step created it. */
  lemma LiveWasLive(s: State, step: Step, token: Token)
    requires HasLive(Apply(s, step).rows, token, Apply(s, step).clock)
    ensures HasLive(s.rows, token, s.clock)
            || (|Apply(s, step).rows| == |s.rows| + 1
                && Live(Apply(s, step).rows[|s.rows|], token, Apply(s, step).clock))
  {
    var s' := Apply(s, step);
    StepPreserves(s, step);
    var i :| 0 <= i < |s'.rows| && Live(s'.rows[i], token, s'.clock);
    if i < |s.rows| { assert Live(s.rows[i], token, s.clock); }
  }

  lemma StrandedStays(s: State, step: Step, family: string)
    requires Stranded(s, family)
    ensures Stranded(Apply(s, step), family)
  {
    var s' := Apply(s, step);
    KnownFamilyStays(s, step, family);
    forall t | t in s'.issued && t.family == family ensures !HasLive(s'.rows, t, s'.clock) {
      if HasLive(s'.rows, t, s'.clock) {
        LiveWasLive(s, step, t);
      }
    }
  }

  /** Once a family is stranded, no refresh with any of its tokens succeeds in any continuation. */
  lemma {:induction false} StrandedForever(s: State, steps: seq<Step>, family: string, attempt: Step)
    requires Stranded(s, family) && attempt.Refresh? && attempt.token.family == family
    ensures Stranded(Run(s, steps), family)
    ensures !Succeeds(Run(s, steps), attempt) && Apply(Run(s, steps), attempt) == Run(s, steps)
    decreases |steps|
  {
    if steps != [] {
      StrandedForever(s, steps[..|steps| - 1], family, attempt);
      StrandedStays(Run(s, steps[..|steps| - 1]), steps[|steps| - 1], family);
    }
  }

  /** A logout that takes effect strands the family. */
  lemma LogoutStrands(s: State, token: Token, gone: Outcome)
    requires Inv(s) && token in s.issued && !gone.RolledBack?
    ensures Stranded(Apply(s, Logout(token, gone)), token.family)
  {
    hide Chain;
    var s' := Apply(s, Logout(token, gone));
    OwnFamily(s, token);
    assert FamilyRows(s.rows, token.family)[0] in s.rows;
    assert KnownFamily(s.rows, token.family);
    KnownFamilyStays(s, Logout(token, gone), token.family);
    forall t | t in s'.issued && t.family == token.family ensures !HasLive(s'.rows, t, s'.clock) {
      forall i | 0 <= i < |s'.rows| ensures !Live(s'.rows[i], t, s'.clock) {
        if s.rows[i].family == token.family {
          var k := InFamily(s.rows, i);
          assert s.rows[i].user == token.user;
        }
      }
    }
  }

  /** So does the expiry of the family's last row. */
  lemma ExpiryStrands(s: State, family: string)
    requires Inv(s) && |FamilyRows(s.rows, family)| > 0
    requires var c := FamilyRows(s.rows, family); c[|c| - 1].expiresAt <= s.clock
    ensures Stranded(s, family)
  {
    hide Chain;
    var c := FamilyRows(s.rows, family);
    assert c[0] in s.rows && c[0].family == family;
    forall t | t in s.issued && t.family == family ensures !HasLive(s.rows, t, s.clock) {
      LiveIff(s, t);
    }
  }

  lemma NotLastIsDead(s: State, s': State, t: Token)
    requires Inv(s) && Inv(s') && t in s.issued && t in s'.issued
    requires var c := FamilyRows(s'.rows, t.family); c != [] && !KnownJTI(s.rows, c[|c| - 1].jti)
    ensures !HasLive(s'.rows, t, s'.clock)
  {
    LiveIff(s', t);
    assert HasRow(s.rows, t);
  }

  /** So does a rotation that takes effect while its new token never reaches the client: an error after
      the transaction ends the session. */
  lemma LostTokenStrands(s: State, token: Token, nextJTI: string, done: Outcome, delivered: bool)
    requires Inv(s) && CanRotate(s, token, nextJTI) && !done.RolledBack? && !(done.Committed? && delivered)
    ensures Stranded(Apply(s, Refresh(token, nextJTI, done, delivered)), token.family)
  {
    var step := Refresh(token, nextJTI, done, delivered);
    var s' := Apply(s, step);
    assert s'.rows[|s.rows|].family == token.family;
    RefreshKeepsInv(s, token, nextJTI, done, delivered);
    var c := FamilyRows(s'.rows, token.family);
    var row := s'.rows[|s.rows|];
    FamilyOfAppend(s'.rows[..|s.rows|], row, token.family);
    assert s'.rows == s'.rows[..|s.rows|] + [row];
    forall t | t in s.issued && t.family == token.family ensures !HasLive(s'.rows, t, s'.clock) {
      assert FamilyRows(s'.rows, t.family)[|FamilyRows(s'.rows, t.family)| - 1] == row;
      NotLastIsDead(s, s', t);
    }
    assert s'.issued == s.issued;
  }

  /** Replaying a rotated token is refused and changes nothing; in particular it does not revoke the
      family's open row. */
  lemma ReplayChangesNothing(s: State, token: Token, nextJTI: string, done: Outcome, delivered: bool)
    requires Inv(s) && token.jti in s.rotated
    ensures !Succeeds(s, Refresh(token, nextJTI, done, delivered))
            && Apply(s, Refresh(token, nextJTI, done, delivered)) == s
  {
    if HasLive(s.rows, token, s.clock) { RotatedIsNew(s, token); }
  }
}
