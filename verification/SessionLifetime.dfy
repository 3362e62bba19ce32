/** How long a refresh token is good for, and what the table says of a revoked row. */
module SessionLifetime {
  import opened Domain
  import opened Sessions
  import opened SessionTheorems

  /** The call hands the token to the client. */
  predicate Gives(s: State, step: Step, token: Token) {
    match step
    case Login(user, family, jti, created) =>
      CanLogin(s, family, jti) && created.Committed? && token == Token(user, family, jti)
    case Refresh(previous, next, _, _) => Succeeds(s, step) && token == Token(previous.user, previous.family, next)
    case _ => false
  }

  predicate OfFamily(step: Step, family: string) {
    (step.Refresh? && step.token.family == family) || (step.Logout? && step.bye.family == family)
  }

  /** The token's row is open until the given time. */
  predicate OpenUntil(s: State, token: Token, till: int) {
    && token in s.issued
    && exists i :: 0 <= i < |s.rows| && IsRow(s.rows[i], token, till)
  }

  predicate IsRow(row: Row, token: Token, till: int) {
    && row.user == token.user && row.family == token.family && row.jti == token.jti
    && row.revokedAt.None? && row.expiresAt == till
  }

  lemma GivenIsOpen(s: State, step: Step, token: Token)
    requires Gives(s, step, token)
    ensures OpenUntil(Apply(s, step), token, s.clock + 30 * 24 * 60 * 60 * 1000)
  {
    var rows := Apply(s, step).rows;
    assert IsRow(rows[|s.rows|], token, s.clock + 30 * 24 * 60 * 60 * 1000);
  }

  lemma StaysOpen(s: State, step: Step, token: Token, till: int)
    requires OpenUntil(s, token, till) && !OfFamily(step, token.family)
    ensures OpenUntil(Apply(s, step), token, till)
  {
    var i :| 0 <= i < |s.rows| && IsRow(s.rows[i], token, till);
    assert IsRow(Apply(s, step).rows[i], token, till);
  }

  lemma {:induction false} StaysOpenAfter(s: State, more: seq<Step>, token: Token, till: int)
    requires OpenUntil(s, token, till) && forall k :: 0 <= k < |more| ==> !OfFamily(more[k], token.family)
    ensures OpenUntil(Run(s, more), token, till)
    decreases |more|
  {
    hide OpenUntil, Apply, OfFamily;
    if more != [] {
      StaysOpenAfter(s, more[..|more| - 1], token, till);
      StaysOpen(Run(s, more[..|more| - 1]), more[|more| - 1], token, till);
    }
  }

  /** An open row can be rotated until it expires. */
  lemma OpenIsLive(s: State, token: Token, till: int)
    requires DistinctJTIs(s.rows) && OpenUntil(s, token, till)
    ensures HasLive(s.rows, token, s.clock) <==> s.clock < till
  {
    var i :| 0 <= i < |s.rows| && IsRow(s.rows[i], token, till);
    if s.clock < till { assert Live(s.rows[i], token, s.clock); }
    if HasLive(s.rows, token, s.clock) {
      var j :| 0 <= j < |s.rows| && Live(s.rows[j], token, s.clock);
      assert !(i < j) && !(j < i);
    }
  }

  lemma {:induction false} RunMore(s: State, first: seq<Step>, second: seq<Step>)
    ensures Run(s, first + second) == Run(Run(s, first), second)
    decreases |second|
  {
    hide Apply;
    if second == [] {
      assert first + second == first;
    } else {
      var n := |second| - 1;
      RunMore(s, first, second[..n]);
      assert (first + second)[..|first + second| - 1] == first + second[..n];
    }
  }

  /** A token that a login or a refresh returned at time t, and whose family is neither refreshed nor logged out
      since, is refreshed with an unused token id exactly before t + 30 days. */
  lemma RefreshableForThirtyDays(clock: int, before: seq<Step>, step: Step, token: Token, more: seq<Step>, next: string)
    requires Gives(Reached(clock, before), step, token)
    requires forall k :: 0 <= k < |more| ==> !OfFamily(more[k], token.family)
    requires !KnownJTI(Reached(clock, before + [step] + more).rows, next)
    ensures var s := Reached(clock, before + [step] + more);
            Succeeds(s, Refresh(token, next, Committed, true)) <==>
              s.clock < Reached(clock, before).clock + 30 * 24 * 60 * 60 * 1000
  {
    hide Run, OfFamily, KnownJTI, HasLive, OpenUntil, Apply, Chain;
    var t := Reached(clock, before).clock;
    GivenIsOpen(Reached(clock, before), step, token);
    RunThen(clock, before, step);
    StaysOpenAfter(Reached(clock, before + [step]), more, token, t + 30 * 24 * 60 * 60 * 1000);
    RunMore(Init(clock), before + [step], more);
    var s := Reached(clock, before + [step] + more);
    ReachedInv(clock, before + [step] + more);
    OpenIsLive(s, token, t + 30 * 24 * 60 * 60 * 1000);
    OpenIsIssued(s, token, t + 30 * 24 * 60 * 60 * 1000);
  }

  lemma OpenIsIssued(s: State, token: Token, till: int)
    requires OpenUntil(s, token, till)
    ensures token in s.issued
  {
  }

  lemma RunThen(clock: int, before: seq<Step>, step: Step)
    ensures Reached(clock, before + [step]) == Apply(Reached(clock, before), step)
  {
    assert (before + [step])[..|before|] == before;
  }

  // ------------------------------------------------------------- why a row is revoked

  /** A rotated token's row says so, any other revoked row tells of a logout, and an open row tells nothing. */
  predicate TellsWhy(row: Row, rotated: seq<string>) {
    match row.revokedAt
    case None => row.reason == "" && row.jti !in rotated
    case Some(_) => row.reason == if row.jti in rotated then "rotated" else "logout"
  }

  predicate AllTellWhy(s: State) {
    forall i :: 0 <= i < |s.rows| ==> TellsWhy(s.rows[i], s.rotated)
  }

  lemma RotatedIsKnown(s: State, i: nat)
    requires Inv(s) && i < |s.rotated|
    ensures KnownJTI(s.rows, s.rotated[i])
  {
    hide Chain;
    assert WasRevoked(s.rows, s.rotated[i]);
  }

  /** A token id that no row has was not rotated. */
  lemma UnknownIsNotRotated(s: State, jti: string)
    requires Inv(s) && !KnownJTI(s.rows, jti)
    ensures jti !in s.rotated
  {
    forall i | 0 <= i < |s.rotated| ensures KnownJTI(s.rows, s.rotated[i]) { RotatedIsKnown(s, i); }
    hide Inv, KnownJTI;
  }

  lemma LoginTells(s: State, user: string, family: string, jti: string, created: Outcome)
    requires Inv(s) && AllTellWhy(s)
    ensures AllTellWhy(Apply(s, Login(user, family, jti, created)))
  {
    hide Chain, KnownFamily, Inv;
    if CanLogin(s, family, jti) { UnknownIsNotRotated(s, jti); }
  }

  lemma LogoutTells(s: State, token: Token, gone: Outcome)
    requires AllTellWhy(s)
    ensures AllTellWhy(Apply(s, Logout(token, gone)))
  {
  }

  lemma RefreshTells(s: State, token: Token, next: string, done: Outcome, delivered: bool)
    requires Inv(s) && AllTellWhy(s)
    ensures AllTellWhy(Apply(s, Refresh(token, next, done, delivered)))
  {
    hide Chain;
    var s' := Apply(s, Refresh(token, next, done, delivered));
    if CanRotate(s, token, next) && !done.RolledBack? {
      UnknownIsNotRotated(s, next);
      var l :| 0 <= l < |s.rows| && Live(s.rows[l], token, s.clock);
      assert s.rows[l].jti != next;
      assert DistinctJTIs(s.rows);
      hide Inv, KnownJTI;
      forall i | 0 <= i < |s'.rows| ensures TellsWhy(s'.rows[i], s'.rotated) {
        if i < |s.rows| { assert TellsWhy(s.rows[i], s.rotated) && (i < l || l < i ==> s.rows[i].jti != token.jti); }
      }
    }
  }

  lemma {:induction false} RowsTellWhy(clock: int, steps: seq<Step>)
    ensures AllTellWhy(Reached(clock, steps))
    decreases |steps|
  {
    hide Inv, Apply, AllTellWhy;
    if steps == [] {
      NothingToTell(clock);
    } else {
      var before, step := steps[..|steps| - 1], steps[|steps| - 1];
      var s := Reached(clock, before);
      ReachedInv(clock, before);
      RowsTellWhy(clock, before);
      StepTells(s, step);
    }
  }

  lemma NothingToTell(clock: int)
    ensures AllTellWhy(Init(clock))
  {
  }

  lemma StepTells(s: State, step: Step)
    requires Inv(s) && AllTellWhy(s)
    ensures AllTellWhy(Apply(s, step))
  {
    hide Inv;
    if step.Login? {
      LoginTells(s, step.user, step.newFamily, step.newJTI, step.created);
    } else if step.Refresh? {
      RefreshTells(s, step.token, step.nextJTI, step.done, step.delivered);
    } else if step.Logout? {
      LogoutTells(s, step.bye, step.gone);
    }
  }
}
