/** The code that moves refresh sessions, proved to follow the step system of module Sessions. */
module AuthServiceCode {
  import opened Domain
  import opened Sessions

  /** The refresh_sessions table. A transaction that fails at any point leaves it alone. */
  class RefreshSessionRepo {
    var rows: seq<Row>
    var now: int

    constructor (clock: int)
      ensures rows == [] && now == clock
    {
      rows, now := [], clock;
    }

    method Create(token: Token, parent: Option<string>, created: Outcome) returns (ok: bool)
      modifies this`rows
      ensures rows == if created.RolledBack? || old(KnownJTI(rows, token.jti)) then old(rows)
                      else old(rows) + [NewRow(token, parent, now)]
      ensures ok <==> created.Committed? && !old(KnownJTI(rows, token.jti))
      ensures |rows| > |old(rows)| ==>
                var row := rows[|rows| - 1];
                && row.user == token.user && row.family == token.family && row.jti == token.jti && row.parent == parent
                && row.expiresAt == now + 30 * 24 * 60 * 60 * 1000 && row.revokedAt == None
    {
      if exists i :: 0 <= i < |rows| && rows[i].jti == token.jti {
        return false;
      }
      if created.RolledBack? {
        return false;
      }
      rows := rows + [NewRow(token, parent, now)];
      return created.Committed?;
    }

    /** None is an error; Some(false) says that no row was there to rotate. */
    method Rotate(token: Token, nextJTI: string, done: Outcome) returns (rotated: Option<bool>)
      modifies this`rows
      ensures rows == if done.RolledBack? || !old(HasLive(rows, token, now)) || old(KnownJTI(rows, nextJTI))
                      then old(rows)
                      else AfterRotate(old(rows), token, nextJTI, now)
      ensures rotated == Some(true)
              <==> done.Committed? && old(HasLive(rows, token, now)) && !old(KnownJTI(rows, nextJTI))
      ensures rotated == Some(false) <==> !done.RolledBack? && !old(HasLive(rows, token, now))
      ensures |rows| > |old(rows)| ==>
                var row := rows[|rows| - 1];
                && row.user == token.user && row.family == token.family && row.jti == nextJTI
                && row.parent == Some(token.jti) && row.expiresAt == now + 30 * 24 * 60 * 60 * 1000
                && row.revokedAt == None
                && forall i :: 0 <= i < |old(rows)| ==>
                     var row := old(rows)[i];
                     rows[i] == if Live(row, token, now) then row.(revokedAt := Some(now), reason := "rotated") else row
    {
      if done.RolledBack? {
        return None;
      }
      var at := now;
      var updated := Stamp(rows, row => Live(row, token, at), at, "rotated");
      var affected := exists i :: 0 <= i < |rows| && Live(rows[i], token, now);
      if !affected {
        return Some(false);
      }
      var conflict := exists i :: 0 <= i < |updated| && updated[i].jti == nextJTI;
      assert conflict <==> KnownJTI(rows, nextJTI) by {
        if KnownJTI(rows, nextJTI) {
          var i :| 0 <= i < |rows| && rows[i].jti == nextJTI;
          assert updated[i].jti == nextJTI;
        }
      }
      if conflict {
        return None;
      }
      rows := updated + [NewRow(token.(jti := nextJTI), Some(token.jti), now)];
      return if done.Committed? then Some(true) else None;
    }

    method RevokeFamily(user: string, family: string, gone: Outcome) returns (ok: bool)
      modifies this`rows
      ensures rows == if gone.RolledBack? then old(rows) else AfterRevoke(old(rows), user, family, now)
      ensures ok <==> gone.Committed?
      ensures !gone.RolledBack? ==>
                |rows| == |old(rows)| && forall i :: 0 <= i < |rows| ==>
                  var row := old(rows)[i];
                  rows[i] == if row.user == user && row.family == family && row.revokedAt.None?
                             then row.(revokedAt := Some(now), reason := "logout") else row
    {
      if !gone.RolledBack? {
        rows := Stamp(rows, row => Open(row, user, family), now, "logout");
      }
      return gone.Committed?;
    }
  }

  /** `parsed` arguments are what jwt.Parse and the claim checks made of the caller's token: None, or a
      token that carries this service's signature and therefore was issued by it. */
  class AuthService {
    const sessions: RefreshSessionRepo
    ghost var issued: set<Token>
    ghost var rotated: seq<string>

    constructor (sessions: RefreshSessionRepo)
      requires sessions.rows == []
      ensures this.sessions == sessions && Model() == Init(sessions.now)
    {
      this.sessions := sessions;
      issued, rotated := {}, [];
    }

    ghost function Model(): State
      reads this, sessions
    {
      State(sessions.rows, sessions.now, issued, rotated)
    }

    /** The end of both login functions. `user` is None when the identity was refused. */
    method Login(user: Option<string>, familyID: string, refreshJTI: string, created: Outcome)
        returns (token: Option<Token>)
      requires Inv(Model())
      requires !KnownFamily(sessions.rows, familyID) && forall t :: t in issued ==> t.family != familyID
      modifies this`issued, sessions`rows
      ensures Inv(Model())
      ensures Model() == if user.None? then old(Model())
              else Apply(old(Model()), Sessions.Login(user.value, familyID, refreshJTI, created))
      ensures token.Some? <==> user.Some? && created.Committed? && !old(KnownJTI(sessions.rows, refreshJTI))
      ensures token.Some? ==> token.value == Token(user.value, familyID, refreshJTI) && token.value in issued
    {
      hide Inv;
      if user.None? {
        return None;
      }
      StepKeepsInv(Model(), Sessions.Login(user.value, familyID, refreshJTI, created));
      var minted := Token(user.value, familyID, refreshJTI);
      var ok := sessions.Create(minted, None, created);
      if !ok {
        return None;
      }
      issued := issued + {minted};
      return Some(minted);
    }

    /** `delivered` says that the user lookup and the signing after the rotation went well. */
    method Refresh(parsed: Option<Token>, nextRefreshJTI: string, done: Outcome, delivered: bool)
        returns (token: Option<Token>)
      requires Inv(Model()) && (parsed.Some? ==> parsed.value in issued)
      modifies this, sessions`rows
      ensures Inv(Model())
      ensures Model() == if parsed.None? then old(Model())
              else Apply(old(Model()), Sessions.Refresh(parsed.value, nextRefreshJTI, done, delivered))
      ensures token.Some? <==>
              parsed.Some? && Succeeds(old(Model()), Sessions.Refresh(parsed.value, nextRefreshJTI, done, delivered))
      ensures token.Some? ==> token.value == parsed.value.(jti := nextRefreshJTI) && token.value in issued
    {
      hide Inv;
      if parsed.None? {
        return None;
      }
      StepKeepsInv(Model(), Sessions.Refresh(parsed.value, nextRefreshJTI, done, delivered));
      if CanRotate(Model(), parsed.value, nextRefreshJTI) && !done.RolledBack? {
        rotated := rotated + [parsed.value.jti];
      }
      var result := sessions.Rotate(parsed.value, nextRefreshJTI, done);
      if result != Some(true) || !delivered {
        return None;
      }
      var next := parsed.value.(jti := nextRefreshJTI);
      issued := issued + {next};
      return Some(next);
    }

    method Logout(parsed: Option<Token>, gone: Outcome) returns (ok: bool)
      requires Inv(Model()) && (parsed.Some? ==> parsed.value in issued)
      modifies sessions`rows
      ensures Inv(Model())
      ensures Model() == if parsed.None? then old(Model()) else Apply(old(Model()), Sessions.Logout(parsed.value, gone))
      ensures ok <==> parsed.Some? && gone.Committed?
    {
      hide Inv;
      if parsed.None? {
        return false;
      }
      StepKeepsInv(Model(), Sessions.Logout(parsed.value, gone));
      ok := sessions.RevokeFamily(parsed.value.user, parsed.value.family, gone);
    }
  }
}
