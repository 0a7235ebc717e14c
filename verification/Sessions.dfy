/**
 Rotation of refresh tokens (internal/auth/service.go, `Refresh` and `Logout`; session.go). A token
 is known by its hash, an opaque unique value. A refresh is a read with its checks, a guarded
 update that revokes the old session, and an insert of the new one.
 */
module Sessions {
  import opened Options

  /** The identifier of a session is its place in the table. */
  datatype Session = Session(user: string, tokenHash: string, expiresAt: int, revokedAt: Option<int>)

  datatype AuthError = TokenRequired | UnknownToken | RevokedToken | ExpiredToken | InactiveAccount | HashTaken

  predicate IsLive(s: Session) {
    s.revokedAt.None?
  }

  /** The session with this hash among the first k. */
  function Lookup(ss: seq<Session>, tokenHash: string, k: nat): (r: Option<nat>)
    requires k <= |ss|
    ensures r.Some? ==> r.value < k && ss[r.value].tokenHash == tokenHash
    ensures r.None? ==> forall i :: 0 <= i < k ==> ss[i].tokenHash != tokenHash
  {
    if k == 0 then None
    else
      match Lookup(ss, tokenHash, k - 1)
      case Some(i) => Some(i)
      case None => if ss[k - 1].tokenHash == tokenHash then Some(k - 1) else None
  }

  /** The read and the checks with which a refresh begins. */
  function CheckToken(ss: seq<Session>, tokenHash: string, now: int, active: set<string>): Result<nat, AuthError> {
    match Lookup(ss, tokenHash, |ss|)
    case None => Failure(UnknownToken)
    case Some(i) =>
      if ss[i].revokedAt.Some? then Failure(RevokedToken)
      else if now > ss[i].expiresAt then Failure(ExpiredToken)
      else if ss[i].user !in active then Failure(InactiveAccount)
      else Success(i)
  }

  /** A token is accepted exactly when its session is live, unexpired and of an active user. */
  lemma AcceptedTokenIff(ss: seq<Session>, tokenHash: string, now: int, active: set<string>, i: nat)
    requires i < |ss| && ss[i].tokenHash == tokenHash && forall j :: 0 <= j < i ==> ss[j].tokenHash != tokenHash
    ensures CheckToken(ss, tokenHash, now, active) ==
      if ss[i].revokedAt != None then Failure(RevokedToken)
      else if ss[i].expiresAt < now then Failure(ExpiredToken)
      else if ss[i].user !in active then Failure(InactiveAccount)
      else Success(i)
  {
    LookupFirst(ss, tokenHash, i, |ss|);
  }

  lemma {:induction false} LookupFirst(ss: seq<Session>, tokenHash: string, i: nat, k: nat)
    requires i < k <= |ss| && ss[i].tokenHash == tokenHash && forall j :: 0 <= j < i ==> ss[j].tokenHash != tokenHash
    ensures Lookup(ss, tokenHash, k) == Some(i)
  {
    if k > i + 1 { LookupFirst(ss, tokenHash, i, k - 1); }
  }

  function Revoked(ss: seq<Session>, i: nat, now: int): seq<Session>
    requires i < |ss|
  {
    if ss[i].revokedAt.None? then ss[i := ss[i].(revokedAt := Some(now))] else ss
  }

  /** The table after the session is revoked and, unless the hash is taken, its successor made. */
  function Rotated(ss: seq<Session>, i: nat, now: int, freshHash: string, expiresAt: int): seq<Session>
    requires i < |ss|
  {
    var revoked := Revoked(ss, i, now);
    if Lookup(revoked, freshHash, |revoked|).Some? then revoked
    else revoked + [Session(ss[i].user, freshHash, expiresAt, None)]
  }

  class SessionStore {
    var sessions: seq<Session>

    constructor ()
      ensures sessions == []
    {
      sessions := [];
    }

    /** The hash is a unique key. */
    method Create(user: string, tokenHash: string, expiresAt: int) returns (r: Result<nat, AuthError>)
      modifies this
      ensures r.Success? <==> Lookup(old(sessions), tokenHash, |old(sessions)|).None?
      ensures r.Success? ==>
        r.value == |old(sessions)| && sessions == old(sessions) + [Session(user, tokenHash, expiresAt, None)]
      ensures r.Failure? ==> r.error == HashTaken && sessions == old(sessions)
    {
      var taken := GetByHash(tokenHash);
      if taken.Success? { return Failure(HashTaken); }
      sessions := sessions + [Session(user, tokenHash, expiresAt, None)];
      return Success(|sessions| - 1);
    }

    method GetByHash(tokenHash: string) returns (r: Result<nat, AuthError>)
      ensures r == match Lookup(sessions, tokenHash, |sessions|) {
                   case Some(i) => Success(i)
                   case None => Failure(UnknownToken)
                 }
    {
      for i := 0 to |sessions|
        invariant Lookup(sessions, tokenHash, i).None?
      {
        if sessions[i].tokenHash == tokenHash {
          LookupFirst(sessions, tokenHash, i, |sessions|);
          return Success(i);
        }
      }
      return Failure(UnknownToken);
    }

    /** Reports whether the session was still live. */
    method Revoke(i: nat, now: int) returns (changed: bool)
      requires i < |sessions|
      modifies this
      ensures changed <==> IsLive(old(sessions)[i])
      ensures sessions == Revoked(old(sessions), i, now)
    {
      if sessions[i].revokedAt.Some? { return false; }
      sessions := sessions[i := sessions[i].(revokedAt := Some(now))];
      return true;
    }

    /** `Refresh`, run alone; `freshHash` is the hash of the token it makes. */
    method Refresh(tokenHash: string, now: int, active: set<string>, freshHash: string, expiresAt: int)
      returns (r: Result<nat, AuthError>)
      modifies this
      ensures tokenHash == "" ==> r == Failure(TokenRequired)
      ensures tokenHash != "" && CheckToken(old(sessions), tokenHash, now, active).Failure? ==>
        r.Failure? && r.error == CheckToken(old(sessions), tokenHash, now, active).error
      ensures tokenHash == "" || CheckToken(old(sessions), tokenHash, now, active).Failure? ==> sessions == old(sessions)
      ensures tokenHash != "" && CheckToken(old(sessions), tokenHash, now, active).Success? ==>
        var i := CheckToken(old(sessions), tokenHash, now, active).value;
        && old(sessions)[i].tokenHash == tokenHash && old(sessions)[i].revokedAt.None?
        && now <= old(sessions)[i].expiresAt && old(sessions)[i].user in active
        && sessions == Rotated(old(sessions), i, now, freshHash, expiresAt)
        && (r.Success? ==>
              && r.value == |old(sessions)|
              && sessions == old(sessions)[i := old(sessions)[i].(revokedAt := Some(now))]
                             + [Session(old(sessions)[i].user, freshHash, expiresAt, None)])
        && !IsLive(sessions[i])
        && (r.Success? <==> |sessions| == |old(sessions)| + 1)
        && (r.Failure? ==> r.error == HashTaken)
    {
      if tokenHash == "" { return Failure(TokenRequired); }
      var found := GetByHash(tokenHash);
      if found.Failure? { return found; }
      var s := sessions[found.value];
      if s.revokedAt.Some? { return Failure(RevokedToken); }
      if now > s.expiresAt { return Failure(ExpiredToken); }
      if s.user !in active { return Failure(InactiveAccount); }
      var revoked := Revoke(found.value, now);
      if !revoked { return Failure(RevokedToken); }
      r := Create(s.user, freshHash, expiresAt);
    }

    /** `Logout`: an unknown token is no error. */
    method Logout(tokenHash: string, now: int)
      modifies this
      ensures sessions == match Lookup(old(sessions), tokenHash, |old(sessions)|) {
                          case Some(i) => if tokenHash == "" then old(sessions) else Revoked(old(sessions), i, now)
                          case None => old(sessions)
                        }
    {
      if tokenHash == "" { return; }
      var found := GetByHash(tokenHash);
      if found.Failure? { return; }
      var _ := Revoke(found.value, now);
    }
  }
}
