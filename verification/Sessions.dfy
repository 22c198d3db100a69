/** Sliding session lifetime: a request is admitted while its session is neither revoked, expired nor idle,
    and refreshes the session's last use only after a touch interval. */
module Sessions {
  import opened Basics

  datatype Settings = Settings(ttl: int, idle: int, touch: int)

  /** What the configuration insists on at start-up. */
  predicate ValidSettings(c: Settings) {
    && c.ttl > 0
    && 0 < c.idle <= c.ttl
    && 0 < c.touch < c.idle
  }

  datatype SessionRow = SessionRow(user: string, createdAt: int, expiresAt: int, revokedAt: Option<int>, lastUsedAt: Option<int>)

  function LastUse(s: SessionRow): int {
    if s.lastUsedAt.Some? then s.lastUsedAt.value else s.createdAt
  }

  predicate Alive(s: SessionRow, now: int, c: Settings) {
    s.revokedAt.None? && now < s.expiresAt && now < LastUse(s) + c.idle
  }

  function Touched(s: SessionRow, now: int, c: Settings): SessionRow {
    if LastUse(s) + c.touch <= now then s.(lastUsedAt := Some(now)) else s
  }

  function Revoked(s: SessionRow, now: int): SessionRow {
    if s.revokedAt.Some? then s else s.(revokedAt := Some(now))
  }

  /** The row as the service holds it. */
  class AuthSession {
    const user: string
    const createdAt: int
    const expiresAt: int
    var revokedAt: Option<int>
    var lastUsedAt: Option<int>

    function Row(): SessionRow
      reads this
    {
      SessionRow(user, createdAt, expiresAt, revokedAt, lastUsedAt)
    }

    /** The row that create_auth_session adds. */
    constructor (user: string, now: int, c: Settings)
      ensures Row() == SessionRow(user, now, now + c.ttl, None, Some(now))
    {
      this.user, createdAt, expiresAt := user, now, now + c.ttl;
      revokedAt, lastUsedAt := None, Some(now);
    }

    /** require_current_session, once the token's row is found. */
    method RequireCurrent(disabled: set<string>, now: int, c: Settings) returns (admitted: bool)
      modifies this`lastUsedAt
      ensures admitted == (Alive(old(Row()), now, c) && user !in disabled)
      ensures Row() == if admitted then Touched(old(Row()), now, c) else old(Row())
    {
      if revokedAt.Some? || expiresAt <= now {
        return false;
      }
      var lastUsed := if lastUsedAt.Some? then lastUsedAt.value else createdAt;
      if lastUsed + c.idle <= now {
        return false;
      }
      if user in disabled {
        return false;
      }
      if lastUsed + c.touch <= now {
        lastUsedAt := Some(now);
      }
      return true;
    }

    /** revoke_session_token, once the row is found: a second revocation changes nothing. */
    method Revoke(now: int) returns (changed: bool)
      modifies this`revokedAt
      ensures changed == old(revokedAt).None?
      ensures Row() == Revoked(old(Row()), now)
    {
      if revokedAt.Some? {
        return false;
      }
      revokedAt := Some(now);
      return true;
    }

    /** revalidate_mutation_actor, once owner and session are locked: it reads the same bounds and writes nothing. */
    method Revalidate(owner: string, disabled: set<string>, now: int, c: Settings) returns (admitted: bool)
      ensures admitted == (user == owner && owner !in disabled && Alive(Row(), now, c))
    {
      if owner in disabled || user != owner {
        return false;
      }
      var lastUsed := if lastUsedAt.Some? then lastUsedAt.value else createdAt;
      return !(revokedAt.Some? || expiresAt <= now || lastUsed + c.idle <= now);
    }
  }

  // ----------------------------------------------------------------------- traces

  datatype World = World(now: int, sessions: map<string, SessionRow>, disabled: set<string>)

  datatype Act =
    | Wait(seconds: nat)
    | Login(user: string, newToken: string, presented: Option<string>)
    | Logout(token: string)
    | Request(token: string)
    | Disable(user: string)
    | Enable(user: string)

  predicate Admitted(w: World, token: string, c: Settings) {
    token in w.sessions && Alive(w.sessions[token], w.now, c) && w.sessions[token].user !in w.disabled
  }

  function RevokeIn(w: World, token: string): World {
    if token in w.sessions then w.(sessions := w.sessions[token := Revoked(w.sessions[token], w.now)]) else w
  }

  /** An admitted request touches its session. */
  function Used(w: World, token: string, c: Settings): World
    requires token in w.sessions
  {
    w.(sessions := w.sessions[token := Touched(w.sessions[token], w.now, c)])
  }

  /** Acts that need an admitted session; logging out is one of them. */
  predicate Asks(act: Act, token: string) { act == Request(token) || act == Logout(token) }

  function Step(w: World, act: Act, c: Settings): World {
    match act
    case Wait(seconds) => w.(now := w.now + seconds)
    case Login(user, newToken, presented) =>
      var revoked := if presented.Some? then RevokeIn(w, presented.value) else w;
      if newToken in w.sessions then w
      else revoked.(sessions := revoked.sessions[newToken := SessionRow(user, w.now, w.now + c.ttl, None, Some(w.now))])
    case Logout(token) => if Admitted(w, token, c) then RevokeIn(Used(w, token, c), token) else w
    case Request(token) => if Admitted(w, token, c) then Used(w, token, c) else w
    case Disable(user) => w.(disabled := w.disabled + {user})
    case Enable(user) => w.(disabled := w.disabled - {user})
  }

  function Run(w: World, acts: seq<Act>, c: Settings): World {
    if acts == [] then w else Step(Run(w, acts[..|acts| - 1], c), acts[|acts| - 1], c)
  }

  /** A session once created stays, with its user and its absolute bounds; its last use never moves back,
      and a revocation is for good. */
  predicate Succeeds(s: SessionRow, t: SessionRow) {
    && t.user == s.user && t.createdAt == s.createdAt && t.expiresAt == s.expiresAt
    && (s.revokedAt.Some? ==> t == s)
    && LastUse(t) >= LastUse(s)
  }

  lemma StepSucceeds(w: World, act: Act, c: Settings, token: string)
    requires ValidSettings(c) && token in w.sessions
    ensures w.now <= Step(w, act, c).now && token in Step(w, act, c).sessions
    ensures Succeeds(w.sessions[token], Step(w, act, c).sessions[token])
  {
  }

  lemma {:induction false} RunSucceeds(w: World, acts: seq<Act>, c: Settings, token: string)
    requires ValidSettings(c) && token in w.sessions
    ensures w.now <= Run(w, acts, c).now && token in Run(w, acts, c).sessions
    ensures Succeeds(w.sessions[token], Run(w, acts, c).sessions[token])
  {
    if acts != [] {
      RunSucceeds(w, acts[..|acts| - 1], c, token);
      StepSucceeds(Run(w, acts[..|acts| - 1], c), acts[|acts| - 1], c, token);
    }
  }

  lemma DeadStep(w: World, act: Act, c: Settings, token: string)
    requires ValidSettings(c) && token in w.sessions && !Alive(w.sessions[token], w.now, c)
    ensures token in Step(w, act, c).sessions && !Alive(Step(w, act, c).sessions[token], Step(w, act, c).now, c)
  {
  }

  /** A session that is dead, by idleness, expiry or revocation, is refused at every later time, whatever happens. */
  lemma {:induction false} DeadForGood(w: World, acts: seq<Act>, c: Settings, token: string)
    requires ValidSettings(c) && token in w.sessions && !Alive(w.sessions[token], w.now, c)
    ensures token in Run(w, acts, c).sessions
    ensures !Alive(Run(w, acts, c).sessions[token], Run(w, acts, c).now, c) && !Admitted(Run(w, acts, c), token, c)
  {
    if acts != [] {
      DeadForGood(w, acts[..|acts| - 1], c, token);
      DeadStep(Run(w, acts[..|acts| - 1], c), acts[|acts| - 1], c, token);
    }
  }

  /** A logout by an enabled user makes its session one that is refused for good; by a disabled user it is
      itself refused and changes nothing. It touches no other session. */
  lemma {:induction false} LogoutIsFinal(w: World, token: string, acts: seq<Act>, c: Settings)
    requires ValidSettings(c) && token in w.sessions
    ensures w.sessions[token].user !in w.disabled ==> !Admitted(Run(Step(w, Logout(token), c), acts, c), token, c)
    ensures Admitted(w, token, c) ==> Step(w, Logout(token), c).sessions[token].revokedAt == Some(w.now)
    ensures !Admitted(w, token, c) ==> Step(w, Logout(token), c) == w
    ensures forall t :: t in w.sessions && t != token ==> Step(w, Logout(token), c).sessions[t] == w.sessions[t]
  {
    if w.sessions[token].user !in w.disabled { DeadForGood(Step(w, Logout(token), c), acts, c, token); }
  }

  /** A login starts a session of its user that is admitted at once and expires after the lifetime, refuses
      for good the session it was presented with, and touches no other one. */
  lemma {:induction false} LoginReplaces(w: World, user: string, token: string, presented: Option<string>, acts: seq<Act>, c: Settings)
    requires ValidSettings(c) && token !in w.sessions
    ensures var v := Step(w, Login(user, token, presented), c);
      && token in v.sessions && v.sessions[token] == SessionRow(user, w.now, w.now + c.ttl, None, Some(w.now))
      && (Admitted(v, token, c) <==> user !in w.disabled)
      && v.sessions.Keys == w.sessions.Keys + {token}
      && (forall t :: t in w.sessions && presented != Some(t) ==> v.sessions[t] == w.sessions[t])
      && (presented.Some? && presented.value in w.sessions ==> !Admitted(Run(v, acts, c), presented.value, c))
  {
    var v := Step(w, Login(user, token, presented), c);
    if presented.Some? && presented.value in w.sessions {
      DeadForGood(v, acts, c, presented.value);
    }
  }

  /** A disabled user's sessions are refused, and nobody else's; enabling the user gives back those that live. */
  lemma DisablingExact(w: World, user: string, token: string, c: Settings)
    requires token in w.sessions
    ensures Admitted(Step(w, Disable(user), c), token, c) <==> Admitted(w, token, c) && w.sessions[token].user != user
    ensures Admitted(Step(w, Enable(user), c), token, c) <==>
      Alive(w.sessions[token], w.now, c) && (w.sessions[token].user == user || w.sessions[token].user !in w.disabled)
  {
  }

  /** When the client of this token was last admitted; `since` if not in this run. */
  function LastAdmitted(w: World, acts: seq<Act>, c: Settings, token: string, since: int): int {
    if acts == [] then since
    else
      var before := Run(w, acts[..|acts| - 1], c);
      if Asks(acts[|acts| - 1], token) && Admitted(before, token, c) then before.now
      else LastAdmitted(w, acts[..|acts| - 1], c, token, since)
  }

  /** The stored last use is never later than the last admission, and lags it by less than the touch interval. */
  predicate Lags(s: SessionRow, admitted: int, c: Settings) {
    LastUse(s) <= admitted < LastUse(s) + c.touch
  }

  lemma StepLags(w: World, act: Act, c: Settings, token: string, admitted: int)
    requires ValidSettings(c) && token in w.sessions && Lags(w.sessions[token], admitted, c) && admitted <= w.now
    ensures token in Step(w, act, c).sessions
    ensures Lags(Step(w, act, c).sessions[token], if Asks(act, token) && Admitted(w, token, c) then w.now else admitted, c)
    ensures w.now <= Step(w, act, c).now
  {
  }

  lemma {:induction false} LastUseLags(w: World, acts: seq<Act>, c: Settings, token: string, since: int)
    requires ValidSettings(c) && token in w.sessions && Lags(w.sessions[token], since, c) && since <= w.now
    ensures token in Run(w, acts, c).sessions
    ensures Lags(Run(w, acts, c).sessions[token], LastAdmitted(w, acts, c, token, since), c)
    ensures LastAdmitted(w, acts, c, token, since) <= Run(w, acts, c).now
  {
    if acts != [] {
      LastUseLags(w, acts[..|acts| - 1], c, token, since);
      StepLags(Run(w, acts[..|acts| - 1], c), acts[|acts| - 1], c, token, LastAdmitted(w, acts[..|acts| - 1], c, token, since));
    }
  }

  /** A fresh login of this token. */
  function LoggedIn(w: World, user: string, token: string, presented: Option<string>, c: Settings): World {
    Step(w, Login(user, token, presented), c)
  }

  /** After any trace, a client last admitted at most idle - touch seconds ago is admitted until the absolute
      expiry, unless revoked or disabled; one that has been silent for idle seconds is refused. */
  lemma IdleBounds(w: World, user: string, token: string, presented: Option<string>, acts: seq<Act>, c: Settings)
    requires ValidSettings(c) && token !in w.sessions
    ensures var start := LoggedIn(w, user, token, presented, c); var end := Run(start, acts, c);
      var silent := end.now - LastAdmitted(start, acts, c, token, w.now);
      && token in end.sessions
      && (silent <= c.idle - c.touch && end.sessions[token].revokedAt.None? && user !in end.disabled && end.now < w.now + c.ttl ==>
            Admitted(end, token, c))
      && (silent >= c.idle || end.now >= w.now + c.ttl ==> !Admitted(end, token, c))
  {
    var start := LoggedIn(w, user, token, presented, c);
    LastUseLags(start, acts, c, token, w.now);
    RunSucceeds(start, acts, c, token);
  }

  /** When the client of this token last asked, admitted or not. */
  function LastAsked(w: World, acts: seq<Act>, c: Settings, token: string, since: int): int {
    if acts == [] then since
    else if Asks(acts[|acts| - 1], token) then Run(w, acts[..|acts| - 1], c).now
    else LastAsked(w, acts[..|acts| - 1], c, token, since)
  }

  /** Every request comes at most idle - touch seconds after the one before, by a user enabled at the time. */
  predicate Diligent(w: World, acts: seq<Act>, c: Settings, token: string, since: int)
    requires token in w.sessions
  {
    acts == [] ||
    (var front := acts[..|acts| - 1]; var before := Run(w, front, c);
     && Diligent(w, front, c, token, since)
     && (Asks(acts[|acts| - 1], token) ==>
           before.now - LastAsked(w, front, c, token, since) <= c.idle - c.touch && w.sessions[token].user !in before.disabled))
  }

  predicate AllAdmitted(w: World, acts: seq<Act>, c: Settings, token: string) {
    acts == [] ||
    (var front := acts[..|acts| - 1];
     && AllAdmitted(w, front, c, token)
     && (Asks(acts[|acts| - 1], token) ==> Admitted(Run(w, front, c), token, c)))
  }

  lemma {:induction false} DiligentAdmitted(w: World, acts: seq<Act>, c: Settings, token: string, since: int)
    requires ValidSettings(c) && token in w.sessions && Lags(w.sessions[token], since, c) && since <= w.now
    requires Diligent(w, acts, c, token, since)
    requires token in Run(w, acts, c).sessions && Run(w, acts, c).sessions[token].revokedAt.None?
    requires Run(w, acts, c).now < w.sessions[token].expiresAt
    ensures AllAdmitted(w, acts, c, token) && LastAsked(w, acts, c, token, since) == LastAdmitted(w, acts, c, token, since)
  {
    if acts != [] {
      var front := acts[..|acts| - 1];
      LastUseLags(w, front, c, token, since);
      RunSucceeds(w, front, c, token);
      StepSucceeds(Run(w, front, c), acts[|acts| - 1], c, token);
      DiligentAdmitted(w, front, c, token, since);
    }
  }

  /** A client whose requests are never more than idle - touch seconds apart is never refused before the
      absolute expiry, unless revoked or disabled. */
  lemma DiligentNeverRefused(w: World, user: string, token: string, presented: Option<string>, acts: seq<Act>, c: Settings)
    requires ValidSettings(c) && token !in w.sessions
    requires Diligent(LoggedIn(w, user, token, presented, c), acts, c, token, w.now)
    requires var end := Run(LoggedIn(w, user, token, presented, c), acts, c);
      end.now < w.now + c.ttl && (token in end.sessions ==> end.sessions[token].revokedAt.None?)
    ensures AllAdmitted(LoggedIn(w, user, token, presented, c), acts, c, token)
  {
    var start := LoggedIn(w, user, token, presented, c);
    RunSucceeds(start, acts, c, token);
    DiligentAdmitted(start, acts, c, token, w.now);
  }

  /** With an idle bound as long as the lifetime itself, idleness never refuses anyone before the expiry. */
  lemma IdleNeverBinds(w: World, user: string, token: string, presented: Option<string>, acts: seq<Act>, c: Settings)
    requires ValidSettings(c) && token !in w.sessions && c.idle == c.ttl
    ensures var end := Run(LoggedIn(w, user, token, presented, c), acts, c);
      && token in end.sessions
      && (end.sessions[token].revokedAt.None? && user !in end.disabled && end.now < w.now + c.ttl ==> Admitted(end, token, c))
  {
    RunSucceeds(LoggedIn(w, user, token, presented, c), acts, c, token);
  }

  /** The bound is tight: for all settings with a shorter idle bound there is a client, silent for one second more, that is refused. */
  lemma BoundIsTight(w: World, user: string, token: string, c: Settings) returns (acts: seq<Act>)
    requires ValidSettings(c) && token !in w.sessions && user !in w.disabled && c.idle < c.ttl
    ensures var start := LoggedIn(w, user, token, None, c); var end := Run(start, acts, c);
      && token in end.sessions && end.sessions[token].revokedAt.None? && user !in end.disabled && end.now < w.now + c.ttl
      && end.now - LastAdmitted(start, acts, c, token, w.now) == c.idle - c.touch + 1
      && !Admitted(end, token, c)
  {
    var start := LoggedIn(w, user, token, None, c);
    var first := [Wait(c.touch - 1)];
    var second := first + [Request(token)];
    acts := second + [Wait(c.idle - c.touch + 1)];
    assert first[..0] == [] && second[..1] == first && acts[..2] == second;
    assert Run(start, first, c) == start.(now := w.now + c.touch - 1);
    assert Admitted(Run(start, first, c), token, c);
    assert Run(start, second, c).sessions[token] == start.sessions[token];
  }
}
