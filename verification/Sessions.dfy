/**
 Login sessions. The service's state is a function of the calls made so far; a
 token is valid exactly when those calls say so. Login and ChangePassword
 compare the password before they take the lock, so other calls may come
 between. Strings are sequences of bytes, as in Go.
 */
module Sessions {

  type Token = string
  type Digest = string

  /** 24 hours, in the clock's nanoseconds. */
  const LIFETIME: nat := 86_400_000_000_000

  /**
   One call, at the moment it takes the lock, with the clock reading and the
   token drawn for a login. `checked` is how many calls had been made when the
   password was compared.
   */
  datatype Event =
    | Login(now: int, user: string, password: string, token: Token, checked: nat)
    | Validate(now: int, token: Token)
    | Logout(now: int, token: Token)
    | ChangePassword(now: int, current: string, next: string, checked: nat)

  /** The administrator's name, the hex SHA-256 used for passwords, and the password at start. */
  datatype Config = Config(admin: string, hash: string -> Digest, initial: string)

  // ------------------------------------------------------------ the service

  datatype State = State(adminPass: Digest, sessions: map<Token, int>)

  predicate LoginOk(cfg: Config, adminPass: Digest, user: string, password: string) {
    user == cfg.admin && cfg.hash(password) == adminPass
  }

  predicate ChangeOk(cfg: Config, adminPass: Digest, current: string, next: string) {
    cfg.hash(current) == adminPass && |next| >= 6
  }

  /** The effect of a call that was compared with the digest `seen`. */
  function Apply(cfg: Config, s: State, ev: Event, seen: Digest): State {
    match ev
    case Login(now, user, password, token, _) =>
      if LoginOk(cfg, seen, user, password) then s.(sessions := s.sessions[token := now + LIFETIME]) else s
    case Validate(now, token) =>
      if token in s.sessions && now > s.sessions[token] then s.(sessions := s.sessions - {token}) else s
    case Logout(_, token) => s.(sessions := s.sessions - {token})
    case ChangePassword(_, current, next, _) =>
      if ChangeOk(cfg, seen, current, next) then State(cfg.hash(next), map[]) else s
  }

  /** When the password of call `i` was compared. */
  function Compared(log: seq<Event>, i: nat): nat
    requires i < |log|
    ensures Compared(log, i) <= i
  {
    if (log[i].Login? || log[i].ChangePassword?) && log[i].checked < i then log[i].checked else i
  }

  /** The password digest in force before event `i`: that of the last successful change. */
  function Password(cfg: Config, log: seq<Event>, i: nat): Digest
    requires i <= |log|
  {
    if i == 0 then cfg.hash(cfg.initial)
    else if log[i - 1].ChangePassword?
            && ChangeOk(cfg, Password(cfg, log, Compared(log, i - 1)), log[i - 1].current, log[i - 1].next)
    then cfg.hash(log[i - 1].next)
    else Password(cfg, log, i - 1)
  }

  /** The digest that call `i` was compared with. */
  function Seen(cfg: Config, log: seq<Event>, i: nat): Digest
    requires i < |log|
  {
    Password(cfg, log, Compared(log, i))
  }

  function Replay(cfg: Config, log: seq<Event>): State {
    if log == [] then State(cfg.hash(cfg.initial), map[])
    else
      var last := |log| - 1;
      Apply(cfg, Replay(cfg, log[..last]), log[last], Seen(cfg, log, last))
  }

  /** What Validate answers. */
  predicate Accepts(s: State, token: Token, now: int) {
    token in s.sessions && now <= s.sessions[token]
  }

  // -------------------------------------------------------------- the trace

  /** Event `i` is a login that issued this token. */
  predicate Issues(cfg: Config, log: seq<Event>, i: nat, token: Token) {
    && i < |log| && log[i].Login? && log[i].token == token
    && LoginOk(cfg, Seen(cfg, log, i), log[i].user, log[i].password)
  }

  /** Event `j` ends every session of this token. */
  predicate Revokes(cfg: Config, log: seq<Event>, j: nat, token: Token) {
    && j < |log|
    && (|| (log[j].Logout? && log[j].token == token)
        || (log[j].ChangePassword? && ChangeOk(cfg, Seen(cfg, log, j), log[j].current, log[j].next)))
  }

  /** The token was issued by login `i`, not revoked since, and that login is at most 24 hours old. */
  predicate LiveSince(cfg: Config, log: seq<Event>, i: nat, token: Token, now: int) {
    && Issues(cfg, log, i, token)
    && (forall j :: i < j < |log| ==> !Revokes(cfg, log, j, token))
    && now <= log[i].now + LIFETIME
  }

  ghost predicate Live(cfg: Config, log: seq<Event>, token: Token, now: int) {
    exists i :: LiveSince(cfg, log, i, token, now)
  }

  /** The clock never runs back, and `now` is not before the last call. */
  predicate Monotone(log: seq<Event>, now: int) {
    && (forall i, j :: 0 <= i < j < |log| ==> log[i].now <= log[j].now)
    && (forall i :: 0 <= i < |log| ==> log[i].now <= now)
  }

  lemma {:induction false} PrefixPassword(cfg: Config, log: seq<Event>, n: nat, i: nat)
    requires i <= n <= |log|
    ensures Password(cfg, log[..n], i) == Password(cfg, log, i)
  {
    if i > 0 {
      PrefixPassword(cfg, log, n, i - 1);
      PrefixPassword(cfg, log, n, Compared(log, i - 1));
    }
  }

  lemma {:induction false} ReplayPassword(cfg: Config, log: seq<Event>)
    ensures Replay(cfg, log).adminPass == Password(cfg, log, |log|)
  {
    if log != [] {
      ReplayPassword(cfg, log[..|log| - 1]);
      PrefixPassword(cfg, log, |log| - 1, |log| - 1);
    }
  }

  /** Liveness before the last event, in terms of the shorter log. */
  lemma PrefixLive(cfg: Config, log: seq<Event>, i: nat, token: Token, now: int)
    requires log != [] && i < |log| - 1
    ensures LiveSince(cfg, log, i, token, now) <==>
            LiveSince(cfg, log[..|log| - 1], i, token, now) && !Revokes(cfg, log, |log| - 1, token)
  {
    var before := log[..|log| - 1];
    forall j | 0 <= j < |before| ensures Revokes(cfg, before, j, token) <==> Revokes(cfg, log, j, token) {
      PrefixPassword(cfg, log, |log| - 1, Compared(log, j));
    }
    PrefixPassword(cfg, log, |log| - 1, Compared(log, i));
  }

  /**
   Sessions refine the trace: the service accepts a token exactly when some
   login issued it, nothing revoked it since, and that login is not older than
   24 hours. Tokens need not even be distinct.
   */
  lemma {:induction false} AcceptsIffLive(cfg: Config, log: seq<Event>, token: Token, now: int)
    requires Monotone(log, now)
    ensures Accepts(Replay(cfg, log), token, now) <==> Live(cfg, log, token, now)
    decreases |log|
  {
    if log != [] {
      var last := |log| - 1;
      var before := log[..last];
      AcceptsIffLive(cfg, before, token, now);
      forall i | 0 <= i < last
        ensures LiveSince(cfg, log, i, token, now) <==>
                (LiveSince(cfg, before, i, token, now) && !Revokes(cfg, log, last, token))
      {
        PrefixLive(cfg, log, i, token, now);
      }
      LastEvent(cfg, log, token, now);
    }
  }

  /** No session outlives the latest clock reading by more than its lifetime. */
  lemma {:induction false} ExpiryBound(cfg: Config, log: seq<Event>, token: Token, bound: int)
    requires forall i :: 0 <= i < |log| ==> log[i].now <= bound
    requires token in Replay(cfg, log).sessions
    ensures Replay(cfg, log).sessions[token] <= bound + LIFETIME
  {
    var before := log[..|log| - 1];
    if token in Replay(cfg, before).sessions {
      ExpiryBound(cfg, before, token, bound);
    }
  }

  /** One event, seen from the state before it and the digest it was compared with. */
  lemma LastStep(cfg: Config, s: State, ev: Event, seen: Digest, token: Token, now: int)
    requires ev.now <= now
    requires token in s.sessions ==> s.sessions[token] <= ev.now + LIFETIME
    ensures var issued := ev.Login? && ev.token == token && LoginOk(cfg, seen, ev.user, ev.password);
            var revoked := (ev.Logout? && ev.token == token)
                           || (ev.ChangePassword? && ChangeOk(cfg, seen, ev.current, ev.next));
            Accepts(Apply(cfg, s, ev, seen), token, now) <==>
              (issued && now <= ev.now + LIFETIME) || (Accepts(s, token, now) && !revoked)
  {
  }

  lemma LastEvent(cfg: Config, log: seq<Event>, token: Token, now: int)
    requires log != [] && Monotone(log, now)
    ensures Accepts(Replay(cfg, log), token, now) <==>
            || LiveSince(cfg, log, |log| - 1, token, now)
            || (Accepts(Replay(cfg, log[..|log| - 1]), token, now) && !Revokes(cfg, log, |log| - 1, token))
  {
    var last := |log| - 1;
    var s := Replay(cfg, log[..last]);
    if token in s.sessions {
      ExpiryBound(cfg, log[..last], token, log[last].now);
    }
    LastStep(cfg, s, log[last], Seen(cfg, log, last), token, now);
  }

  // ------------------------------------------------ sessions and passwords

  /** The password change at `j` took effect: the current one was right when compared, the new one long enough. */
  lemma ChangesIff(cfg: Config, log: seq<Event>, j: nat)
    ensures Changes(cfg, log, j) <==>
            && j < |log| && log[j].ChangePassword?
            && cfg.hash(log[j].current) == Password(cfg, log, Compared(log, j)) && |log[j].next| >= 6
    ensures Changes(cfg, log, j) ==> Password(cfg, log, j + 1) == cfg.hash(log[j].next)
  {
  }

  /**
   A live session in full: a login of the administrator with the password in
   force when it was compared, no logout of the token and no change of password
   since, and no more than 24 hours.
   */
  lemma LiveSinceIff(cfg: Config, log: seq<Event>, i: nat, token: Token, now: int)
    ensures LiveSince(cfg, log, i, token, now) <==>
            && i < |log| && log[i].Login? && log[i].token == token && log[i].user == cfg.admin
            && cfg.hash(log[i].password) == Password(cfg, log, Compared(log, i))
            && (forall j :: i < j < |log| ==> log[j] != Logout(log[j].now, token) && !Changes(cfg, log, j))
            && now <= log[i].now + 24 * 60 * 60 * 1_000_000_000
  {
    if i < |log| {
      forall j | i < j < |log|
        ensures Revokes(cfg, log, j, token) <==> log[j] == Logout(log[j].now, token) || Changes(cfg, log, j)
      {
      }
    }
  }

  /** Without a revocation after it, the password stays as it was. */
  lemma {:induction false} PasswordStays(cfg: Config, log: seq<Event>, i: nat, j: nat, token: Token)
    requires i < j <= |log| && log[i].Login?
    requires forall k :: i < k < j ==> !Revokes(cfg, log, k, token)
    ensures Password(cfg, log, j) == Password(cfg, log, i)
  {
    if i + 1 < j {
      PasswordStays(cfg, log, i, j - 1, token);
      assert !Revokes(cfg, log, j - 1, token);
    }
  }

  /**
   A live session was opened with the password now in force, exactly when the
   digest did not change between the comparison in its login and the opening
   of the session. In particular a change of password ends all sessions of the
   old one, except those of logins it overlaps.
   */
  lemma LivePasswordIff(cfg: Config, log: seq<Event>, i: nat, token: Token, now: int)
    requires LiveSince(cfg, log, i, token, now)
    ensures cfg.hash(log[i].password) == Password(cfg, log, |log|) <==>
            Password(cfg, log, Compared(log, i)) == Password(cfg, log, i)
  {
    PasswordStays(cfg, log, i, |log|, token);
  }

  /** Such a session: a login that compared the initial password before it was changed, and opened its session after. */
  lemma OldPasswordCanStayLive(cfg: Config, next: string, token: Token) returns (log: seq<Event>)
    requires |next| >= 6 && cfg.hash(next) != cfg.hash(cfg.initial)
    ensures Live(cfg, log, token, 0)
    ensures forall i: nat :: LiveSince(cfg, log, i, token, 0) ==> cfg.hash(log[i].password) != Password(cfg, log, |log|)
  {
    log := [ChangePassword(0, cfg.initial, next, 0), Login(0, cfg.admin, cfg.initial, token, 0)];
    assert Password(cfg, log, 0) == cfg.hash(cfg.initial);
    assert Password(cfg, log, 1) == cfg.hash(next);
    assert Password(cfg, log, 2) == cfg.hash(next);
    assert LiveSince(cfg, log, 1, token, 0);
  }

  /** Call `j` is a change of password that took effect. */
  predicate Changes(cfg: Config, log: seq<Event>, j: nat) {
    j < |log| && log[j].ChangePassword? && ChangeOk(cfg, Seen(cfg, log, j), log[j].current, log[j].next)
  }

  /** No call from `i` up to `j` changed the password. */
  predicate Unchanged(cfg: Config, log: seq<Event>, i: nat, j: nat) {
    forall k :: i <= k < j ==> !Changes(cfg, log, k)
  }

  lemma {:induction false} UnchangedPassword(cfg: Config, log: seq<Event>, i: nat, j: nat)
    requires i <= j <= |log| && Unchanged(cfg, log, i, j)
    ensures Password(cfg, log, j) == Password(cfg, log, i)
  {
    if i < j {
      UnchangedPassword(cfg, log, i, j - 1);
      assert !Changes(cfg, log, j - 1);
    }
  }

  /**
   A change of password succeeds with the password in force at the time,
   exactly when the digest is the one it was compared with; in particular when
   no other change came between its comparison and its effect.
   */
  lemma ChangeInForceIff(cfg: Config, log: seq<Event>, j: nat)
    requires Changes(cfg, log, j)
    ensures cfg.hash(log[j].current) == Password(cfg, log, j) <==>
            Password(cfg, log, Compared(log, j)) == Password(cfg, log, j)
    ensures Unchanged(cfg, log, Compared(log, j), j) ==> cfg.hash(log[j].current) == Password(cfg, log, j)
  {
    if Unchanged(cfg, log, Compared(log, j), j) {
      UnchangedPassword(cfg, log, Compared(log, j), j);
    }
  }

  /** Two changes that compared the same password both succeed, the second with one that is no longer in force. */
  lemma ChangesCanOverlap(cfg: Config, first: string, second: string) returns (log: seq<Event>)
    requires |first| >= 6 && |second| >= 6 && cfg.hash(first) != cfg.hash(cfg.initial)
    ensures |log| == 2 && Changes(cfg, log, 0) && Changes(cfg, log, 1)
    ensures cfg.hash(log[1].current) != Password(cfg, log, 1) == cfg.hash(first)
    ensures Password(cfg, log, 2) == cfg.hash(second)
  {
    log := [ChangePassword(0, cfg.initial, first, 0), ChangePassword(0, cfg.initial, second, 0)];
    assert Password(cfg, log, 0) == cfg.hash(cfg.initial);
    assert Compared(log, 1) == 0;
    assert Password(cfg, log, 1) == cfg.hash(first);
    assert Password(cfg, log, 2) == cfg.hash(second);
  }

  // ------------------------------------------------------------- the methods

  lemma ReplayOneMore(cfg: Config, log: seq<Event>, ev: Event)
    ensures Replay(cfg, log + [ev]) == Apply(cfg, Replay(cfg, log), ev, Seen(cfg, log + [ev], |log|))
  {
    assert (log + [ev])[..|log|] == log;
  }

  lemma SeenByLast(cfg: Config, log: seq<Event>, ev: Event)
    requires (ev.Login? || ev.ChangePassword?) && ev.checked <= |log|
    ensures Seen(cfg, log + [ev], |log|) == Password(cfg, log, ev.checked)
  {
    var after := log + [ev];
    assert after[..|log|] == log;
    assert Compared(after, |log|) == ev.checked;
    PrefixPassword(cfg, after, |log|, ev.checked);
  }

  class AuthService {
    const cfg: Config
    var adminPass: Digest
    var sessions: map<Token, int>
    /** Every call made so far. */
    ghost var log: seq<Event>

    ghost predicate Valid()
      reads this
    {
      State(adminPass, sessions) == Replay(cfg, log)
    }

    constructor (cfg: Config)
      ensures Valid() && this.cfg == cfg && log == []
    {
      this.cfg := cfg;
      adminPass, sessions, log := cfg.hash(cfg.initial), map[], [];
    }

    lemma Logged(ev: Event, seen: Digest)
      requires Valid()
      requires ev.Login? || ev.ChangePassword? ==> ev.checked <= |log| && seen == Password(cfg, log, ev.checked)
      ensures Replay(cfg, log + [ev]) == Apply(cfg, State(adminPass, sessions), ev, seen)
    {
      ReplayOneMore(cfg, log, ev);
      if ev.Login? || ev.ChangePassword? {
        SeenByLast(cfg, log, ev);
      }
    }

    /** The digest the service holds is the one in force. */
    lemma InForce()
      requires Valid()
      ensures adminPass == Password(cfg, log, |log|)
    {
      ReplayPassword(cfg, log);
    }

    /** The first half of Login, before the lock. */
    method CheckLogin(user: string, password: string) returns (ok: bool)
      requires Valid()
      ensures ok <==> user == cfg.admin && cfg.hash(password) == Password(cfg, log, |log|)
    {
      InForce();
      ok := user == cfg.admin && cfg.hash(password) == adminPass;
    }

    /** The second half, however many calls were made since the password was found right. */
    method OpenSession(user: string, password: string, drawn: Token, now: int, ghost checked: nat)
      requires Valid() && checked <= |log| && LoginOk(cfg, Password(cfg, log, checked), user, password)
      modifies this
      ensures Valid() && log == old(log) + [Event.Login(now, user, password, drawn, checked)]
      ensures sessions == old(sessions)[drawn := now + 24 * 60 * 60 * 1_000_000_000]
    {
      Logged(Event.Login(now, user, password, drawn, checked), Password(cfg, log, checked));
      log := log + [Event.Login(now, user, password, drawn, checked)];
      sessions := sessions[drawn := now + LIFETIME];
    }

    /** Both halves at once. The random token drawn for the session is an argument. */
    method Login(user: string, password: string, drawn: Token, now: int) returns (token: Token, ok: bool)
      requires Valid()
      modifies this
      ensures Valid() && log == old(log) + if ok then [Event.Login(now, user, password, drawn, |old(log)|)] else []
      ensures ok <==> user == cfg.admin && cfg.hash(password) == Password(cfg, old(log), |old(log)|)
      ensures ok ==> token == drawn
    {
      token := "";
      ok := CheckLogin(user, password);
      if ok {
        OpenSession(user, password, drawn, now, |log|);
        token := drawn;
      }
    }

    /** True exactly for tokens the calls so far make live; an expired one is also dropped. */
    method Validate(token: Token, now: int) returns (ok: bool)
      requires Valid() && Monotone(log, now)
      modifies this
      ensures Valid() && log == old(log) + [Event.Validate(now, token)]
      ensures ok <==> Live(cfg, old(log), token, now)
      ensures sessions == if ok then old(sessions) else old(sessions) - {token}
    {
      AcceptsIffLive(cfg, log, token, now);
      Logged(Event.Validate(now, token), "");
      log := log + [Event.Validate(now, token)];
      if token !in sessions {
        return false;
      }
      if now > sessions[token] {
        sessions := sessions - {token};
        return false;
      }
      ok := true;
    }

    method Logout(token: Token, now: int)
      requires Valid()
      modifies this
      ensures Valid() && log == old(log) + [Event.Logout(now, token)]
      ensures sessions == old(sessions) - {token} && adminPass == old(adminPass)
    {
      Logged(Event.Logout(now, token), "");
      log := log + [Event.Logout(now, token)];
      sessions := sessions - {token};
    }

    /** The first half of ChangePassword, before the lock. */
    method CheckChange(current: string, next: string) returns (ok: bool)
      requires Valid()
      ensures ok <==> cfg.hash(current) == Password(cfg, log, |log|) && |next| >= 6
    {
      InForce();
      if cfg.hash(current) != adminPass {
        return false;
      }
      ok := |next| >= 6;
    }

    method SetPassword(next: string, now: int, ghost current: string, ghost checked: nat)
      requires Valid() && checked <= |log| && ChangeOk(cfg, Password(cfg, log, checked), current, next)
      modifies this
      ensures Valid() && log == old(log) + [Event.ChangePassword(now, current, next, checked)]
      ensures adminPass == cfg.hash(next) && sessions == map[]
    {
      Logged(Event.ChangePassword(now, current, next, checked), Password(cfg, log, checked));
      log := log + [Event.ChangePassword(now, current, next, checked)];
      adminPass := cfg.hash(next);
      sessions := map[];
    }

    method ChangePassword(current: string, next: string, now: int) returns (ok: bool)
      requires Valid()
      modifies this
      ensures Valid()
      ensures log == old(log) + if ok then [Event.ChangePassword(now, current, next, |old(log)|)] else []
      ensures ok <==> cfg.hash(current) == Password(cfg, old(log), |old(log)|) && |next| >= 6
      ensures ok ==> adminPass == cfg.hash(next) && sessions == map[]
      ensures !ok ==> adminPass == old(adminPass) && sessions == old(sessions)
    {
      ok := CheckChange(current, next);
      if ok {
        SetPassword(next, now, current, |log|);
      }
    }
  }
}
