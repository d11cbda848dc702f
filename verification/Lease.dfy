/** The token refresher: one tick, any number of ticks, and the loop that waits for them. */
module Lease {
  import opened Prelude
  import opened TokenVault
  import C = Client

  datatype Metrics = Metrics(expiry: Option<int>, renewals: nat)

  datatype State = State(w: World, c: C.State, m: Metrics)

  predicate IsAuthError(x: VaultError) {
    x.Status? && (x.code == 401 || x.code == 403)
  }

  /** How a tick ends. */
  datatype Outcome =
    | LookupError        // the lookup failed for another reason than authentication
    | ReauthFailed       // the token was refused and so was the new login
    | ReauthUnverified   // the new login succeeded but the lookup that verifies it failed
    | Reauthenticated
    | Unparsed           // the answer did not hold two numbers
    | Skipped            // at least half of the lifetime is left
    | Renewed
    | Relogged           // the renewal failed and a new login succeeded
    | ReloginFailed

  /** What a tick did: when its lookup was served and when it ended, the numbers it read, and the token
      for which Vault last confirmed in this tick that it is alive. */
  datatype Report = Report(at: int, end: int, outcome: Outcome, seen: Option<(int, int)>, verified: Option<TokenId>)

  /** The two numbers of an answer, read in the order creation_ttl, ttl. */
  function Numbers(r: LookupReply): Option<(int, int)> {
    if r.LookedUp? && r.creation.Number? && r.ttl.Number? then Some((r.creation.n, r.ttl.n)) else None
  }

  function Relogin(e: Env, s: State): (State, bool)
    requires s.c.auth.Some?
  {
    var a := C.Apply(e, s.c.auth.value, s.c, s.w);
    (s.(w := a.w, c := a.c), a.err.None?)
  }

  /** authenticateAndVerify; the new token stays installed even when its lookup fails. */
  function Reauthenticate(e: Env, s: State): (State, Outcome)
    requires s.c.auth.Some?
  {
    var (s1, ok) := Relogin(e, s);
    if !ok then (s1, ReauthFailed)
    else
      var (w2, reply) := LookupSelf(e, s1.w, s1.c.apiToken);
      (s1.(w := w2), if reply.LookupFailed? then ReauthUnverified else Reauthenticated)
  }

  /** The renewal, and the login that replaces it when it fails; the counter counts both. */
  function RenewOrLogin(e: Env, s: State): (State, Outcome)
    requires s.c.auth.Some?
  {
    var (w1, err) := RenewSelf(e, s.w, s.c.apiToken, s.c.renewalSeconds);
    if err.None? then (s.(w := w1, m := s.m.(renewals := s.m.renewals + 1)), Renewed)
    else
      var (s2, ok) := Relogin(e, s.(w := w1));
      (s2.(m := s2.m.(renewals := s2.m.renewals + 1)), if ok then Relogged else ReloginFailed)
  }

  /** What follows a lookup that was answered. */
  function Decide(e: Env, s: State, numbers: Option<(int, int)>): (State, Outcome)
    requires s.c.auth.Some?
  {
    match numbers
    case None => (s, Unparsed)
    case Some((creation, ttl)) =>
      var s1 := s.(m := s.m.(expiry := Some(ttl)));
      if 2 * ttl < creation then RenewOrLogin(e, s1) else (s1, Skipped)
  }

  /** One tick. */
  function Tick(e: Env, s: State): (State, Report)
    requires s.c.auth.Some?
  {
    var (w1, reply) := LookupSelf(e, s.w, s.c.apiToken);
    var s1 := s.(w := w1);
    match reply
    case LookupFailed(x) =>
      if !IsAuthError(x) then (s1, Report(w1.now, w1.now, LookupError, None, None))
      else
        var (s2, outcome) := Reauthenticate(e, s1);
        (s2, Report(w1.now, s2.w.now, outcome, None, if outcome == Reauthenticated then Some(s2.c.apiToken) else None))
    case LookedUp(_, _) =>
      var (s2, outcome) := Decide(e, s1, Numbers(reply));
      (s2, Report(w1.now, s2.w.now, outcome, Numbers(reply), Some(s.c.apiToken)))
  }

  lemma ReloginKeepsAuth(e: Env, s: State)
    requires s.c.auth.Some?
    ensures Relogin(e, s).0.c.auth == s.c.auth
  {
    hide LoginCall, LocalCall, C.SourceToken;
  }

  lemma TickKeepsAuth(e: Env, s: State)
    requires s.c.auth.Some?
    ensures Tick(e, s).0.c.auth == s.c.auth
  {
    hide Relogin;
    var (w1, reply) := LookupSelf(e, s.w, s.c.apiToken);
    var s1 := s.(w := w1);
    ReloginKeepsAuth(e, s1);
    if reply.LookedUp? && Numbers(reply).Some? {
      var s2 := s1.(m := s1.m.(expiry := Some(Numbers(reply).value.1)));
      ReloginKeepsAuth(e, s2.(w := RenewSelf(e, s2.w, s2.c.apiToken, s2.c.renewalSeconds).0));
    }
  }

  /** n ticks and their reports. */
  function Run(e: Env, s: State, n: nat): (r: (State, seq<Report>))
    requires s.c.auth.Some?
    ensures r.0.c.auth == s.c.auth && |r.1| == n
  {
    if n == 0 then (s, [])
    else
      var (s1, done) := Run(e, s, n - 1);
      TickKeepsAuth(e, s1);
      var (s2, report) := Tick(e, s1);
      (s2, done + [report])
  }

  // ----- the loop

  class Gauges {
    var metrics: Metrics

    constructor ()
      ensures metrics == Metrics(None, 0)
    {
      metrics := Metrics(None, 0);
    }
  }

  /** What the select statement picks next. */
  datatype Wake = TickAt | Done

  function TicksBeforeDone(wakes: seq<Wake>): nat {
    if wakes == [] || wakes[0].Done? then 0 else 1 + TicksBeforeDone(wakes[1..])
  }

  /** The ticks in front of the first shutdown, and all of them if there is none. */
  lemma {:induction false} ServedTicks(wakes: seq<Wake>)
    ensures var k := TicksBeforeDone(wakes);
      && k <= |wakes| && (forall i :: 0 <= i < k ==> wakes[i] == TickAt)
      && (k < |wakes| ==> wakes[k] == Done)
  {
    if wakes != [] && wakes[0].TickAt? {
      ServedTicks(wakes[1..]);
    }
  }

  class Refresher {
    const client: C.VaultClient
    const gauges: Gauges

    constructor (client: C.VaultClient, gauges: Gauges)
      ensures this.client == client && this.gauges == gauges
    {
      this.client, this.gauges := client, gauges;
    }

    function Now(): State
      reads client, client.outside, gauges
    {
      State(client.outside.world, client.Now(), gauges.metrics)
    }

    method Login() returns (ok: bool)
      requires client.auth.Some?
      modifies client, client.outside
      ensures (Now(), ok) == Relogin(client.outside.env, old(Now()))
    {
      var err := client.Use(client.auth.value);
      ok := err.None?;
    }

    method AuthenticateAndVerify() returns (outcome: Outcome)
      requires client.auth.Some?
      modifies client, client.outside
      ensures (Now(), outcome) == Reauthenticate(client.outside.env, old(Now()))
    {
      hide LookupSelf, Relogin;
      var ok := Login();
      if !ok {
        return ReauthFailed;
      }
      var reply := client.outside.Lookup(client.apiToken);
      return if reply.LookupFailed? then ReauthUnverified else Reauthenticated;
    }

    method RenewToken() returns (outcome: Outcome)
      requires client.auth.Some?
      modifies client, client.outside, gauges
      ensures (Now(), outcome) == RenewOrLogin(client.outside.env, old(Now()))
    {
      hide RenewSelf, C.Apply;
      var err := client.outside.Renew(client.apiToken, client.renewalSeconds);
      if err.Some? {
        var ok := Login();
        outcome := if ok then Relogged else ReloginFailed;
      } else {
        outcome := Renewed;
      }
      gauges.metrics := gauges.metrics.(renewals := gauges.metrics.renewals + 1);
    }

    method OnTick() returns (report: Report)
      requires client.auth.Some?
      modifies client, client.outside, gauges
      ensures (Now(), report) == Tick(client.outside.env, old(Now()))
    {
      hide LookupSelf, RenewOrLogin, Reauthenticate;
      var asked := client.apiToken;
      var reply := client.outside.Lookup(asked);
      var at := client.outside.world.now;
      if reply.LookupFailed? {
        if IsAuthError(reply.error) {
          var outcome := AuthenticateAndVerify();
          var verified := if outcome == Reauthenticated then Some(client.apiToken) else None;
          return Report(at, client.outside.world.now, outcome, None, verified);
        }
        return Report(at, at, LookupError, None, None);
      }
      if !reply.creation.Number? || !reply.ttl.Number? {
        return Report(at, at, Unparsed, None, Some(asked));
      }
      var creation, ttl := reply.creation.n, reply.ttl.n;
      gauges.metrics := gauges.metrics.(expiry := Some(ttl));
      if 2 * ttl < creation {
        var outcome := RenewToken();
        return Report(at, client.outside.world.now, outcome, Some((creation, ttl)), Some(asked));
      }
      return Report(at, at, Skipped, Some((creation, ttl)), Some(asked));
    }

    /** LeaseRefresher, for as long as the wake-ups go: exactly the ticks before the first shutdown are
        served, and nothing happens after it. */
    method LeaseRefresher(wakes: seq<Wake>) returns (reports: seq<Report>)
      requires client.auth.Some?
      modifies client, client.outside, gauges
      ensures (Now(), reports) == Run(client.outside.env, old(Now()), TicksBeforeDone(wakes))
    {
      hide Tick;
      reports := [];
      ghost var start := Now();
      for i := 0 to |wakes|
        invariant client.auth.Some?
        invariant (Now(), reports) == Run(client.outside.env, start, i)
        invariant TicksBeforeDone(wakes) == i + TicksBeforeDone(wakes[i..])
      {
        if wakes[i].Done? {
          return;
        }
        assert wakes[i..][1..] == wakes[i + 1..];
        TickKeepsAuth(client.outside.env, Now());
        var report := OnTick();
        reports := reports + [report];
      }
    }
  }
}
