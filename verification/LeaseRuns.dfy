/** More facts about whole runs of the refresher: how fast a lost session comes back, what the metrics
    mean, and what a run leaves alone. */
module LeaseRuns {
  import opened Prelude
  import opened TokenVault
  import C = Client
  import opened ClientProofs
  import opened Lease
  import opened TickFacts
  import opened LeaseSafety

  // ----- bounded recovery

  /** The token is known to Vault and will not be accepted any more. */
  predicate Dead(w: World, t: TokenId) {
    t in w.tokens && !Alive(w.tokens[t], w.now)
  }

  /** The lookup, the login or its verification failed: no token was confirmed. */
  predicate Failed(r: Report) {
    r.outcome.LookupError? || r.outcome.ReauthFailed? || r.outcome.ReauthUnverified?
  }

  lemma ReloginKeepsDead(e: Env, s: State, d: TokenId)
    requires SingleAuth(s.c) && WellFormed(s.w) && Dead(s.w, d)
    ensures var s' := Relogin(e, s).0; WellFormed(s'.w) && Dead(s'.w, d)
  {
    ReloginMeaning(e, s);
    hide Relogin;
  }

  lemma ArriveKeepsDead(e: Env, w: World, call: Call, d: TokenId)
    requires Dead(w, d)
    ensures Dead(Arrive(e, w, call), d)
  {
    ArriveKeeps(e, w, call);
  }

  lemma LookupRefusesDead(e: Env, w: World, t: TokenId, d: TokenId)
    requires WellFormed(w) && Dead(Arrive(e, w, Lookup(t)), d)
    ensures var (w', r) := LookupSelf(e, w, t);
      WellFormed(w') && Dead(w', d) && (t == d ==> r.LookupFailed?)
  {
    LookupKeeps(e, w, t);
    LookupMeaning(e, w, t);
  }

  lemma RenewKeepsDead(e: Env, w: World, t: TokenId, increment: int, d: TokenId)
    requires WellFormed(w) && Dead(w, d)
    ensures var w' := RenewSelf(e, w, t, increment).0; WellFormed(w') && Dead(w', d)
  {
    RenewMeaning(e, w, t, increment);
    hide RenewSelf;
  }

  /** The token is dead when the lookup of the tick that starts here arrives at Vault. */
  predicate DeadAtLookup(e: Env, s: State, d: TokenId) {
    Dead(Arrive(e, s.w, Lookup(s.c.apiToken)), d)
  }

  /** A token that a tick finds dead stays dead and is not the one that the tick confirms. */
  lemma TickKeepsDead(e: Env, s: State, d: TokenId)
    requires SingleAuth(s.c) && WellFormed(s.w) && DeadAtLookup(e, s, d)
    ensures var (s', r) := Tick(e, s);
      && SingleAuth(s'.c) && WellFormed(s'.w) && Dead(s'.w, d) && r.verified != Some(d)
      && (r.verified.None? <==> Failed(r))
      && (r.verified.Some? ==> r.verified.value == s.c.apiToken || r.verified.value == s'.c.apiToken)
  {
    LookupRefusesDead(e, s.w, s.c.apiToken, d);
    var (w1, reply) := LookupSelf(e, s.w, s.c.apiToken);
    var s1 := s.(w := w1);
    hide LookupSelf, Relogin, RenewSelf;
    if reply.LookupFailed? {
      if IsAuthError(reply.error) {
        ReloginMeaning(e, s1);
        ReloginKeepsDead(e, s1, d);
        var s2 := Relogin(e, s1).0;
        ArriveKeepsDead(e, s2.w, Lookup(s2.c.apiToken), d);
        LookupRefusesDead(e, s2.w, s2.c.apiToken, d);
      }
    } else if Numbers(reply).Some? {
      var s2 := s1.(m := s1.m.(expiry := Some(Numbers(reply).value.1)));
      RenewKeepsDead(e, s2.w, s2.c.apiToken, s2.c.renewalSeconds, d);
      var s3 := s2.(w := RenewSelf(e, s2.w, s2.c.apiToken, s2.c.renewalSeconds).0);
      ReloginMeaning(e, s3);
      ReloginKeepsDead(e, s3, d);
    }
  }

  lemma {:induction false} RunStaysReady(e: Env, s: State, n: nat)
    requires Ready(s)
    ensures Ready(Run(e, s, n).0)
  {
    hide Tick;
    if n > 0 {
      RunStaysReady(e, s, n - 1);
      TickMeaning(e, Run(e, s, n - 1).0);
    }
  }

  /** The next tick finds it dead again. */
  lemma NextTickFindsDead(e: Env, s: State, d: TokenId)
    requires SingleAuth(s.c) && WellFormed(s.w) && DeadAtLookup(e, s, d)
    ensures var s' := Tick(e, s).0; SingleAuth(s'.c) && WellFormed(s'.w) && DeadAtLookup(e, s', d)
  {
    hide Tick;
    TickKeepsDead(e, s, d);
    var s' := Tick(e, s).0;
    ArriveKeepsDead(e, s'.w, Lookup(s'.c.apiToken), d);
  }

  /** And so do all later ones. */
  lemma {:induction false} RunKeepsDead(e: Env, s: State, j: nat, m: nat, d: TokenId)
    requires s.c.auth.Some? && var s1 := Run(e, s, j).0; SingleAuth(s1.c) && WellFormed(s1.w) && DeadAtLookup(e, s1, d)
    ensures var s' := Run(e, s, j + m).0; SingleAuth(s'.c) && WellFormed(s'.w) && DeadAtLookup(e, s', d)
    decreases m
  {
    hide Run, Tick, WellFormed, DeadAtLookup, SingleAuth;
    if m > 0 {
      RunKeepsDead(e, s, j, m - 1, d);
      NextTickFindsDead(e, Run(e, s, j + m - 1).0, d);
      RunSnoc(e, s, j + m - 1);
    }
  }

  lemma {:induction false} TicksTakeTime(start: int, rs: seq<Report>, b: Bounds, j: nat, i: nat)
    requires Paced(start, rs, b) && j <= i < |rs|
    ensures rs[i].at <= LastAt(start, rs[..j]) + (i - j + 1) * b.interval
    ensures rs[i].end <= LastAt(start, rs[..j]) + (i - j + 1) * b.interval + b.slack
  {
    assert LastAt(start, rs[..i]) == if i == 0 then start else rs[i - 1].at;
    if i > j {
      TicksTakeTime(start, rs, b, j, i - 1);
      assert (i - j + 1) * b.interval == (i - j) * b.interval + b.interval;
    }
  }

  /** The first element that does not satisfy p comes after at most as many as satisfy it in all. */
  lemma {:induction false} FirstOther<T>(s: seq<T>, p: T -> bool) returns (i: nat)
    requires Count(s, p) < |s|
    ensures i < |s| && i <= Count(s, p) && !p(s[i]) && forall j :: 0 <= j < i ==> p(s[j])
  {
    var init := s[..|s| - 1];
    if Count(init, p) < |init| {
      i := FirstOther(init, p);
    } else {
      CountIsFull(init, p);
      i := |init|;
    }
  }

  lemma {:induction false} CountIsFull<T>(s: seq<T>, p: T -> bool)
    ensures Count(s, p) <= |s|
    ensures Count(s, p) >= |s| ==> forall j :: 0 <= j < |s| ==> p(s[j])
  {
    if s != [] {
      CountIsFull(s[..|s| - 1], p);
    }
  }

  lemma ReportAt(e: Env, s: State, n: nat, i: nat)
    requires s.c.auth.Some? && i < n
    ensures Run(e, s, n).1[i] == Tick(e, Run(e, s, i).0).1
    ensures Run(e, s, i + 1).0 == Tick(e, Run(e, s, i).0).0
  {
    RunPrefix(e, s, n, i + 1);
    assert Run(e, s, n).1[i] == Run(e, s, n).1[..i + 1][i];
    hide Tick;
    var (s1, done) := Run(e, s, i);
    assert Run(e, s, i + 1).1 == done + [Tick(e, s1).1];
  }

  /** What a tick at or after the one that finds the token dead reports. */
  lemma ReportAfterDeath(e: Env, s: State, j: nat, i: nat, n: nat, d: TokenId)
    requires Ready(s) && DeadAtLookup(e, Run(e, s, j).0, d) && j <= i < n
    ensures var r := Run(e, s, n).1[i];
      && r.verified != Some(d) && (r.verified.None? <==> Failed(r))
      && (r.verified.Some? ==>
            r.verified.value in {Run(e, s, i).0.c.apiToken, Run(e, s, i + 1).0.c.apiToken})
  {
    hide Tick, Dead, WellFormed, DeadAtLookup;
    RunStaysReady(e, s, j);
    RunKeepsDead(e, s, j, i - j, d);
    TickKeepsDead(e, Run(e, s, i).0, d);
    ReportAt(e, s, n, i);
    hide Run, Ready, Failed;
  }

  /** Where fewer ticks fail than there are from tick j on, one that does not fail comes soon. */
  lemma FirstGoodTick(start: int, rs: seq<Report>, b: Bounds, j: nat) returns (i: nat)
    requires Paced(start, rs, b) && j <= |rs| && Count(rs[j..], Failed) < |rs| - j
    ensures var f := Count(rs[j..], Failed);
      && j <= i < |rs| && i <= j + f && !Failed(rs[i])
      && rs[i].end <= LastAt(start, rs[..j]) + (f + 1) * b.interval + b.slack
  {
    var m := FirstOther(rs[j..], Failed);
    i := j + m;
    assert rs[j..][m] == rs[i];
    TicksTakeTime(start, rs, b, j, i);
    TimesMultiply(m + 1, Count(rs[j..], Failed) + 1, b.interval);
    hide Paced, Count, Failed;
  }

  /** The token in use is revoked or expires at any moment of a run, and tick j is the first to look it up
      since: if f < n of the n ticks from there fail, then tick j + f or an earlier one confirms a token, a
      different one that is installed then. It has ended at most f + 1 intervals, and the time one tick
      takes, after tick j - 1, which looked the token up before. */
  lemma RecoveryIsBounded(e: Env, s: State, j: nat, n: nat, b: Bounds) returns (i: nat)
    requires Ready(s) && DeadAtLookup(e, Run(e, s, j).0, Run(e, s, j).0.c.apiToken)
    requires Paced(s.w.now, Run(e, s, j + n).1, b)
    requires Count(Run(e, s, j + n).1[j..], Failed) < n
    ensures var rs, dead := Run(e, s, j + n).1, Run(e, s, j).0.c.apiToken;
      var f := Count(rs[j..], Failed);
      && j <= i < j + n && i <= j + f && rs[i].verified.Some? && rs[i].verified.value != dead
      && rs[i].verified.value in {Run(e, s, i).0.c.apiToken, Run(e, s, i + 1).0.c.apiToken}
      && rs[i].end <= LastAt(s.w.now, rs[..j]) + (f + 1) * b.interval + b.slack
  {
    hide Run, Tick, DeadAtLookup, Paced, Count, Failed, WellFormed, LastAt;
    i := FirstGoodTick(s.w.now, Run(e, s, j + n).1, b, j);
    ReportAfterDeath(e, s, j, i, j + n, Run(e, s, j).0.c.apiToken);
  }

  /** The token is revoked after the first lookup; otherwise every call is served at once. */
  function RevokedLater(): Env {
    Env((i: nat) => Turn(if i == 1 then [Revoke(Given("t"))] else [], None, false, 60, 60, false, Proper, Proper),
        _ => true, _ => None, "", false)
  }

  /** An AppRole client with more than half of its token's lifetime left. */
  function Rested(): State {
    State(
      World(0, map[Given("t") := TokenVault.Lease(60, 50, false)], 0, [], map[], map[], []),
      C.Blank(RevokedLater(), "", Given("t")).(auth := Some(C.AppRole("approle", "role", "secret"))),
      Metrics(None, 0))
  }

  lemma RestedTick()
    ensures var (s1, r) := Tick(RevokedLater(), Rested());
      && r.outcome == Skipped && r.at == r.end == 0 && s1.w.now == 0 && |s1.w.calls| == 1
      && s1.c == Rested().c && s1.w.tokens == Rested().w.tokens && s1.w.issued == 0
  {
  }

  lemma RevokedTick(s1: State)
    requires s1.w.now == 0 && |s1.w.calls| == 1
    requires s1.c == Rested().c && s1.w.tokens == Rested().w.tokens && s1.w.issued == 0
    ensures DeadAtLookup(RevokedLater(), s1, Given("t"))
    ensures var (_, r) := Tick(RevokedLater(), s1); r.outcome == Reauthenticated && r.at == r.end == 0
  {
    var e := RevokedLater();
    OneStep(s1.w, Revoke(Given("t")));
    var w1 := LookupSelf(e, s1.w, Given("t")).0;
    var call := Login("", "", "approle", RoleSecret("role", "secret"));
    var w2 := LoginCall(e, w1, call).0;
    assert Relogin(e, s1.(w := w1)).0.w == w2 && IsAlive(w2, Issued(0));
  }

  /** The case above arises, within any bounds. */
  lemma RecoveryHappens(b: Bounds)
    ensures var e, s := RevokedLater(), Rested();
      var s1, rs := Run(e, s, 1).0, Run(e, s, 2).1;
      && Ready(s) && DeadAtLookup(e, s1, s1.c.apiToken)
      && Paced(s.w.now, rs, b) && Count(rs[1..], Failed) == 0
  {
    var e, s := RevokedLater(), Rested();
    RestedTick();
    var (s1, r1) := Tick(e, s);
    RevokedTick(s1);
    var (s2, r2) := Tick(e, s1);
    assert Ready(s) && s.c.auth.Some? && s.w.now == 0 && s1.c.apiToken == Given("t");
    assert Run(e, s, 0) == (s, []);
    hide Tick, RevokedLater, Rested, Ready, DeadAtLookup;
    RunSnoc(e, s, 0);
    RunSnoc(e, s, 1);
    assert [] + [r1] == [r1] && [r1] + [r2] == [r1, r2];
    assert [r1, r2][..0] == [] && [r1, r2][..1] == [r1] && [r1, r2][1..] == [r2];
  }

  lemma TokenAuthKeepsToken(e: Env, s: State)
    requires SingleAuth(s.c) && !LoginBased(s.c)
    ensures var c := Tick(e, s).0.c; SingleAuth(c) && !LoginBased(c) && c.apiToken == s.c.apiToken
  {
    var (w1, reply) := LookupSelf(e, s.w, s.c.apiToken);
    var s1 := s.(w := w1);
    ReloginMeaning(e, s1);
    if reply.LookedUp? && Numbers(reply).Some? {
      var s2 := s1.(m := s1.m.(expiry := Some(Numbers(reply).value.1)));
      ReloginMeaning(e, s2.(w := RenewSelf(e, s2.w, s2.c.apiToken, s2.c.renewalSeconds).0));
    }
    hide LookupSelf, RenewSelf, Relogin;
  }

  lemma {:induction false} TokenAuthStays(e: Env, s: State, n: nat)
    requires SingleAuth(s.c) && !LoginBased(s.c)
    ensures var c := Run(e, s, n).0.c; SingleAuth(c) && !LoginBased(c) && c.apiToken == s.c.apiToken
  {
    hide Tick;
    if n > 0 {
      TokenAuthStays(e, s, n - 1);
      TokenAuthKeepsToken(e, Run(e, s, n - 1).0);
    }
  }

  /** Token auth cannot recover: from the first tick on that finds its token dead, every tick of every run
      fails, and the token stays in use. */
  lemma TokenAuthNeverRecovers(e: Env, s: State, j: nat, n: nat)
    requires Ready(s) && !LoginBased(s.c) && DeadAtLookup(e, Run(e, s, j).0, s.c.apiToken)
    ensures forall i :: j <= i < n ==> Failed(Run(e, s, n).1[i])
    ensures Run(e, s, n).0.c.apiToken == s.c.apiToken
  {
    TokenAuthStays(e, s, n);
    var rs := Run(e, s, n).1;
    forall i | j <= i < n ensures Failed(rs[i]) {
      ReportAfterDeath(e, s, j, i, n, s.c.apiToken);
      TokenAuthStays(e, s, i);
      TokenAuthStays(e, s, i + 1);
      hide Run, DeadAtLookup, Ready, Failed;
    }
  }

  // ----- what the metrics mean

  lemma ArriveCounts(e: Env, w: World, call: Call, p: Call -> bool)
    ensures Count(Arrive(e, w, call).calls, p) == Count(w.calls, p) + if p(call) then 1 else 0
  {
    ArriveKeeps(e, w, call);
    assert (w.calls + [call])[..|w.calls|] == w.calls;
  }

  /** No login sends a renewal request. */
  lemma ReloginRenewsNothing(e: Env, s: State, p: Call -> bool)
    requires SingleAuth(s.c) && forall x :: p(x) ==> x.Renew?
    ensures Count(Relogin(e, s).0.w.calls, p) == Count(s.w.calls, p)
  {
    var o := s.c.auth.value;
    if LoginBased(s.c) {
      LoginOutcome(e, o, s.c, s.w);
      AskRenewsNothing(e, o, s.c, s.w, p);
      var t := LoginAttempt(e, o, s.c, s.w);
      hide C.Apply, LoginAttempt;
      if t.Some? {
        ArriveCounts(e, t.value.0, t.value.1, p);
        assert LoginCall(e, t.value.0, t.value.1).0.calls == Arrive(e, t.value.0, t.value.1).calls;
        hide LoginCall;
      }
    }
  }

  lemma AskRenewsNothing(e: Env, o: C.ClientOption, c: C.State, w: World, p: Call -> bool)
    requires C.IsLogin(o) && forall x :: p(x) ==> x.Renew?
    ensures var t, a := LoginAttempt(e, o, c, w), C.Apply(e, o, c, w);
      && Count((if t.Some? then t.value.0 else a.w).calls, p) == Count(w.calls, p)
      && (t.Some? ==> t.value.1.Login?)
  {
    match o
    case Cert(mount, role, certFile, keyFile, caFile) => ArriveCounts(e, w, ConfigureTls(certFile, keyFile, caFile), p);
    case JwtLogin(mount, role, source) => ArriveCounts(e, w, AskOf(source), p);
    case SpiffeAuth(mount, role, endpoint, audience, text) =>
      var subject := e.parseSubject(text);
      if subject.Some? {
        ArriveCounts(e, w, AskOf(C.Spiffe(endpoint, audience, subject.value)), p);
      }
    case _ =>
  }

  /** A tick sends one renewal request, for the configured seconds, or none, and counts what it sends. */
  lemma TickCountsRenewals(e: Env, s: State, p: Call -> bool)
    requires SingleAuth(s.c)
    requires (forall x :: p(x) ==> x.Renew?) && forall t :: p(Renew(t, s.c.renewalSeconds))
    ensures var s' := Tick(e, s).0;
      s'.m.renewals - s.m.renewals == Count(s'.w.calls, p) - Count(s.w.calls, p)
  {
    var t := s.c.apiToken;
    ArriveCounts(e, s.w, Lookup(t), p);
    var (w1, reply) := LookupSelf(e, s.w, t);
    assert Count(w1.calls, p) == Count(s.w.calls, p);
    hide LookupSelf, Count, Relogin;
    var s1 := s.(w := w1);
    if reply.LookupFailed? {
      ReloginRenewsNothing(e, s1, p);
      var s2 := Relogin(e, s1).0;
      LookupCountsNothing(e, s2.w, s2.c.apiToken, p);
      ReloginKeepsMetrics(e, s1);
    } else if Numbers(reply).Some? {
      var s2 := s1.(m := s1.m.(expiry := Some(Numbers(reply).value.1)));
      var request := Renew(t, s.c.renewalSeconds);
      ArriveCounts(e, s2.w, request, p);
      var w3 := RenewSelf(e, s2.w, t, s2.c.renewalSeconds).0;
      assert w3.calls == Arrive(e, s2.w, request).calls;
      ReloginRenewsNothing(e, s2.(w := w3), p);
      ReloginKeepsMetrics(e, s2.(w := w3));
      hide RenewSelf;
    }
  }

  lemma LookupCountsNothing(e: Env, w: World, t: TokenId, p: Call -> bool)
    requires forall x :: p(x) ==> x.Renew?
    ensures Count(LookupSelf(e, w, t).0.calls, p) == Count(w.calls, p)
  {
    ArriveCounts(e, w, Lookup(t), p);
  }

  lemma ReloginKeepsMetrics(e: Env, s: State)
    requires SingleAuth(s.c)
    ensures Relogin(e, s).0.m == s.m && Relogin(e, s).0.c.renewalSeconds == s.c.renewalSeconds
  {
    hide LoginCall, LocalCall, C.SourceToken;
  }

  // ----- what a run leaves alone

  /** The client remembers the parameters of its captured login. */
  predicate Carries(c: C.State) {
    c.auth.Some? && Remember(c.auth.value, c.fields) == c.fields
  }

  /** The client with the token that was delivered last, if one was since. */
  function WithLatest(c: C.State, before: World, after: World): C.State {
    var n := |after.delivered|;
    c.(apiToken := if n > |before.delivered| then after.delivered[n - 1] else c.apiToken)
  }

  lemma ReloginFrame(e: Env, s: State)
    requires SingleAuth(s.c) && Carries(s.c)
    ensures var s' := Relogin(e, s).0; s.w.delivered <= s'.w.delivered && s'.c == WithLatest(s.c, s.w, s'.w)
  {
    ReloginMeaning(e, s);
    ReloginKeepsAuth(e, s);
    AuthOutcome(e, s.c.auth.value, s.c, s.w);
    hide C.Apply;
  }

  /** What a step may do to the client. */
  predicate Framed(s: State, s': State) {
    s.w.delivered <= s'.w.delivered && s'.c == WithLatest(s.c, s.w, s'.w) && SingleAuth(s'.c) && Carries(s'.c)
  }

  lemma ReauthenticateFrame(e: Env, s: State)
    requires SingleAuth(s.c) && Carries(s.c)
    ensures Framed(s, Reauthenticate(e, s).0)
  {
    ReloginFrame(e, s);
    ReloginMeaning(e, s);
    var s1 := Relogin(e, s).0;
    LookupKeeps(e, s1.w, s1.c.apiToken);
    hide LookupSelf, Relogin, Remember;
  }

  lemma RenewOrLoginFrame(e: Env, s: State)
    requires SingleAuth(s.c) && Carries(s.c)
    ensures Framed(s, RenewOrLogin(e, s).0)
  {
    RenewMeaning(e, s.w, s.c.apiToken, s.c.renewalSeconds);
    var s1 := s.(w := RenewSelf(e, s.w, s.c.apiToken, s.c.renewalSeconds).0);
    ReloginFrame(e, s1);
    ReloginMeaning(e, s1);
    hide RenewSelf, Relogin, Remember;
  }

  lemma FramedFrom(s: State, w1: World, m1: Metrics, s': State)
    requires w1.delivered == s.w.delivered && Framed(State(w1, s.c, m1), s')
    ensures Framed(s, s')
  {
  }

  lemma FramedTwice(s: State, s1: State, s2: State)
    requires Framed(s, s1) && Framed(s1, s2)
    ensures Framed(s, s2)
  {
    hide SingleAuth, Carries;
  }

  lemma TickFrame(e: Env, s: State)
    requires SingleAuth(s.c) && Carries(s.c)
    ensures Framed(s, Tick(e, s).0)
  {
    LookupKeeps(e, s.w, s.c.apiToken);
    var (w1, reply) := LookupSelf(e, s.w, s.c.apiToken);
    var s1 := s.(w := w1);
    assert Framed(s, s1);
    ReauthenticateFrame(e, s1);
    FramedFrom(s, w1, s.m, Reauthenticate(e, s1).0);
    if reply.LookedUp? && Numbers(reply).Some? {
      var m2 := s1.m.(expiry := Some(Numbers(reply).value.1));
      assert Framed(s, s1.(m := m2));
      RenewOrLoginFrame(e, s1.(m := m2));
      FramedFrom(s, w1, m2, RenewOrLogin(e, s1.(m := m2)).0);
    }
    hide LookupSelf, RenewOrLogin, Reauthenticate, Framed, SingleAuth, Carries;
  }

  /** No number of ticks changes anything in the client but its token, and that is the initial one or the
      one delivered to the most recent login that succeeded; a login that fails, at its source or at
      Vault, leaves it as it is, even if Vault issued a token and only the answer was lost. */
  lemma {:induction false} RunFrame(e: Env, s: State, n: nat)
    requires SingleAuth(s.c) && Carries(s.c)
    ensures Framed(s, Run(e, s, n).0)
  {
    hide Tick, Carries;
    if n > 0 {
      RunFrame(e, s, n - 1);
      TickFrame(e, Run(e, s, n - 1).0);
      FramedTwice(s, Run(e, s, n - 1).0, Run(e, s, n).0);
    }
  }

  /** Over any run, the renewal counter grows by exactly the number of renewal requests that reached
      Vault, and each of them asks for the configured number of seconds. */
  lemma {:induction false} RenewalsAreCounted(e: Env, s: State, n: nat, p: Call -> bool)
    requires SingleAuth(s.c) && Carries(s.c)
    requires (forall x :: p(x) ==> x.Renew?) && forall t :: p(Renew(t, s.c.renewalSeconds))
    ensures var s' := Run(e, s, n).0;
      s'.m.renewals - s.m.renewals == Count(s'.w.calls, p) - Count(s.w.calls, p)
  {
    hide Tick, Carries, Count;
    if n > 0 {
      RenewalsAreCounted(e, s, n - 1, p);
      RunFrame(e, s, n - 1);
      TickCountsRenewals(e, Run(e, s, n - 1).0, p);
    }
  }

  /** The remaining time in the last report that holds numbers. */
  function LastSeen(initial: Option<int>, rs: seq<Report>): Option<int> {
    if rs == [] then initial
    else if rs[|rs| - 1].seen.Some? then Some(rs[|rs| - 1].seen.value.1)
    else LastSeen(initial, rs[..|rs| - 1])
  }

  predicate FoundLessThanHalf(r: Report) {
    r.seen.Some? && 2 * r.seen.value.1 < r.seen.value.0
  }

  /** The numbers of every report are those of the token in use at that moment. */
  lemma ReportsAreTrue(e: Env, s: State, n: nat, i: nat)
    requires Ready(s) && i < n
    ensures var before, r := Run(e, s, i).0, Run(e, s, n).1[i];
      && before.c.apiToken in before.w.tokens
      && var l := before.w.tokens[before.c.apiToken];
         r.seen.Some? ==> r.seen.value == (l.creation, Ttl(l, r.at))
  {
    hide Tick;
    RunStaysReady(e, s, i);
    ReportAt(e, s, n, i);
    TickMeaning(e, Run(e, s, i).0);
  }

  lemma AccountsGrow(initial: Option<int>, rs: seq<Report>, r: Report)
    ensures LastSeen(initial, rs + [r]) == if r.seen.Some? then Some(r.seen.value.1) else LastSeen(initial, rs)
    ensures Count(rs + [r], FoundLessThanHalf) == Count(rs, FoundLessThanHalf) + if FoundLessThanHalf(r) then 1 else 0
  {
    assert (rs + [r])[..|rs|] == rs;
  }

  /** Over any run, the gauge shows the remaining time that the last well-formed answer to a tick held,
      and the counter grows by one for exactly the ticks that found less than half of the lifetime left,
      whatever became of the renewal. */
  lemma {:induction false} AccountsAreTrue(e: Env, s: State, n: nat)
    requires Ready(s)
    ensures var (s', rs) := Run(e, s, n);
      s'.m == Metrics(LastSeen(s.m.expiry, rs), s.m.renewals + Count(rs, FoundLessThanHalf))
  {
    hide Tick;
    if n > 0 {
      AccountsAreTrue(e, s, n - 1);
      RunStaysReady(e, s, n - 1);
      var (s1, rs) := Run(e, s, n - 1);
      TickMeaning(e, s1);
      AccountsGrow(s.m.expiry, rs, Tick(e, s1).1);
      hide Count, LastSeen;
    }
  }

  /** A token that never expires is reported with lifetime 0 and is never renewed. */
  lemma NonExpiringTokenIsNotRenewed(e: Env, s: State)
    requires Ready(s) && s.w.tokens[s.c.apiToken].creation == 0
    ensures !TriesRenewal(Tick(e, s).1.outcome) && Tick(e, s).0.m.renewals == s.m.renewals
  {
    TickMeaning(e, s);
    hide Tick;
  }
}
