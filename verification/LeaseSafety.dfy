/** Over any run of the refresher the token never lapses, under an arithmetic bound that is exact. */
module LeaseSafety {
  import opened Prelude
  import opened TokenVault
  import C = Client
  import opened Lease
  import opened TickFacts

  /** The least lifetime of any token and the least time a renewal grants; the greatest distance of two
      ticks, the longest a tick takes, and how many ticks in a row may leave the token unrefreshed. */
  datatype Bounds = Bounds(creation: nat, grant: nat, interval: nat, slack: nat, badTicks: nat)

  /** The longest a token has to hold between two refreshing ticks. */
  function Horizon(b: Bounds): nat {
    (b.badTicks + 1) * b.interval + b.slack
  }

  predicate Safe(b: Bounds) {
    2 * Horizon(b) < b.creation && Horizon(b) < b.grant
  }

  /** The installed token is still valid at time t, as far as expiry goes. */
  predicate Unexpired(s: State, t: int) {
    s.c.apiToken in s.w.tokens
    && (s.w.tokens[s.c.apiToken].creation == 0 || t < s.w.tokens[s.c.apiToken].expiry)
  }

  /** A tick is good if it found enough time left, renewed, or installed a newly issued token. For token
      auth a failed renewal is bad, because the new login installs the same token. */
  predicate Good(c: C.State, r: Report) {
    r.outcome.Skipped? || r.outcome.Renewed? || Refreshed(c, r.outcome)
  }

  function TrailingBad(c: C.State, rs: seq<Report>): nat {
    if rs == [] || Good(c, rs[|rs| - 1]) then 0 else 1 + TrailingBad(c, rs[..|rs| - 1])
  }

  function LastAt(start: int, rs: seq<Report>): int {
    if rs == [] then start else rs[|rs| - 1].at
  }

  function LastGood(c: C.State, start: int, rs: seq<Report>): int {
    if rs == [] then start
    else if Good(c, rs[|rs| - 1]) then rs[|rs| - 1].at
    else LastGood(c, start, rs[..|rs| - 1])
  }

  /** Ticks come on time, and do not take long. */
  ghost predicate Paced(start: int, rs: seq<Report>, b: Bounds) {
    forall i :: 0 <= i < |rs| ==>
      rs[i].at - LastAt(start, rs[..i]) <= b.interval && rs[i].end - rs[i].at <= b.slack
  }

  ghost predicate GrantsEnough(e: Env, b: Bounds) {
    forall i: nat :: (e.turn(i).lease == 0 || e.turn(i).lease >= b.creation) && e.turn(i).grant >= b.grant
  }

  /** At the start, at least half of the least lifetime, or a renewal's worth, is left. */
  predicate StartsFresh(s: State, b: Bounds) {
    s.c.apiToken in s.w.tokens
    && var l := s.w.tokens[s.c.apiToken];
       l.creation == 0
       || (l.creation >= b.creation && (2 * (l.expiry - s.w.now) >= b.creation || l.expiry - s.w.now >= b.grant))
  }

  /** The assumptions on a run of n ticks. Revocations and lost answers are not excluded. */
  ghost predicate Admissible(e: Env, s: State, n: nat, b: Bounds) {
    && Ready(s) && StartsFresh(s, b) && GrantsEnough(e, b)
    && Paced(s.w.now, Run(e, s, n).1, b)
    && forall i :: 0 <= i <= n ==> TrailingBad(s.c, Run(e, s, n).1[..i]) <= b.badTicks
  }

  /** At no moment of the run is the token in use expired: not from the end of one tick to the end of the
      next, and not when a tick leaves a different token or lease behind. */
  ghost predicate HoldsThroughout(e: Env, s: State, n: nat)
    requires s.c.auth.Some?
  {
    forall i :: 0 <= i < n ==>
      var end := Run(e, s, n).1[i].end;
      Unexpired(Run(e, s, i).0, end) && Unexpired(Run(e, s, i + 1).0, end)
  }

  /** Nor does it expire after the last tick until the next one that comes on time has ended. */
  ghost predicate NeverLapses(e: Env, s: State, n: nat, b: Bounds)
    requires s.c.auth.Some?
  {
    && HoldsThroughout(e, s, n)
    && Unexpired(Run(e, s, n).0, LastAt(s.w.now, Run(e, s, n).1) + b.interval + b.slack)
  }

  lemma {:induction false} RunPrefix(e: Env, s: State, n: nat, i: nat)
    requires s.c.auth.Some? && i <= n
    ensures Run(e, s, n).1[..i] == Run(e, s, i).1
    decreases n
  {
    hide Tick;
    if i < n {
      RunPrefix(e, s, n - 1, i);
      assert Run(e, s, n).1[..n - 1] == Run(e, s, n - 1).1;
      assert Run(e, s, n).1[..i] == Run(e, s, n).1[..n - 1][..i];
    }
  }

  /** What every tick keeps: the lease reaches beyond the last good tick by the whole horizon. */
  ghost predicate Guarded(s0: State, s: State, rs: seq<Report>, b: Bounds) {
    && Ready(s) && LoginBased(s.c) == LoginBased(s0.c)
    && var l := s.w.tokens[s.c.apiToken];
       l.creation == 0 || (l.creation >= b.creation && l.expiry > LastGood(s0.c, s0.w.now, rs) + Horizon(b))
  }

  lemma TimesMultiply(m: nat, k: nat, x: nat)
    requires m <= k
    ensures m * x <= k * x
  {
  }

  /** The last tick lies at most one interval per bad tick behind the last good one. */
  lemma {:induction false} BadTicksTakeTime(c: C.State, start: int, rs: seq<Report>, b: Bounds)
    requires Paced(start, rs, b)
    ensures LastAt(start, rs) <= LastGood(c, start, rs) + TrailingBad(c, rs) * b.interval
  {
    if rs != [] && !Good(c, rs[|rs| - 1]) {
      var init := rs[..|rs| - 1];
      assert forall i :: 0 <= i <= |init| ==> init[..i] == rs[..i];
      BadTicksTakeTime(c, start, init, b);
      assert (TrailingBad(c, init) + 1) * b.interval == TrailingBad(c, init) * b.interval + b.interval;
    }
  }

  /** A tick that comes on time ends before the lease does. */
  lemma OnTimeTickIsCovered(s0: State, s: State, rs: seq<Report>, b: Bounds)
    requires Guarded(s0, s, rs, b) && Paced(s0.w.now, rs, b) && TrailingBad(s0.c, rs) <= b.badTicks
    ensures Unexpired(s, LastAt(s0.w.now, rs) + b.interval + b.slack)
  {
    BadTicksTakeTime(s0.c, s0.w.now, rs, b);
    TimesMultiply(TrailingBad(s0.c, rs), b.badTicks, b.interval);
    assert (b.badTicks + 1) * b.interval == b.badTicks * b.interval + b.interval;
  }

  lemma TickGuards(e: Env, s0: State, s: State, rs: seq<Report>, b: Bounds)
    requires Safe(b) && GrantsEnough(e, b) && Guarded(s0, s, rs, b)
    requires LastGood(s0.c, s0.w.now, rs) <= s.w.now
    ensures var (s', r) := Tick(e, s);
      Guarded(s0, s', rs + [r], b) && LastGood(s0.c, s0.w.now, rs + [r]) <= s'.w.now
  {
    TickMeaning(e, s);
    var (s', r) := Tick(e, s);
    hide Tick;
    assert (rs + [r])[..|rs|] == rs;
    assert Good(s0.c, r) == Good(s.c, r);
  }

  lemma {:induction false} RunGuards(e: Env, s: State, n: nat, b: Bounds)
    requires Safe(b) && Ready(s) && StartsFresh(s, b) && GrantsEnough(e, b)
    ensures var (s', rs) := Run(e, s, n); Guarded(s, s', rs, b) && LastGood(s.c, s.w.now, rs) <= s'.w.now
  {
    hide Tick;
    if n > 0 {
      RunGuards(e, s, n - 1, b);
      var (s1, rs) := Run(e, s, n - 1);
      TickGuards(e, s, s1, rs, b);
    }
  }

  lemma PacedPrefix(start: int, rs: seq<Report>, b: Bounds, i: nat)
    requires Paced(start, rs, b) && i <= |rs|
    ensures Paced(start, rs[..i], b)
  {
    assert forall j :: 0 <= j <= i ==> rs[..i][..j] == rs[..j];
  }

  /** After any number of ticks the lease reaches behind the end of the next tick that is on time. */
  lemma CoveredAfter(e: Env, s: State, n: nat, b: Bounds, i: nat)
    requires Safe(b) && Admissible(e, s, n, b) && i <= n
    ensures Unexpired(Run(e, s, i).0, LastAt(s.w.now, Run(e, s, n).1[..i]) + b.interval + b.slack)
  {
    hide Tick, Safe, Horizon, Guarded, Unexpired, Paced, Run;
    var rs := Run(e, s, n).1;
    RunGuards(e, s, i, b);
    RunPrefix(e, s, n, i);
    PacedPrefix(s.w.now, rs, b, i);
    OnTimeTickIsCovered(s, Run(e, s, i).0, rs[..i], b);
  }

  /** Under the bound, no admissible run of any length ever lapses. */
  lemma SafeRunsNeverLapse(e: Env, s: State, n: nat, b: Bounds)
    requires Safe(b) && Admissible(e, s, n, b)
    ensures NeverLapses(e, s, n, b)
  {
    hide Tick, Safe, Horizon, StartsFresh, GrantsEnough, Run, TrailingBad;
    var rs := Run(e, s, n).1;
    forall i | 0 <= i < n
      ensures Unexpired(Run(e, s, i).0, rs[i].end) && Unexpired(Run(e, s, i + 1).0, rs[i].end)
    {
      CoveredAfter(e, s, n, b, i);
      CoveredAfter(e, s, n, b, i + 1);
      assert rs[i].at - LastAt(s.w.now, rs[..i]) <= b.interval && rs[i].end - rs[i].at <= b.slack;
      assert LastAt(s.w.now, rs[..i + 1]) == rs[i].at;
    }
    CoveredAfter(e, s, n, b, n);
    assert rs[..n] == rs;
  }

  // ----- the bound cannot be weakened

  /** As many lookups fail as may, as far apart as may be. Nothing fails afterwards, but the last tick
      takes as long as it may. */
  function Late(b: Bounds): Env {
    Env((i: nat) =>
          Turn(if i <= b.badTicks then [Elapse(b.interval)] else if i == b.badTicks + 1 then [Elapse(b.slack)] else [],
               if i < b.badTicks then Some(Transport("unreachable")) else None,
               false, b.creation, b.grant, false, Proper, Proper),
        _ => true, _ => None, "", false)
  }

  /** The least time that the assumptions ask for at the start, if the bound does not hold. */
  function BareTtl(b: Bounds): nat {
    if 2 * Horizon(b) >= b.creation then (b.creation + 1) / 2 else b.grant
  }

  /** An AppRole client with just that much time left. */
  function BareStart(b: Bounds): State {
    var ttl := BareTtl(b);
    State(
      World(0, map[Given("t") := TokenVault.Lease(b.creation + 2 * ttl + 1, ttl, false)], 0, [], map[], map[], []),
      C.Blank(Late(b), "", Given("t")).(auth := Some(C.AppRole("approle", "role", "secret"))),
      Metrics(None, 0))
  }

  lemma OneStep(w: World, s: EnvStep)
    ensures ActAll(w, [s]) == Act(w, s)
  {
    assert [s][1..] == [];
  }

  lemma BadTick(b: Bounds, s: State)
    requires s.c.auth.Some? && |s.w.calls| < b.badTicks
    ensures var (s', r) := Tick(Late(b), s);
      && s'.w.now == s.w.now + b.interval && s'.w.tokens == s.w.tokens && s'.w.issued == s.w.issued
      && |s'.w.calls| == |s.w.calls| + 1 && s'.c == s.c
      && r == Report(s'.w.now, s'.w.now, LookupError, None, None)
  {
    OneStep(s.w, Elapse(b.interval));
  }

  lemma RunSnoc(e: Env, s: State, n: nat)
    requires s.c.auth.Some?
    ensures var (s1, rs) := Run(e, s, n);
      Run(e, s, n + 1) == (Tick(e, s1).0, rs + [Tick(e, s1).1])
  {
    hide Tick;
  }

  lemma PacedSnoc(start: int, rs: seq<Report>, r: Report, b: Bounds)
    requires Paced(start, rs, b) && r.at - LastAt(start, rs) <= b.interval && r.end - r.at <= b.slack
    ensures Paced(start, rs + [r], b)
  {
    assert forall i :: 0 <= i <= |rs| ==> (rs + [r])[..i] == rs[..i];
  }

  lemma {:induction false} BadRun(b: Bounds, n: nat)
    requires n <= b.badTicks
    ensures var s := BareStart(b);
      var (s', rs) := Run(Late(b), s, n);
      && s'.w.now == n * b.interval && s'.w.tokens == s.w.tokens && s'.w.issued == 0 && |s'.w.calls| == n
      && s'.c == s.c && LastAt(0, rs) == s'.w.now && TrailingBad(s.c, rs) == n
  {
    var s := BareStart(b);
    hide Tick, Late, Horizon;
    if n > 0 {
      BadRun(b, n - 1);
      var (s1, rs) := Run(Late(b), s, n - 1);
      BadTick(b, s1);
      var (s2, r) := Tick(Late(b), s1);
      assert (rs + [r])[..n - 1] == rs;
      assert n * b.interval == (n - 1) * b.interval + b.interval;
    }
  }

  lemma OneMoreIsPaced(b: Bounds, n: nat)
    requires n < b.badTicks && BareStart(b).c.auth.Some? && Paced(0, Run(Late(b), BareStart(b), n).1, b)
    ensures Paced(0, Run(Late(b), BareStart(b), n + 1).1, b)
  {
    hide Tick, Paced, Late, LastAt, TrailingBad, BareStart, Run;
    BadRun(b, n);
    var (s1, rs) := Run(Late(b), BareStart(b), n);
    BadTick(b, s1);
    PacedSnoc(0, rs, Tick(Late(b), s1).1, b);
    RunSnoc(Late(b), BareStart(b), n);
  }

  lemma {:induction false} BadRunIsPaced(b: Bounds, n: nat)
    requires n <= b.badTicks
    ensures Paced(0, Run(Late(b), BareStart(b), n).1, b)
  {
    hide Tick, Late;
    if n > 0 {
      BadRunIsPaced(b, n - 1);
      hide Run, Paced, BareStart;
      OneMoreIsPaced(b, n - 1);
    }
  }

  /** A state in which the last tick starts. */
  predicate Waiting(b: Bounds, s: State) {
    && s.c == BareStart(b).c && s.w.tokens == BareStart(b).w.tokens && s.w.issued == 0 && |s.w.calls| == b.badTicks
    && s.w.now + b.interval + b.slack >= BareTtl(b)
  }

  /** The token expires before its lookup, which is refused; the login takes its time. */
  lemma LastTickFindsDead(b: Bounds, s: State)
    requires Waiting(b, s) && s.w.now + b.interval >= BareTtl(b)
    ensures var (s', r) := Tick(Late(b), s);
      r.at == s.w.now + b.interval && r.end == r.at + b.slack && Refreshed(s.c, r.outcome)
  {
    var e := Late(b);
    OneStep(s.w, Elapse(b.interval));
    var w1 := LookupSelf(e, s.w, Given("t")).0;
    assert |w1.calls| == b.badTicks + 1;
    OneStep(w1, Elapse(b.slack));
    var call := Login("", "", "approle", RoleSecret("role", "secret"));
    var w2 := LoginCall(e, w1, call).0;
    assert |w2.calls| == b.badTicks + 2 && ActAll(w2, []) == w2;
    assert Relogin(e, s.(w := w1)).0.w == w2;
  }

  /** The token is found with less than half of its lifetime left, but expires before its renewal, which
      takes its time, is served; then the client logs in. */
  lemma LastTickFindsAlive(b: Bounds, s: State)
    requires Waiting(b, s) && s.w.now + b.interval < BareTtl(b) && s.w.now >= 0
    ensures var (s', r) := Tick(Late(b), s);
      r.at == s.w.now + b.interval && r.end == r.at + b.slack && Refreshed(s.c, r.outcome)
  {
    var e := Late(b);
    OneStep(s.w, Elapse(b.interval));
    var (w1, reply) := LookupSelf(e, s.w, Given("t"));
    assert |w1.calls| == b.badTicks + 1 && reply.LookedUp?;
    OneStep(w1, Elapse(b.slack));
    var (w2, err) := RenewSelf(e, w1, Given("t"), 0);
    assert err == Some(FORBIDDEN) && |w2.calls| == b.badTicks + 2 && ActAll(w2, []) == w2;
    var m := Metrics(Some(BareTtl(b) - w1.now), s.m.renewals);
    assert Relogin(e, State(w2, s.c, m)).1 && Relogin(e, State(w2, s.c, m)).0.w.now == w2.now;
  }

  lemma LastTick(b: Bounds, s: State)
    requires Waiting(b, s) && s.w.now >= 0
    ensures var (s', r) := Tick(Late(b), s);
      r.at == s.w.now + b.interval && r.end == r.at + b.slack && Refreshed(s.c, r.outcome)
  {
    if s.w.now + b.interval >= BareTtl(b) {
      LastTickFindsDead(b, s);
    } else {
      LastTickFindsAlive(b, s);
    }
  }

  lemma BareTtlIsShort(b: Bounds)
    requires !Safe(b)
    ensures BareTtl(b) <= Horizon(b) == b.badTicks * b.interval + b.interval + b.slack
  {
    assert (b.badTicks + 1) * b.interval == b.badTicks * b.interval + b.interval;
  }

  lemma BareStartIsFresh(b: Bounds)
    ensures var s := BareStart(b);
      Ready(s) && StartsFresh(s, b) && GrantsEnough(Late(b), b) && s.c.auth.Some? && s.w.now == 0
  {
  }

  /** How the run goes: the bad ticks, and then the last one. */
  lemma LateRun(b: Bounds)
    requires !Safe(b)
    ensures var e, s, k := Late(b), BareStart(b), b.badTicks;
      var (s1, r) := (Run(e, s, k).0, Run(e, s, k + 1).1[k]);
      && Run(e, s, k + 1).1 == Run(e, s, k).1 + [r]
      && s1.w.now == k * b.interval && s1.c == s.c && s1.w.tokens == s.w.tokens
      && r.at == s1.w.now + b.interval && r.end == r.at + b.slack && Good(s.c, r)
  {
    var e, s, k := Late(b), BareStart(b), b.badTicks;
    BadRun(b, k);
    BareTtlIsShort(b);
    var s1 := Run(e, s, k).0;
    TimesMultiply(0, k, b.interval);
    LastTick(b, s1);
    RunSnoc(e, s, k);
    hide Tick, Run, Late, BareTtl, Horizon, TrailingBad;
  }

  lemma LateBadTicks(b: Bounds, i: nat)
    requires !Safe(b) && i <= b.badTicks + 1
    ensures TrailingBad(BareStart(b).c, Run(Late(b), BareStart(b), b.badTicks + 1).1[..i]) <= b.badTicks
  {
    var e, s, k := Late(b), BareStart(b), b.badTicks;
    BareStartIsFresh(b);
    hide Tick, Late, BareStart, Safe, Run, Ready, StartsFresh, GrantsEnough;
    RunPrefix(e, s, k + 1, i);
    if i <= k {
      BadRun(b, i);
    } else {
      LateRun(b);
    }
  }

  lemma LateIsAdmissible(b: Bounds)
    requires !Safe(b)
    ensures Admissible(Late(b), BareStart(b), b.badTicks + 1, b)
  {
    var e, s, k := Late(b), BareStart(b), b.badTicks;
    BareStartIsFresh(b);
    hide Tick, Run, Paced, TrailingBad, Late, BareStart, Safe, StartsFresh, GrantsEnough, Ready, Good;
    BadRun(b, k);
    BadRunIsPaced(b, k);
    LateRun(b);
    var rs := Run(e, s, k + 1).1;
    PacedSnoc(0, Run(e, s, k).1, rs[k], b);
    forall i | 0 <= i <= k + 1 ensures TrailingBad(s.c, rs[..i]) <= k {
      LateBadTicks(b, i);
    }
  }

  lemma BareTokenExpires(b: Bounds, s: State, t: int)
    requires s.c == BareStart(b).c && s.w.tokens == BareStart(b).w.tokens && t >= BareTtl(b)
    ensures !Unexpired(s, t)
  {
  }

  /** Without the bound there is an admissible run in which the token in use expires, before the last tick
      of the run has ended. */
  lemma UnsafeBoundsLapse(b: Bounds)
    requires !Safe(b)
    ensures var e, s, k := Late(b), BareStart(b), b.badTicks;
      Admissible(e, s, k + 1, b) && !Unexpired(Run(e, s, k).0, Run(e, s, k + 1).1[k].end)
  {
    LateIsAdmissible(b);
    BareStartIsFresh(b);
    LateRun(b);
    BareTtlIsShort(b);
    hide Tick, Safe, Horizon, Admissible, Unexpired, Late, Run, BareStart, BareTtl;
    var e, s, k := Late(b), BareStart(b), b.badTicks;
    BareTokenExpires(b, Run(e, s, k).0, Run(e, s, k + 1).1[k].end);
  }

  lemma LateDoesNotHold(b: Bounds)
    requires !Safe(b)
    ensures Admissible(Late(b), BareStart(b), b.badTicks + 1, b)
    ensures !HoldsThroughout(Late(b), BareStart(b), b.badTicks + 1)
  {
    UnsafeBoundsLapse(b);
    BareStartIsFresh(b);
    hide Tick, Safe, Admissible, Unexpired, Late, Run, BareStart;
  }

  /** The bound is exactly what is needed: it holds if and only if no admissible run ever lapses, be it
      within its ticks or also until the next one. */
  lemma BoundIsExact(b: Bounds)
    ensures Safe(b) <==> forall e, s, n :: Admissible(e, s, n, b) ==> HoldsThroughout(e, s, n)
    ensures Safe(b) <==> forall e, s, n :: Admissible(e, s, n, b) ==> NeverLapses(e, s, n, b)
  {
    if Safe(b) {
      forall e, s, n | Admissible(e, s, n, b) ensures NeverLapses(e, s, n, b) {
        SafeRunsNeverLapse(e, s, n, b);
      }
    } else {
      LateDoesNotHold(b);
    }
    hide HoldsThroughout, Admissible, Safe, Unexpired, Late, BareStart;
  }
}
