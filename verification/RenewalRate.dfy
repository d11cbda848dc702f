/** How often tokens are renewed: a bound on the rate that holds over all runs, and exactly when the
    bound that counts whole grants holds too. */
module RenewalRate {
  import opened Prelude
  import opened TokenVault
  import C = Client
  import opened Lease
  import opened TickFacts
  import opened LeaseSafety

  predicate IsRenewed(r: Report) {
    r.outcome.Renewed?
  }

  /** q renewals have been made, the last one at time t, and from then on the token holds for m seconds. */
  ghost predicate RateState(start: int, s: State, q: nat, t: int, m: nat, creation: nat) {
    && Ready(s) && s.w.tokens[s.c.apiToken].creation == creation && start <= s.w.now
    && (q > 0 ==>
          && t <= s.w.now && s.w.tokens[s.c.apiToken].expiry >= t + m
          && 2 * (t - start) >= (q - 1) * (2 * m - creation)
          && (q > 1 ==> 2 * (t - start) > (q - 1) * (2 * m - creation)))
  }

  ghost predicate GrantAtLeast(e: Env, grant: nat) {
    forall i: nat :: e.turn(i).grant >= grant
  }

  ghost predicate LeasesAre(e: Env, creation: nat) {
    forall i: nat :: e.turn(i).lease == creation
  }

  lemma TickRate(e: Env, start: int, s: State, q: nat, t: int, m: nat, creation: nat) returns (t': int)
    requires 2 * m > creation > 0 && RateState(start, s, q, t, m, creation) && GrantAtLeast(e, m)
    requires (m <= creation && LeasesAre(e, creation)) || !Refreshed(s.c, Tick(e, s).1.outcome)
    ensures var (s', r) := Tick(e, s);
      RateState(start, s', q + if IsRenewed(r) then 1 else 0, t', m, creation)
  {
    TickMeaning(e, s);
    var (s', r) := Tick(e, s);
    hide Tick;
    t' := t;
    if IsRenewed(r) {
      var i: nat :| r.at <= s'.w.tokens[s'.c.apiToken].expiry - e.turn(i).grant <= r.end;
      t' := s'.w.tokens[s'.c.apiToken].expiry - e.turn(i).grant;
    }
    if q > 0 {
      assert q * (2 * m - creation) == (q - 1) * (2 * m - creation) + (2 * m - creation);
    }
  }

  lemma {:induction false} RunRate(e: Env, s: State, n: nat, m: nat, creation: nat) returns (t: int)
    requires 2 * m > creation > 0 && GrantAtLeast(e, m)
    requires Ready(s) && s.w.tokens[s.c.apiToken].creation == creation
    requires (m <= creation && LeasesAre(e, creation)) || forall r :: r in Run(e, s, n).1 ==> !Refreshed(s.c, r.outcome)
    ensures RateState(s.w.now, Run(e, s, n).0, Count(Run(e, s, n).1, IsRenewed), t, m, creation)
    ensures LoginBased(Run(e, s, n).0.c) == LoginBased(s.c)
  {
    hide Tick, GrantAtLeast, LeasesAre;
    t := 0;
    if n > 0 {
      RunPrefix(e, s, n, n - 1);
      assert forall r :: r in Run(e, s, n - 1).1 ==> r in Run(e, s, n).1;
      t := RunRate(e, s, n - 1, m, creation);
      var (s1, rs) := Run(e, s, n - 1);
      var r := Tick(e, s1).1;
      assert Run(e, s, n).1[n - 1] == r && r in Run(e, s, n).1;
      assert Refreshed(s1.c, r.outcome) == Refreshed(s.c, r.outcome);
      t := TickRate(e, s.w.now, s1, Count(rs, IsRenewed), t, m, creation);
      ReauthKeepsKind(e, s1);
    }
  }

  lemma ReauthKeepsKind(e: Env, s: State)
    requires Ready(s)
    ensures LoginBased(Tick(e, s).0.c) == LoginBased(s.c)
  {
    TickMeaning(e, s);
    hide Tick;
  }

  /** n >= 2 renewals that each count m seconds need more than (n - 1) * (m - creation / 2) seconds. */
  ghost predicate RateHolds(e: Env, s: State, n: nat, m: nat, creation: nat)
    requires s.c.auth.Some?
  {
    var q, elapsed := Count(Run(e, s, n).1, IsRenewed), Run(e, s, n).0.w.now - s.w.now;
    q >= 2 ==> 2 * elapsed > (q - 1) * (2 * m - creation)
  }

  lemma RateStateBounds(e: Env, s: State, n: nat, t: int, m: nat, creation: nat)
    requires s.c.auth.Some?
    requires RateState(s.w.now, Run(e, s, n).0, Count(Run(e, s, n).1, IsRenewed), t, m, creation)
    ensures RateHolds(e, s, n, m, creation)
  {
    hide Run, Count, Ready;
  }

  function Min(a: nat, b: nat): nat {
    if a < b then a else b
  }

  /** The token in use and all tokens that logins bring have the same lifetime, and renewals grant at
      least the given time. */
  ghost predicate EvenRun(e: Env, s: State, grant: nat, creation: nat) {
    Ready(s) && s.w.tokens[s.c.apiToken].creation == creation && LeasesAre(e, creation) && GrantAtLeast(e, grant)
  }

  /** Over any run, whatever happens in it, a renewal counts the time it grants, but not more than a
      lifetime: a new login can cut a longer grant short. */
  lemma RenewalRateIsBounded(e: Env, s: State, n: nat, grant: nat, creation: nat)
    requires 2 * grant > creation > 0 && EvenRun(e, s, grant, creation)
    ensures RateHolds(e, s, n, Min(grant, creation), creation)
  {
    var t := RunRate(e, s, n, Min(grant, creation), creation);
    RateStateBounds(e, s, n, t, Min(grant, creation), creation);
    hide Run, Count, Ready, RateState, RateHolds, LeasesAre;
  }

  /** Over any run without new logins, a renewal counts the whole time it grants. */
  lemma RenewalRateWithoutLogins(e: Env, s: State, n: nat, grant: nat, creation: nat)
    requires 2 * grant > creation > 0 && GrantAtLeast(e, grant)
    requires Ready(s) && s.w.tokens[s.c.apiToken].creation == creation
    requires forall r :: r in Run(e, s, n).1 ==> !Refreshed(s.c, r.outcome)
    ensures RateHolds(e, s, n, grant, creation)
  {
    var t := RunRate(e, s, n, grant, creation);
    RateStateBounds(e, s, n, t, grant, creation);
    hide Run, Count, Ready, RateState, RateHolds, Refreshed, GrantAtLeast, LeasesAre;
  }

  // ----- where whole grants do not count

  /** Seconds until a new token has less than half of its lifetime left. */
  function PastHalf(creation: nat): nat
    requires creation >= 3
  {
    creation - (creation - 1) / 2
  }

  /** The third call finds the token revoked, and the sixth comes when the new one is half used up. */
  function CutShort(grant: nat, creation: nat): Env
    requires creation >= 3
  {
    Env((i: nat) =>
          Turn(if i == 2 then [Revoke(Given("t"))] else if i == 5 then [Elapse(PastHalf(creation))] else [],
               None, false, creation, grant, false, Proper, Proper),
        _ => true, _ => None, "", false)
  }

  /** One second of the first token is left. */
  function AlmostOver(creation: nat): State {
    State(
      World(0, map[Given("t") := TokenVault.Lease(creation, 1, false)], 0, [], map[], map[], []),
      C.State(Given("t"), "", "", C.Fields("", "", "", "", "", "", "", "", "", "", "", "", ""),
              Some(C.AppRole("approle", "role", "secret")), 0, "", ""),
      Metrics(None, 0))
  }

  /** The first tick renews. */
  lemma FirstTick(grant: nat, creation: nat)
    requires creation >= 3
    ensures var (s1, r) := Tick(CutShort(grant, creation), AlmostOver(creation));
      && r.outcome == Renewed && s1.w.now == 0 && |s1.w.calls| == 2 && s1.w.issued == 0
      && s1.c == AlmostOver(creation).c && s1.w.tokens.Keys == {Given("t")}
  {
  }

  /** The second one logs in again. */
  lemma SecondTick(grant: nat, creation: nat, s1: State)
    requires creation >= 3
    requires s1.w.now == 0 && |s1.w.calls| == 2 && s1.w.issued == 0
    requires s1.c == AlmostOver(creation).c && Given("t") in s1.w.tokens
    ensures var (s2, r) := Tick(CutShort(grant, creation), s1);
      && r.outcome == Reauthenticated && s2.w.now == 0 && |s2.w.calls| == 5
      && s2.c == s1.c.(apiToken := Issued(0), fields := s2.c.fields)
      && Issued(0) in s2.w.tokens && s2.w.tokens[Issued(0)] == TokenVault.Lease(creation, creation, false)
  {
    var e := CutShort(grant, creation);
    OneStep(s1.w, Revoke(Given("t")));
    var w := LookupSelf(e, s1.w, Given("t")).0;
    var call := Login("", "", "approle", RoleSecret("role", "secret"));
    var w' := LoginCall(e, w, call).0;
    assert |w.calls| == 3 && |w'.calls| == 4;
    assert ActAll(w, []) == w && ActAll(w', []) == w';
  }

  /** The third one renews again. */
  lemma ThirdTick(grant: nat, creation: nat, s2: State)
    requires creation >= 3
    requires s2.w.now == 0 && |s2.w.calls| == 5 && s2.c.auth.Some? && s2.c.apiToken == Issued(0)
    requires Issued(0) in s2.w.tokens && s2.w.tokens[Issued(0)] == TokenVault.Lease(creation, creation, false)
    ensures var (s3, r) := Tick(CutShort(grant, creation), s2);
      r.outcome == Renewed && s3.w.now == PastHalf(creation)
  {
    OneStep(s2.w, Elapse(PastHalf(creation)));
  }

  lemma RunStep(e: Env, s: State, n: nat, s1: State, rs: seq<Report>, s2: State, r: Report)
    requires s.c.auth.Some? && Run(e, s, n) == (s1, rs) && Tick(e, s1) == (s2, r)
    ensures Run(e, s, n + 1) == (s2, rs + [r])
  {
    hide Tick;
  }

  /** A renewal, a login after a revocation, and a renewal of the new token: when grants are longer than
      lifetimes, these two renewals follow faster than whole grants would allow. */
  lemma LoginsCutGrantsShort(grant: nat, creation: nat)
    requires grant > creation >= 3
    ensures EvenRun(CutShort(grant, creation), AlmostOver(creation), grant, creation)
    ensures !RateHolds(CutShort(grant, creation), AlmostOver(creation), 3, grant, creation)
  {
    var e, s := CutShort(grant, creation), AlmostOver(creation);
    FirstTick(grant, creation);
    var (s1, r1) := Tick(e, s);
    SecondTick(grant, creation, s1);
    var (s2, r2) := Tick(e, s1);
    ThirdTick(grant, creation, s2);
    var (s3, r3) := Tick(e, s2);
    assert Ready(s) && LeasesAre(e, creation) && GrantAtLeast(e, grant) && s.w.now == 0;
    hide Tick, CutShort, AlmostOver, Ready, Count;
    assert [r1] + [r2] == [r1, r2] && [r1, r2] + [r3] == [r1, r2, r3] && [] + [r1] == [r1];
    RunStep(e, s, 0, s, [], s1, r1);
    RunStep(e, s, 1, s1, [r1], s2, r2);
    RunStep(e, s, 2, s2, [r1, r2], s3, r3);
    TwoOfThree(r1, r2, r3);
  }

  lemma TwoOfThree(r1: Report, r2: Report, r3: Report)
    requires IsRenewed(r1) && !IsRenewed(r2) && IsRenewed(r3)
    ensures Count([r1, r2, r3], IsRenewed) == 2
  {
    assert [r1, r2, r3][..2] == [r1, r2] && [r1, r2][..1] == [r1] && [r1][..0] == [];
    assert Count([r1], IsRenewed) == 1 && Count([r1, r2], IsRenewed) == 1;
  }

  /** Tokens of one or two seconds never show less than half of their lifetime while they live. */
  lemma {:induction false} ShortTokensAreNotRenewed(e: Env, s: State, n: nat, creation: nat)
    requires creation <= 2 && Ready(s) && s.w.tokens[s.c.apiToken].creation == creation && LeasesAre(e, creation)
    ensures var (s', rs) := Run(e, s, n);
      Ready(s') && s'.w.tokens[s'.c.apiToken].creation == creation && Count(rs, IsRenewed) == 0
  {
    hide Tick;
    if n > 0 {
      ShortTokensAreNotRenewed(e, s, n - 1, creation);
      var (s1, rs) := Run(e, s, n - 1);
      TickMeaning(e, s1);
      assert (rs + [Tick(e, s1).1])[..n - 1] == rs;
    }
  }

  /** Whole grants count in all runs if and only if they are no longer than a lifetime, or lifetimes are
      so short that nothing is ever renewed. */
  lemma WholeGrantsCountExactly(grant: nat, creation: nat)
    requires 2 * grant > creation > 0
    ensures grant <= creation || creation <= 2 <==>
      forall e, s, n :: EvenRun(e, s, grant, creation) ==> RateHolds(e, s, n, grant, creation)
  {
    if grant <= creation || creation <= 2 {
      forall e, s, n | EvenRun(e, s, grant, creation) ensures RateHolds(e, s, n, grant, creation) {
        if creation <= 2 {
          ShortTokensAreNotRenewed(e, s, n, creation);
        } else {
          RenewalRateIsBounded(e, s, n, grant, creation);
        }
      }
    } else {
      LoginsCutGrantsShort(grant, creation);
    }
  }
}
