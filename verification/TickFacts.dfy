/** What one login and one tick do to the installed token, whatever the environment does meanwhile. */
module TickFacts {
  import opened Prelude
  import opened TokenVault
  import C = Client
  import opened ClientProofs
  import opened Lease

  /** The captured login goes to Vault, instead of installing a configured text again. */
  predicate LoginBased(c: C.State) {
    c.auth.Some? && C.IsLogin(c.auth.value)
  }

  /** The client was set up with one auth option: token auth re-installs the token that is in use. */
  predicate SingleAuth(c: C.State) {
    && c.auth.Some? && C.IsAuth(c.auth.value)
    && (c.auth.value.TokenAuth? ==> c.auth.value.token == "" || c.apiToken == Given(c.auth.value.token))
  }

  /** Besides, Vault knows the installed token, and has never issued a serial twice. */
  ghost predicate Ready(s: State) {
    SingleAuth(s.c) && WellFormed(s.w) && s.c.apiToken in s.w.tokens
  }

  /** What the captured login does to the token in use. */
  lemma ReloginMeaning(e: Env, s: State)
    requires SingleAuth(s.c)
    ensures var (s', ok) := Relogin(e, s);
      && s'.m == s.m && s.w.now <= s'.w.now && SingleAuth(s'.c) && LoginBased(s'.c) == LoginBased(s.c)
      && (WellFormed(s.w) ==> WellFormed(s'.w) && Keeps(s.w, s'.w))
      && (LoginBased(s.c) && ok ==>
            NewToken(e, s.w, s'.w) && s'.c.apiToken == Issued(s.w.issued)
            && s'.w.delivered == s.w.delivered + [s'.c.apiToken])
      && (!(LoginBased(s.c) && ok) ==> s'.c.apiToken == s.c.apiToken && s'.w.delivered == s.w.delivered)
      && (!LoginBased(s.c) ==> ok && s'.w == s.w)
  {
    if LoginBased(s.c) {
      LoginMeaning(e, s.c.auth.value, s.c, s.w);
      ReloginKeepsAuth(e, s);
      hide C.Apply;
    }
  }

  /** The outcomes after which a login-based client holds a newly issued token. */
  predicate Refreshed(c: C.State, outcome: Outcome) {
    LoginBased(c) && (outcome.Reauthenticated? || outcome.ReauthUnverified? || outcome.Relogged?)
  }

  predicate TriesRenewal(outcome: Outcome) {
    outcome.Renewed? || outcome.Relogged? || outcome.ReloginFailed?
  }

  ghost predicate SameLease(s: State, s': State)
    requires s.c.apiToken in s.w.tokens
  {
    var t := s.c.apiToken;
    s'.c.apiToken == t && t in s'.w.tokens
    && s'.w.tokens[t].creation == s.w.tokens[t].creation && s'.w.tokens[t].expiry == s.w.tokens[t].expiry
  }

  /** Vault renewed the installed token in between; the client may not have learnt of it. */
  ghost predicate ExtendedLease(e: Env, s: State, s': State, from: int, to: int)
    requires s.c.apiToken in s.w.tokens
  {
    var t := s.c.apiToken;
    && s'.c.apiToken == t && t in s'.w.tokens && s'.w.tokens[t].creation == s.w.tokens[t].creation
    && exists i: nat :: from <= s'.w.tokens[t].expiry - e.turn(i).grant <= to
  }

  /** The lease after a step with this outcome that took place between two moments. */
  ghost predicate LeaseAfter(e: Env, s: State, s': State, outcome: Outcome, from: int, to: int)
    requires s.c.apiToken in s.w.tokens
  {
    && Ready(s') && LoginBased(s'.c) == LoginBased(s.c)
    && if Refreshed(s.c, outcome) then FreshLease(e, from, to, s'.w.tokens[s'.c.apiToken])
       else if outcome.Renewed? then ExtendedLease(e, s, s', from, to)
       else if TriesRenewal(outcome) then SameLease(s, s') || ExtendedLease(e, s, s', from, to)
       else SameLease(s, s')
  }

  lemma ReauthenticateMeaning(e: Env, s: State)
    requires Ready(s)
    ensures var (s', outcome) := Reauthenticate(e, s);
      && s.w.now <= s'.w.now && s'.m == s.m && LeaseAfter(e, s, s', outcome, s.w.now, s'.w.now)
      && (outcome.Reauthenticated? || outcome.ReauthUnverified? || outcome.ReauthFailed?)
  {
    ReloginMeaning(e, s);
    var (s1, ok) := Relogin(e, s);
    hide Relogin;
    if ok {
      LookupKeeps(e, s1.w, s1.c.apiToken);
      hide LookupSelf;
    }
  }

  /** The renewal alone. */
  lemma RenewalMeaning(e: Env, s: State)
    requires Ready(s)
    ensures var (w1, err) := RenewSelf(e, s.w, s.c.apiToken, s.c.renewalSeconds);
      var s1 := s.(w := w1);
      && s.w.now <= w1.now && Ready(s1) && w1.issued == s.w.issued && w1.delivered == s.w.delivered
      && (SameLease(s, s1) || ExtendedLease(e, s, s1, s.w.now, w1.now))
      && (err.None? ==> ExtendedLease(e, s, s1, s.w.now, w1.now))
  {
    RenewMeaning(e, s.w, s.c.apiToken, s.c.renewalSeconds);
    assert TurnAt(e, s.w) == e.turn(|s.w.calls|);
    hide RenewSelf;
  }

  lemma RenewOrLoginMeaning(e: Env, s: State)
    requires Ready(s)
    ensures var (s', outcome) := RenewOrLogin(e, s);
      && s.w.now <= s'.w.now && LeaseAfter(e, s, s', outcome, s.w.now, s'.w.now) && TriesRenewal(outcome)
      && s'.m == s.m.(renewals := s.m.renewals + 1)
  {
    RenewalMeaning(e, s);
    var (w1, err) := RenewSelf(e, s.w, s.c.apiToken, s.c.renewalSeconds);
    if err.Some? {
      ReloginMeaning(e, s.(w := w1));
    }
    hide RenewSelf, Relogin;
  }

  /** A tick changes the lease of the installed token in exactly these ways; it tries a renewal exactly
      if it read two numbers of which the remaining time is less than half of the lifetime, and they
      are those of the token at that moment. */
  lemma TickMeaning(e: Env, s: State)
    requires Ready(s)
    ensures var (s', r) := Tick(e, s);
      var l := s.w.tokens[s.c.apiToken];
      && s.w.now <= r.at <= r.end == s'.w.now
      && LeaseAfter(e, s, s', r.outcome, r.at, r.end)
      && (r.seen.Some? ==>
            r.seen.value == (l.creation, Ttl(l, r.at)) && !l.revoked && (l.creation == 0 || r.at < l.expiry))
      && (TriesRenewal(r.outcome) <==> r.seen.Some? && 2 * Ttl(l, r.at) < l.creation)
      && (r.outcome.Skipped? <==> r.seen.Some? && 2 * Ttl(l, r.at) >= l.creation)
      && s'.m == Metrics(if r.seen.Some? then Some(r.seen.value.1) else s.m.expiry,
                         s.m.renewals + if TriesRenewal(r.outcome) then 1 else 0)
  {
    var t := s.c.apiToken;
    LookupKeeps(e, s.w, t);
    LookupMeaning(e, s.w, t);
    var (w1, reply) := LookupSelf(e, s.w, t);
    hide LookupSelf;
    var s1 := s.(w := w1);
    if reply.LookupFailed? {
      if IsAuthError(reply.error) {
        ReauthenticateMeaning(e, s1);
        hide Reauthenticate;
      }
    } else if Numbers(reply).Some? {
      RenewOrLoginMeaning(e, s1.(m := s1.m.(expiry := Some(Numbers(reply).value.1))));
      hide RenewOrLogin;
    }
  }

  // ----- what a tick does, in terms of the calls it makes

  /** A tick whose lookup is answered: what it reads decides what it does, and any error of the renewal
      makes it run the captured login. */
  lemma TickOutcomes(e: Env, s: State)
    requires s.c.auth.Some?
    ensures var (s', r) := Tick(e, s);
      var t, w1, turn := s.c.apiToken, Arrive(e, s.w, Lookup(s.c.apiToken)), TurnAt(e, s.w);
      var answered := turn.fails.None? && IsAlive(w1, t);
      var low := r.seen.Some? && 2 * r.seen.value.1 < r.seen.value.0;
      var (w3, err) := RenewSelf(e, w1, t, s.c.renewalSeconds);
      var a := C.Apply(e, s.c.auth.value, s.c, w3);
      && r.at == w1.now && r.end == s'.w.now
      && (r.seen.Some? <==> answered && turn.creationShape.Proper? && turn.ttlShape.Proper?)
      && (r.seen.Some? ==> r.seen.value == (w1.tokens[t].creation, Ttl(w1.tokens[t], w1.now)))
      && (answered ==> r.verified == Some(t))
      && (r.outcome.Unparsed? <==> answered && r.seen.None?)
      && (r.outcome.Skipped? <==> r.seen.Some? && !low)
      && (r.outcome.Renewed? <==> low && err.None?)
      && (r.outcome.Relogged? <==> low && err.Some? && a.err.None?)
      && (r.outcome.ReloginFailed? <==> low && err.Some? && a.err.Some?)
      && (r.outcome.Unparsed? || r.outcome.Skipped? ==> s'.w == w1 && s'.c == s.c)
      && (r.outcome.Renewed? ==> s'.w == w3 && s'.c == s.c)
      && (r.outcome.Relogged? || r.outcome.ReloginFailed? ==> s'.w == a.w && s'.c == a.c)
      && s'.m == Metrics(if r.seen.Some? then Some(r.seen.value.1) else s.m.expiry,
                         s.m.renewals + if low then 1 else 0)
  {
    LookupMeaning(e, s.w, s.c.apiToken);
    var (w1, reply) := LookupSelf(e, s.w, s.c.apiToken);
    hide C.Apply, RenewSelf, Arrive, LookupSelf;
    assert reply.LookedUp? ==> (Numbers(reply).Some? <==> reply.creation.Number? && reply.ttl.Number?);
    var (s', r) := Tick(e, s);
    assert r.seen == if reply.LookedUp? then Numbers(reply) else None;
    assert reply.LookupFailed? ==> s'.m == s.m && !r.outcome.Unparsed?;
    var (w3, err) := RenewSelf(e, w1, s.c.apiToken, s.c.renewalSeconds);
    var a := C.Apply(e, s.c.auth.value, s.c, w3);
    assert r.outcome.Relogged? || r.outcome.ReloginFailed? ==> err.Some? && s'.w == a.w && s'.c == a.c;
  }

  /** A tick whose lookup is not answered: other failures end it; if the token is refused, with status 401
      or 403 or because it is dead, the captured login runs, and if it succeeds the new token is looked
      up. */
  lemma RefusalOutcomes(e: Env, s: State)
    requires s.c.auth.Some?
    ensures var (s', r) := Tick(e, s);
      var w1, fails := Arrive(e, s.w, Lookup(s.c.apiToken)), TurnAt(e, s.w).fails;
      var refused :=
        fails == Some(Status(401)) || fails == Some(Status(403)) || (fails.None? && !IsAlive(w1, s.c.apiToken));
      var a := C.Apply(e, s.c.auth.value, s.c, w1);
      var w3 := Arrive(e, a.w, Lookup(a.c.apiToken));
      var confirmed := TurnAt(e, a.w).fails.None? && IsAlive(w3, a.c.apiToken);
      && (r.outcome.LookupError? <==> fails.Some? && !refused)
      && (r.outcome.ReauthFailed? <==> refused && a.err.Some?)
      && (r.outcome.ReauthUnverified? <==> refused && a.err.None? && !confirmed)
      && (r.outcome.Reauthenticated? <==> refused && a.err.None? && confirmed)
      && (fails.Some? || refused ==> s'.m == s.m)
      && (r.outcome.LookupError? ==> s'.w == w1 && s'.c == s.c && r.verified == None)
      && (r.outcome.ReauthFailed? ==> s'.w == a.w && s'.c == a.c && r.verified == None)
      && (r.outcome.ReauthUnverified? ==> s'.w == w3 && s'.c == a.c && r.verified == None)
      && (r.outcome.Reauthenticated? ==> s'.w == w3 && s'.c == a.c && r.verified == Some(a.c.apiToken))
  {
    LookupMeaning(e, s.w, s.c.apiToken);
    var a := C.Apply(e, s.c.auth.value, s.c, Arrive(e, s.w, Lookup(s.c.apiToken)));
    LookupMeaning(e, a.w, a.c.apiToken);
    hide C.Apply, Arrive;
  }

  /** After any failed renewal, for whatever reason, the client logs in: if the login is granted, it holds
      the new token when the tick ends. */
  lemma FailedRenewalLogsIn(e: Env, s: State)
    requires SingleAuth(s.c) && LoginBased(s.c)
    requires var r := Tick(e, s).1; r.seen.Some? && 2 * r.seen.value.1 < r.seen.value.0
    requires var w1 := Arrive(e, s.w, Lookup(s.c.apiToken));
      RenewSelf(e, w1, s.c.apiToken, s.c.renewalSeconds).1.Some?
    ensures var w1 := Arrive(e, s.w, Lookup(s.c.apiToken));
      var w3 := RenewSelf(e, w1, s.c.apiToken, s.c.renewalSeconds).0;
      var attempt := LoginAttempt(e, s.c.auth.value, s.c, w3);
      var (s', r) := Tick(e, s);
      && (r.outcome.Relogged? <==> attempt.Some? && LoginCall(e, attempt.value.0, attempt.value.1).1.Granted?)
      && (r.outcome.Relogged? ==> s'.c.apiToken == LoginCall(e, attempt.value.0, attempt.value.1).1.token)
      && (r.outcome.ReloginFailed? <==> !r.outcome.Relogged?)
      && (r.outcome.ReloginFailed? ==> s'.c.apiToken == s.c.apiToken)
  {
    TickOutcomes(e, s);
    var w1 := Arrive(e, s.w, Lookup(s.c.apiToken));
    var w3 := RenewSelf(e, w1, s.c.apiToken, s.c.renewalSeconds).0;
    LoginOutcome(e, s.c.auth.value, s.c, w3);
    hide Tick, C.Apply, RenewSelf, Arrive, LoginAttempt, LoginCall;
  }
}
