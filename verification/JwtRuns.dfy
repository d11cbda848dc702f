/** JWT logins over whole runs: what every login sends, as a function of the schedule alone. */
module JwtRuns {
  import opened Prelude
  import opened TokenVault
  import C = Client
  import opened ClientProofs
  import opened Lease

  /** The world after k more calls if nobody but the environment acted. */
  function Unattended(e: Env, w: World, k: nat): World {
    if k == 0 then w else ActAll(Unattended(e, w, k - 1), e.turn(|w.calls| + k - 1).before)
  }

  predicate SameSources(w: World, w': World) {
    w.files == w'.files && w.svids == w'.svids
  }

  lemma {:induction false} ActAllSources(w: World, w': World, ss: seq<EnvStep>)
    requires SameSources(w, w')
    ensures SameSources(ActAll(w, ss), ActAll(w', ss))
    decreases ss
  {
    if ss != [] {
      ActAllSources(Act(w, ss[0]), Act(w', ss[0]), ss[1..]);
    }
  }

  /** No call changes what the sources hold. */
  predicate InStep(e: Env, w0: World, w: World) {
    |w0.calls| <= |w.calls| && SameSources(w, Unattended(e, w0, |w.calls| - |w0.calls|))
  }

  lemma ArriveInStep(e: Env, w0: World, w: World, call: Call)
    requires InStep(e, w0, w)
    ensures InStep(e, w0, Arrive(e, w, call)) && Arrive(e, w, call).calls == w.calls + [call]
  {
    ArriveKeeps(e, w, call);
    ActAllSources(w, Unattended(e, w0, |w.calls| - |w0.calls|), e.turn(|w.calls|).before);
    hide ActAll;
  }

  /** What the source answers if call number i is a question to it. */
  function AnswerAt(e: Env, w0: World, source: C.Source, i: nat): Option<string>
    requires |w0.calls| <= i
  {
    if e.turn(i).fails.Some? then None else Holds(Unattended(e, w0, i + 1 - |w0.calls|), source)
  }

  function LoginWith(c: C.State, o: C.ClientOption, text: string): Call
    requires o.JwtLogin?
  {
    Login(c.address, c.namespace, o.mount, Jwt(o.role, text))
  }

  /** A question that was answered is followed by the login with just that answer, and one without an
      answer by no login. */
  predicate AskedWell(e: Env, w0: World, c: C.State, o: C.ClientOption, calls: seq<Call>, i: nat)
    requires o.JwtLogin? && |w0.calls| <= i < |calls|
  {
    match AnswerAt(e, w0, o.source, i)
    case None => i + 1 < |calls| ==> !calls[i + 1].Login?
    case Some(text) => i + 1 < |calls| && calls[i + 1] == LoginWith(c, o, text)
  }

  /** Call number i is no question or went that way, and is no login or came right behind its question. */
  predicate WellAt(e: Env, w0: World, c: C.State, o: C.ClientOption, calls: seq<Call>, i: nat)
    requires o.JwtLogin? && |w0.calls| <= i < |calls|
  {
    && (calls[i] == AskOf(o.source) ==> AskedWell(e, w0, c, o, calls, i))
    && (calls[i].Login? ==> i > |w0.calls| && calls[i - 1] == AskOf(o.source))
  }

  /** Since w0, every question went that way, and no login came without its question. */
  ghost predicate SendsWhatIsHeld(e: Env, w0: World, c: C.State, o: C.ClientOption, calls: seq<Call>)
    requires o.JwtLogin?
  {
    forall i: nat :: |w0.calls| <= i < |calls| ==> WellAt(e, w0, c, o, calls, i)
  }

  /** More calls do not spoil what was well, unless the next one is a login out of turn. */
  lemma StaysWell(e: Env, w0: World, c: C.State, o: C.ClientOption, calls: seq<Call>, more: seq<Call>)
    requires o.JwtLogin? && SendsWhatIsHeld(e, w0, c, o, calls)
    requires calls <= more && (|calls| < |more| ==> !more[|calls|].Login?)
    ensures forall i: nat :: |w0.calls| <= i < |calls| ==> WellAt(e, w0, c, o, more, i)
  {
    forall i: nat | |w0.calls| <= i < |calls| ensures WellAt(e, w0, c, o, more, i) {
      assert WellAt(e, w0, c, o, calls, i);
      assert more[i] == calls[i] && (i > 0 ==> more[i - 1] == calls[i - 1]);
      assert i + 1 < |calls| ==> more[i + 1] == calls[i + 1];
      hide AnswerAt, LoginWith;
    }
  }

  lemma OtherCall(e: Env, w0: World, c: C.State, o: C.ClientOption, calls: seq<Call>, call: Call)
    requires o.JwtLogin? && SendsWhatIsHeld(e, w0, c, o, calls) && |w0.calls| <= |calls|
    requires call != AskOf(o.source) && !call.Login?
    ensures SendsWhatIsHeld(e, w0, c, o, calls + [call])
  {
    StaysWell(e, w0, c, o, calls, calls + [call]);
    assert WellAt(e, w0, c, o, calls + [call], |calls|);
  }

  lemma AskAlone(e: Env, w0: World, c: C.State, o: C.ClientOption, calls: seq<Call>)
    requires o.JwtLogin? && SendsWhatIsHeld(e, w0, c, o, calls) && |w0.calls| <= |calls|
    requires AnswerAt(e, w0, o.source, |calls|).None?
    ensures SendsWhatIsHeld(e, w0, c, o, calls + [AskOf(o.source)])
  {
    var more := calls + [AskOf(o.source)];
    assert !AskOf(o.source).Login?;
    StaysWell(e, w0, c, o, calls, more);
    assert WellAt(e, w0, c, o, more, |calls|);
  }

  lemma AskAndLogin(e: Env, w0: World, c: C.State, o: C.ClientOption, calls: seq<Call>, text: string)
    requires o.JwtLogin? && SendsWhatIsHeld(e, w0, c, o, calls) && |w0.calls| <= |calls|
    requires AnswerAt(e, w0, o.source, |calls|) == Some(text)
    ensures SendsWhatIsHeld(e, w0, c, o, calls + [AskOf(o.source), LoginWith(c, o, text)])
  {
    var more := calls + [AskOf(o.source), LoginWith(c, o, text)];
    assert !AskOf(o.source).Login?;
    StaysWell(e, w0, c, o, calls, more);
    assert WellAt(e, w0, c, o, more, |calls|) && WellAt(e, w0, c, o, more, |calls| + 1);
  }

  lemma HoldsSame(w: World, w': World, source: C.Source)
    requires SameSources(w, w')
    ensures Holds(w, source) == Holds(w', source)
  {
  }

  /** The state of a run of a client with this captured login. */
  ghost predicate OnCourse(e: Env, w0: World, o: C.ClientOption, s: State) {
    && o.JwtLogin? && s.c.auth == Some(o) && InStep(e, w0, s.w)
    && SendsWhatIsHeld(e, w0, s.c, o, s.w.calls)
  }

  lemma SameClient(e: Env, w0: World, o: C.ClientOption, c: C.State, c': C.State, calls: seq<Call>)
    requires o.JwtLogin? && SendsWhatIsHeld(e, w0, c, o, calls)
    requires c'.address == c.address && c'.namespace == c.namespace
    ensures SendsWhatIsHeld(e, w0, c', o, calls)
  {
    forall i: nat | |w0.calls| <= i < |calls| ensures WellAt(e, w0, c', o, calls, i) {
      assert WellAt(e, w0, c, o, calls, i);
    }
  }

  lemma ReloginOnCourse(e: Env, w0: World, o: C.ClientOption, s: State)
    requires OnCourse(e, w0, o, s)
    ensures OnCourse(e, w0, o, Relogin(e, s).0)
    ensures var c' := Relogin(e, s).0.c; c'.address == s.c.address && c'.namespace == s.c.namespace
  {
    var ask, calls := AskOf(o.source), s.w.calls;
    JwtIsFresh(e, o.mount, o.role, o.source, s.c, s.w);
    ArriveInStep(e, w0, s.w, ask);
    var asked := Arrive(e, s.w, ask);
    HoldsSame(asked, Unattended(e, w0, |calls| + 1 - |w0.calls|), o.source);
    var answer := AnswerAt(e, w0, o.source, |calls|);
    var s' := Relogin(e, s).0;
    AuthOutcome(e, o, s.c, s.w);
    ReloginKeepsAuth(e, s);
    if answer.None? {
      AskAlone(e, w0, s.c, o, calls);
      assert s'.w == asked;
    } else {
      AskAndLogin(e, w0, s.c, o, calls, answer.value);
      LoginInStep(e, w0, o, s, answer.value);
    }
    SameClient(e, w0, o, s.c, s'.c, s'.w.calls);
  }

  lemma LoginInStep(e: Env, w0: World, o: C.ClientOption, s: State, text: string)
    requires o.JwtLogin? && s.c.auth == Some(o) && InStep(e, w0, s.w)
    requires C.SourceToken(e, s.w, o.source).1 == Some(text)
    ensures InStep(e, w0, Relogin(e, s).0.w)
  {
    var asked := Arrive(e, s.w, AskOf(o.source));
    ArriveInStep(e, w0, s.w, AskOf(o.source));
    var call := LoginWith(s.c, o, text);
    ArriveInStep(e, w0, asked, call);
    assert C.SourceToken(e, s.w, o.source).0 == asked;
    var (w', answer) := LoginCall(e, asked, call);
    assert Relogin(e, s).0.w == w';
    assert SameSources(w', Arrive(e, asked, call)) && w'.calls == Arrive(e, asked, call).calls;
    hide Arrive, Unattended;
  }

  lemma LookupOnCourse(e: Env, w0: World, o: C.ClientOption, s: State, t: TokenId)
    requires OnCourse(e, w0, o, s)
    ensures OnCourse(e, w0, o, s.(w := LookupSelf(e, s.w, t).0))
  {
    ArriveInStep(e, w0, s.w, Lookup(t));
    OtherCall(e, w0, s.c, o, s.w.calls, Lookup(t));
  }

  lemma RenewOnCourse(e: Env, w0: World, o: C.ClientOption, s: State, t: TokenId, increment: int)
    requires OnCourse(e, w0, o, s)
    ensures OnCourse(e, w0, o, s.(w := RenewSelf(e, s.w, t, increment).0))
  {
    ArriveInStep(e, w0, s.w, Renew(t, increment));
    OtherCall(e, w0, s.c, o, s.w.calls, Renew(t, increment));
    var w1, w' := Arrive(e, s.w, Renew(t, increment)), RenewSelf(e, s.w, t, increment).0;
    assert SameSources(w', w1) && w'.calls == w1.calls;
    hide Arrive, Unattended, SendsWhatIsHeld;
  }

  lemma TickOnCourse(e: Env, w0: World, o: C.ClientOption, s: State)
    requires OnCourse(e, w0, o, s)
    ensures OnCourse(e, w0, o, Tick(e, s).0)
    ensures var c' := Tick(e, s).0.c; c'.address == s.c.address && c'.namespace == s.c.namespace
  {
    LookupOnCourse(e, w0, o, s, s.c.apiToken);
    var (w1, reply) := LookupSelf(e, s.w, s.c.apiToken);
    var s1 := s.(w := w1);
    ReloginOnCourse(e, w0, o, s1);
    var s2 := Relogin(e, s1).0;
    LookupOnCourse(e, w0, o, s2, s2.c.apiToken);
    if reply.LookedUp? && Numbers(reply).Some? {
      var s3 := s1.(m := s1.m.(expiry := Some(Numbers(reply).value.1)));
      RenewOnCourse(e, w0, o, s3, s3.c.apiToken, s3.c.renewalSeconds);
      ReloginOnCourse(e, w0, o, s3.(w := RenewSelf(e, s3.w, s3.c.apiToken, s3.c.renewalSeconds).0));
    }
    hide LookupSelf, RenewSelf, Relogin, InStep, SendsWhatIsHeld;
  }

  /** Over any run of a JWT client, with any changes to the source in between: every question to the
      source that is answered leads to a login directly behind it, with exactly the text that the source
      holds at that moment by the schedule; an unanswered one leads to none; and there are no other
      logins. */
  lemma {:induction false} RunSendsWhatIsHeld(e: Env, s: State, n: nat)
    requires s.c.auth.Some? && s.c.auth.value.JwtLogin?
    ensures SendsWhatIsHeld(e, s.w, s.c, s.c.auth.value, Run(e, s, n).0.w.calls)
    ensures OnCourse(e, s.w, s.c.auth.value, Run(e, s, n).0)
    ensures var c' := Run(e, s, n).0.c; c'.address == s.c.address && c'.namespace == s.c.namespace
  {
    hide Tick;
    if n > 0 {
      RunSendsWhatIsHeld(e, s, n - 1);
      var s1 := Run(e, s, n - 1).0;
      TickOnCourse(e, s.w, s.c.auth.value, s1);
      var s2 := Run(e, s, n).0;
      SameClient(e, s.w, s.c.auth.value, s2.c, s.c, s2.w.calls);
    }
  }
}
