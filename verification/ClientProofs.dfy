/** What the fold of options means: which login is captured, which token is installed, which address
    each login used; and what a JWT login asks and sends. */
module ClientProofs {
  import opened Prelude
  import opened TokenVault
  import opened Client

  // ----- the captured login

  /** The function an auth option stores for later logins: itself, but with a SPIFFE subject parsed. */
  function Stored(e: Env, o: ClientOption): ClientOption {
    if o.SpiffeAuth? && e.parseSubject(o.subjectText).Some?
    then JwtLogin(o.mount, o.role, Spiffe(o.endpoint, o.audience, e.parseSubject(o.subjectText).value))
    else o
  }

  /** After its first success an auth option has stored a function that from then on does exactly what
      the option does, on every client and in every world, and that stores itself in turn. */
  lemma LoginReproducesItself(e: Env, o: ClientOption, c: State, w: World)
    requires IsAuth(o) && c.auth.None? && Apply(e, o, c, w).err.None?
    ensures Apply(e, o, c, w).c.auth == Some(Stored(e, o))
    ensures forall c', w' :: Apply(e, Stored(e, o), c', w') == Apply(e, o, c', w')
    ensures !Stored(e, o).SpiffeAuth? && Stored(e, Stored(e, o)) == Stored(e, o)
  {
  }

  /** Exactly the options that log in or set a token capture a login function, and only the first. */
  lemma AuthIsCapturedOnce(e: Env, o: ClientOption, c: State, w: World)
    requires Apply(e, o, c, w).err.None?
    ensures Apply(e, o, c, w).c.auth == if c.auth.Some? then c.auth else if IsAuth(o) then Some(Stored(e, o)) else None
  {
    hide LoginCall, LocalCall, SourceToken;
  }

  function FirstAuth(e: Env, os: seq<ClientOption>): Option<ClientOption> {
    if os == [] then None else if IsAuth(os[0]) then Some(Stored(e, os[0])) else FirstAuth(e, os[1..])
  }

  /** Over any list on which the fold succeeds, the captured function is that of the first auth option. */
  lemma {:induction false} FoldCapturesFirst(e: Env, os: seq<ClientOption>, c: State, w: World)
    requires Fold(e, os, c, w).err.None?
    ensures Fold(e, os, c, w).c.auth == if c.auth.Some? then c.auth else FirstAuth(e, os)
  {
    if os != [] {
      AuthIsCapturedOnce(e, os[0], c, w);
      var a := Apply(e, os[0], c, w);
      FoldCapturesFirst(e, os[1..], a.c, a.w);
    }
  }

  lemma {:induction false} FoldAppend(e: Env, os: seq<ClientOption>, more: seq<ClientOption>, c: State, w: World)
    ensures var a := Fold(e, os, c, w);
      Fold(e, os + more, c, w) == if a.err.Some? then a else Fold(e, more, a.c, a.w)
  {
    if os == [] {
      assert os + more == more;
    } else {
      assert (os + more)[1..] == os[1..] + more;
      var a := Apply(e, os[0], c, w);
      if a.err.None? {
        FoldAppend(e, os[1..], more, a.c, a.w);
      }
    }
  }

  // ----- what a login does

  function AskOf(source: Source): Call {
    match source
    case JwtFile(path) => ReadJwtFile(path)
    case Spiffe(endpoint, audience, subject) => FetchSvid(endpoint, audience, subject)
  }

  function JwtAttempt(e: Env, mount: string, role: string, source: Source, c: State, w: World): Option<(World, Call)> {
    var (w1, jwt) := SourceToken(e, w, source);
    if jwt.None? then None else Some((w1, Login(c.address, c.namespace, mount, Jwt(role, jwt.value))))
  }

  /** The call through which a login option reaches Vault, and the world it finds; none when the
      option fails earlier, or is no login. */
  function LoginAttempt(e: Env, o: ClientOption, c: State, w: World): Option<(World, Call)> {
    match o
    case AppRole(mount, roleId, secretId) =>
      Some((w, Login(c.address, c.namespace, mount, RoleSecret(roleId, secretId))))
    case UserPass(mount, username, password) =>
      Some((w, Login(c.address, c.namespace, mount, Password(username, password))))
    case Cert(mount, role, certFile, keyFile, caFile) =>
      var (w1, err) := LocalCall(e, w, ConfigureTls(certFile, keyFile, caFile));
      if err.Some? || e.brokenSdk then None
      else Some((w1, Login(c.address, e.namespace, mount, Certificate(role, certFile, keyFile))))
    case JwtLogin(mount, role, source) => JwtAttempt(e, mount, role, source, c, w)
    case SpiffeAuth(mount, role, endpoint, audience, text) =>
      (match e.parseSubject(text)
       case None => None
       case Some(subject) => JwtAttempt(e, mount, role, Spiffe(endpoint, audience, subject), c, w))
    case _ => None
  }

  /** Why a login option fails before it reaches Vault. */
  function WhyUnreached(e: Env, o: ClientOption, w: World): ClientError {
    if o.Cert? then (if TurnAt(e, w).fails.Some? then BadTls else NoSdkClient)
    else if o.SpiffeAuth? && e.parseSubject(o.subjectText).None? then BadSubject
    else BadSource
  }

  /** And which calls it has made by then. */
  function WorldUnreached(e: Env, o: ClientOption, w: World): World {
    match o
    case Cert(_, _, certFile, keyFile, caFile) => Arrive(e, w, ConfigureTls(certFile, keyFile, caFile))
    case JwtLogin(_, _, source) => Arrive(e, w, AskOf(source))
    case SpiffeAuth(_, _, endpoint, audience, text) =>
      (match e.parseSubject(text)
       case None => w
       case Some(subject) => Arrive(e, w, FetchSvid(endpoint, audience, subject)))
    case _ => w
  }

  /** A login option succeeds exactly if it reaches Vault and Vault grants the login, and a login that
      fails, at its source or at Vault, leaves token, captured login, address and namespace alone. */
  lemma LoginOutcome(e: Env, o: ClientOption, c: State, w: World)
    requires IsLogin(o)
    ensures var a, t := Apply(e, o, c, w), LoginAttempt(e, o, c, w);
      && (a.err.None? <==> t.Some? && LoginCall(e, t.value.0, t.value.1).1.Granted?)
      && (t.Some? ==> a.w == LoginCall(e, t.value.0, t.value.1).0)
      && (a.err.None? ==> a.c.apiToken == LoginCall(e, t.value.0, t.value.1).1.token)
      && (a.err.Some? ==> a.c == c.(fields := a.c.fields))
      && (t.Some? ==>
            match LoginCall(e, t.value.0, t.value.1).1
            case LoginFailed(x) => a.err == Some(LoginError(x))
            case NoAuth => a.err == Some(EmptyAuth)
            case Granted(_) => a.err == None)
      && (t.None? ==> a.err == Some(WhyUnreached(e, o, w)) && a.w == WorldUnreached(e, o, w))
  {
  }

  /** Until it reaches Vault a login changes no token. */
  lemma AskIdles(e: Env, o: ClientOption, c: State, w: World)
    requires IsLogin(o)
    ensures var t, a := LoginAttempt(e, o, c, w), Apply(e, o, c, w);
      Idles(w, if t.Some? then t.value.0 else a.w)
  {
    match o
    case Cert(mount, role, certFile, keyFile, caFile) => ArriveKeeps(e, w, ConfigureTls(certFile, keyFile, caFile));
    case JwtLogin(mount, role, source) => ArriveKeeps(e, w, AskOf(source));
    case SpiffeAuth(mount, role, endpoint, audience, text) =>
      var subject := e.parseSubject(text);
      if subject.Some? {
        ArriveKeeps(e, w, AskOf(Spiffe(endpoint, audience, subject.value)));
      }
    case _ =>
  }

  /** A full lifetime that some login of the schedule grants, counted from a moment between the two. */
  ghost predicate FreshLease(e: Env, before: int, after: int, l: Lease) {
    && before <= l.expiry - l.creation <= after
    && exists i: nat :: l.creation == e.turn(i).lease
  }

  /** A new token with a full lifetime was issued in between. */
  ghost predicate NewToken(e: Env, w: World, w': World) {
    && w.now <= w'.now && w'.issued == w.issued + 1
    && w'.tokens.Keys == w.tokens.Keys + {Issued(w.issued)}
    && FreshLease(e, w.now, w'.now, w'.tokens[Issued(w.issued)])
  }

  /** What a login does to the tokens: if it succeeds, the token Vault issued is delivered and installed.
      If not, the client keeps its token; Vault may have issued one all the same. */
  lemma LoginMeaning(e: Env, o: ClientOption, c: State, w: World)
    requires IsLogin(o)
    ensures var a := Apply(e, o, c, w);
      && (Idles(w, a.w) || NewToken(e, w, a.w))
      && (a.err.None? ==> NewToken(e, w, a.w) && a.c.apiToken == Issued(w.issued)
                          && a.w.delivered == w.delivered + [a.c.apiToken])
      && (a.err.Some? ==> a.c.apiToken == c.apiToken && a.w.delivered == w.delivered)
      && (WellFormed(w) ==> WellFormed(a.w) && Keeps(w, a.w))
  {
    LoginOutcome(e, o, c, w);
    AskIdles(e, o, c, w);
    var t := LoginAttempt(e, o, c, w);
    hide Apply, LoginAttempt;
    if t.Some? {
      LoginCallMeaning(e, t.value.0, t.value.1);
      assert TurnAt(e, t.value.0) == e.turn(|t.value.0.calls|);
      hide LoginCall;
    }
  }

  /** The remembered login parameters after the option ran. */
  function Remember(o: ClientOption, f: Fields): Fields {
    match o
    case TokenAuth(t) => f.(token := t)
    case AppRole(mount, roleId, secretId) =>
      f.(appRoleMount := mount, appRoleId := roleId, appRoleSecretId := secretId)
    case UserPass(mount, username, password) =>
      f.(userPassMount := mount, username := username, password := password)
    case Cert(mount, role, certFile, keyFile, _) =>
      f.(certMount := mount, certRole := role, certFile := certFile, certKey := keyFile)
    case JwtLogin(mount, role, _) => f.(jwtMount := mount, jwtRole := role)
    case SpiffeAuth(mount, role, _, _, _) => f.(jwtMount := mount, jwtRole := role)
    case _ => f
  }

  /** What an auth option does to the client, besides its token: it remembers its parameters, also when it
      fails later, captures itself if nothing is captured yet, and leaves all settings alone. Token auth
      never fails, and installs its text, if it has one. */
  lemma AuthOutcome(e: Env, o: ClientOption, c: State, w: World)
    requires IsAuth(o)
    ensures var a := Apply(e, o, c, w);
      var parsed := !o.SpiffeAuth? || e.parseSubject(o.subjectText).Some?;
      && a.c.fields == (if parsed then Remember(o, c.fields) else c.fields)
      && a.c == c.(fields := a.c.fields, apiToken := a.c.apiToken, auth := a.c.auth)
      && (a.err.None? ==> a.c.auth == if c.auth.Some? then c.auth else Some(Stored(e, o)))
      && (o.TokenAuth? ==>
            a.err.None? && a.w == w && a.c.apiToken == if o.token == "" then c.apiToken else Given(o.token))
  {
    hide LoginCall, LocalCall, SourceToken;
  }

  // ----- the fold and the constructor

  /** The fold up to one more option. */
  lemma FoldSnoc(e: Env, os: seq<ClientOption>, k: nat, c: State, w: World)
    requires k < |os|
    ensures var a := Fold(e, os[..k], c, w);
      Fold(e, os[..k + 1], c, w) == if a.err.Some? then a else Apply(e, os[k], a.c, a.w)
  {
    assert os[..k + 1] == os[..k] + [os[k]];
    FoldAppend(e, os[..k], [os[k]], c, w);
    var a := Fold(e, os[..k], c, w);
    assert [os[k]][1..] == [];
    if a.err.None? {
      assert Fold(e, [os[k]], a.c, a.w) == Apply(e, os[k], a.c, a.w);
    }
  }

  /** Option number k succeeds, after all options in front of it. */
  predicate SucceedsAt(e: Env, os: seq<ClientOption>, k: nat, c: State, w: World)
    requires k < |os|
  {
    var a := Fold(e, os[..k], c, w);
    a.err.None? && Apply(e, os[k], a.c, a.w).err.None?
  }

  /** The fold succeeds exactly if every option does; otherwise it ends with the first one that fails. */
  lemma {:induction false} FoldOutcome(e: Env, os: seq<ClientOption>, c: State, w: World) returns (k: nat)
    ensures Fold(e, os, c, w).err.None? <==> forall i :: 0 <= i < |os| ==> SucceedsAt(e, os, i, c, w)
    ensures k <= |os| && Fold(e, os[..k], c, w).err.None? && (k == |os| <==> Fold(e, os, c, w).err.None?)
    ensures k < |os| ==>
      var a := Fold(e, os[..k], c, w);
      Apply(e, os[k], a.c, a.w) == Fold(e, os, c, w) && Fold(e, os, c, w).err.Some?
  {
    if os == [] {
      k := 0;
    } else {
      var init := os[..|os| - 1];
      k := FoldOutcome(e, init, c, w);
      FoldSnoc(e, os, |os| - 1, c, w);
      assert os[..|os|] == os;
      assert forall i :: 0 <= i <= |init| ==> init[..i] == os[..i];
      assert forall i :: 0 <= i < |init| ==> SucceedsAt(e, os, i, c, w) == SucceedsAt(e, init, i, c, w);
      if k == |init| && SucceedsAt(e, os, |init|, c, w) {
        k := |os|;
      }
      hide Apply;
    }
  }

  /** A client comes out exactly if the SDK can make one, every option succeeds, and the token then
      installed is alive when the verifying lookup arrives, which does not fail; it is the folded client.
      Otherwise the first of these that goes wrong gives the error. */
  lemma ConstructOutcome(e: Env, os: seq<ClientOption>, c: State, w: World)
    ensures var (w', r) := Construct(e, os, c, w);
      var a := Fold(e, os, c, w);
      var asked, fails := Arrive(e, a.w, Lookup(a.c.apiToken)), TurnAt(e, a.w).fails;
      && (r.Ok? <==> !e.brokenSdk && a.err.None? && fails.None? && IsAlive(asked, a.c.apiToken))
      && (r.Ok? ==> r.value == a.c)
      && (e.brokenSdk ==> w' == w && r == Err(NoSdkClient))
      && (!e.brokenSdk && a.err.Some? ==> w' == a.w && r == Err(a.err.value))
      && (!e.brokenSdk && a.err.None? ==>
            && w' == asked
            && (fails.Some? ==> r == Err(CannotConnect(fails.value)))
            && (fails.None? && !IsAlive(asked, a.c.apiToken) ==> r == Err(CannotConnect(Status(403)))))
  {
    var a := Fold(e, os, c, w);
    LookupMeaning(e, a.w, a.c.apiToken);
    hide LookupSelf, Fold, Arrive;
  }

  // ----- the installed token

  predicate SetsToken(o: ClientOption) {
    IsLogin(o) || (o.TokenAuth? && o.token != "")
  }

  /** A login that succeeds installs the token that Vault issued last; token auth installs its text. */
  lemma ApplyToken(e: Env, o: ClientOption, c: State, w: World)
    requires Apply(e, o, c, w).err.None?
    ensures var a := Apply(e, o, c, w);
      && (IsLogin(o) ==> a.w.issued == w.issued + 1 && a.c.apiToken == Issued(w.issued))
      && (!IsLogin(o) ==> a.w == w)
      && (o.TokenAuth? && o.token != "" ==> a.c.apiToken == Given(o.token))
      && (!SetsToken(o) ==> a.c.apiToken == c.apiToken)
  {
    if IsLogin(o) {
      LoginMeaning(e, o, c, w);
      hide Apply;
    }
  }

  lemma {:induction false} FoldKeepsToken(e: Env, os: seq<ClientOption>, c: State, w: World)
    requires Fold(e, os, c, w).err.None? && forall o :: o in os ==> !SetsToken(o)
    ensures Fold(e, os, c, w).c.apiToken == c.apiToken && Fold(e, os, c, w).w == w
  {
    if os != [] {
      assert !SetsToken(os[0]);
      ApplyToken(e, os[0], c, w);
      var a := Apply(e, os[0], c, w);
      assert a.w == w;
      FoldKeepsToken(e, os[1..], a.c, a.w);
    }
  }

  /** The token after a successful fold is that of the last option that set one: the configured text,
      or the token that Vault issued to that login, which no later option replaced. */
  lemma FoldTokenIsLast(e: Env, pre: seq<ClientOption>, o: ClientOption, post: seq<ClientOption>, c: State, w: World)
    requires Fold(e, pre + [o] + post, c, w).err.None?
    requires SetsToken(o) && forall p :: p in post ==> !SetsToken(p)
    ensures var before, after := Fold(e, pre, c, w), Fold(e, pre + [o] + post, c, w);
      && before.err.None?
      && after.c.apiToken == (if o.TokenAuth? then Given(o.token) else Issued(before.w.issued))
      && after.w.issued == before.w.issued + (if o.TokenAuth? then 0 else 1)
  {
    FoldAppend(e, pre + [o], post, c, w);
    FoldAppend(e, pre, [o], c, w);
    var before := Fold(e, pre, c, w);
    var a := Apply(e, o, before.c, before.w);
    assert [o][1..] == [] && Fold(e, [o], before.c, before.w) == a;
    ApplyToken(e, o, before.c, before.w);
    FoldKeepsToken(e, post, a.c, a.w);
  }

  // ----- the address in force

  function LastAddress(os: seq<ClientOption>, initial: string): string {
    if os == [] then initial
    else if os[|os| - 1].Address? then os[|os| - 1].address
    else LastAddress(os[..|os| - 1], initial)
  }

  lemma {:induction false} FoldAddress(e: Env, os: seq<ClientOption>, c: State, w: World)
    requires Fold(e, os, c, w).err.None?
    ensures Fold(e, os, c, w).c.address == LastAddress(os, c.address)
  {
    if os != [] {
      var init, o := os[..|os| - 1], os[|os| - 1];
      assert os == init + [o];
      FoldAppend(e, init, [o], c, w);
      FoldAddress(e, init, c, w);
      var a := Fold(e, init, c, w);
      assert [o][1..] == [] && Fold(e, [o], a.c, a.w) == Apply(e, o, a.c, a.w);
      ApplyAddress(e, o, a.c, a.w);
    }
  }

  /** An option that is no auth option fails exactly if it is an address that does not parse; it never
      makes a call, and sets what it names, and nothing else. */
  lemma SettingOutcome(e: Env, o: ClientOption, c: State, w: World)
    requires !IsAuth(o)
    ensures var a := Apply(e, o, c, w);
      && a.w == w
      && (a.err.Some? <==> o.Address? && !e.validAddress(o.address))
      && (a.err.Some? ==> a.err.value == BadAddress && a.c == c)
      && (a.err.None? ==>
            && a.c.apiToken == c.apiToken && a.c.fields == c.fields && a.c.auth == c.auth
            && a.c.address == (if o.Address? then o.address else c.address)
            && a.c.namespace == (if o.Namespace? && o.namespace != "" then o.namespace else c.namespace)
            && a.c.renewalSeconds == (if o.RenewalSeconds? then o.seconds else c.renewalSeconds)
            && (a.c.transitEngine, a.c.transitKey) ==
               if o.Transit? then (o.engine, o.key) else (c.transitEngine, c.transitKey))
  {
  }

  lemma ApplyAddress(e: Env, o: ClientOption, c: State, w: World)
    requires Apply(e, o, c, w).err.None?
    ensures Apply(e, o, c, w).c.address == if o.Address? then o.address else c.address
  {
    hide LoginCall, LocalCall, SourceToken;
  }

  /** Every login of a fold goes to the address that was set last before it in the list. */
  lemma LoginUsesAddressInForce(e: Env, pre: seq<ClientOption>, o: ClientOption, c: State, w: World)
    requires Fold(e, pre, c, w).err.None? && IsLogin(o)
    ensures var a := Fold(e, pre, c, w);
      var t := LoginAttempt(e, o, a.c, a.w);
      t.Some? ==> t.value.1.Login? && t.value.1.address == LastAddress(pre, c.address)
  {
    FoldAddress(e, pre, c, w);
  }

  // ----- the namespace in force

  function LastNamespace(os: seq<ClientOption>, initial: string): string {
    if os == [] then initial
    else
      var o := os[|os| - 1];
      if o.Namespace? && o.namespace != "" then o.namespace else LastNamespace(os[..|os| - 1], initial)
  }

  lemma ApplyNamespace(e: Env, o: ClientOption, c: State, w: World)
    requires Apply(e, o, c, w).err.None?
    ensures Apply(e, o, c, w).c.namespace == if o.Namespace? && o.namespace != "" then o.namespace else c.namespace
  {
    hide LoginCall, LocalCall, SourceToken;
  }

  lemma {:induction false} FoldNamespace(e: Env, os: seq<ClientOption>, c: State, w: World)
    requires Fold(e, os, c, w).err.None?
    ensures Fold(e, os, c, w).c.namespace == LastNamespace(os, c.namespace)
  {
    if os != [] {
      var init, o := os[..|os| - 1], os[|os| - 1];
      assert os == init + [o];
      FoldAppend(e, init, [o], c, w);
      FoldNamespace(e, init, c, w);
      var a := Fold(e, init, c, w);
      assert [o][1..] == [] && Fold(e, [o], a.c, a.w) == Apply(e, o, a.c, a.w);
      ApplyNamespace(e, o, a.c, a.w);
    }
  }

  /** A login of a fold carries the namespace that was set last before it in the list, if and only if it
      is no certificate login or the process environment sets that same namespace. */
  lemma LoginUsesNamespaceInForce(e: Env, pre: seq<ClientOption>, o: ClientOption, c: State, w: World)
    requires Fold(e, pre, c, w).err.None? && IsLogin(o)
    ensures var a := Fold(e, pre, c, w);
      var t := LoginAttempt(e, o, a.c, a.w);
      t.Some? ==>
        && t.value.1.Login?
        && (t.value.1.namespace == LastNamespace(pre, c.namespace)
            <==> !o.Cert? || e.namespace == LastNamespace(pre, c.namespace))
  {
    FoldNamespace(e, pre, c, w);
  }

  /** With a namespace option and none in the process environment, a certificate login goes to the root
      namespace, although all later calls of the client carry the option's. */
  lemma CertLoginLosesNamespace(e: Env, o: ClientOption, w: World)
    requires e.namespace == "" && o.Cert? && !e.brokenSdk && TurnAt(e, w).fails.None?
    ensures var a := Fold(e, [Namespace("team")], Blank(e, "https://vault", Given("")), w);
      && a.err.None? && a.c.namespace == "team"
      && LoginAttempt(e, o, a.c, a.w).Some? && LoginAttempt(e, o, a.c, a.w).value.1.namespace == ""
  {
    var os, c := [Namespace("team")], Blank(e, "https://vault", Given(""));
    assert os[1..] == [] && "team" != "";
    var a := Apply(e, os[0], c, w);
    assert Fold(e, os[1..], a.c, a.w) == Applied(a.w, a.c, None);
  }

  /** A client without a namespace option logs in to the namespace of the process environment, in
      whatever way. */
  lemma LoginFromEnvironment(
      e: Env, address: string, token: TokenId, pre: seq<ClientOption>, o: ClientOption, w: World)
    requires Fold(e, pre, Blank(e, address, token), w).err.None? && IsLogin(o)
    requires forall p :: p in pre ==> !p.Namespace?
    ensures var a := Fold(e, pre, Blank(e, address, token), w);
      var t := LoginAttempt(e, o, a.c, a.w);
      t.Some? ==> t.value.1.Login? && t.value.1.namespace == e.namespace
  {
    FoldNamespace(e, pre, Blank(e, address, token), w);
    NoNamespaceOption(pre, e.namespace);
  }

  lemma {:induction false} NoNamespaceOption(os: seq<ClientOption>, initial: string)
    requires forall o :: o in os ==> !o.Namespace?
    ensures LastNamespace(os, initial) == initial
  {
    if os != [] {
      assert os[|os| - 1] in os;
      NoNamespaceOption(os[..|os| - 1], initial);
    }
  }

  // ----- settings commute

  predicate IsSetting(o: ClientOption) {
    o.Transit? || o.RenewalSeconds?
  }

  function Set(c: State, s: ClientOption): State
    requires IsSetting(s)
  {
    if s.Transit? then c.(transitEngine := s.engine, transitKey := s.key) else c.(renewalSeconds := s.seconds)
  }

  predicate SameKind(s: ClientOption, o: ClientOption) {
    (s.Transit? && o.Transit?) || (s.RenewalSeconds? && o.RenewalSeconds?)
  }

  /** A setting does not influence what another option does, and is not influenced by it. */
  lemma ApplyIgnoresSetting(e: Env, s: ClientOption, o: ClientOption, c: State, w: World)
    requires IsSetting(s) && !SameKind(s, o)
    ensures var a := Apply(e, o, c, w); Apply(e, o, Set(c, s), w) == a.(c := Set(a.c, s))
  {
    hide LoginCall, LocalCall, SourceToken;
  }

  /** Over a list without settings of its kind, the setting can be made before or afterwards. */
  lemma {:induction false} FoldIgnoresSetting(e: Env, s: ClientOption, os: seq<ClientOption>, c: State, w: World)
    requires IsSetting(s) && forall o :: o in os ==> !SameKind(s, o)
    ensures var a := Fold(e, os, c, w); Fold(e, os, Set(c, s), w) == a.(c := Set(a.c, s))
  {
    if os != [] {
      ApplyIgnoresSetting(e, s, os[0], c, w);
      var a := Apply(e, os[0], c, w);
      hide Apply, Set, SameKind;
      assert forall o :: o in os[1..] ==> o in os;
      if a.err.None? {
        FoldIgnoresSetting(e, s, os[1..], a.c, a.w);
      }
    }
  }

  /** Making a setting alone. */
  lemma FoldOne(e: Env, s: ClientOption, c: State, w: World)
    requires IsSetting(s)
    ensures Fold(e, [s], c, w) == Applied(w, Set(c, s), None)
  {
    assert [s][1..] == [];
    assert Fold(e, [], Set(c, s), w) == Applied(w, Set(c, s), None);
  }

  /** Where a transit or renewal setting stands in the list makes no difference to NewClient, as long as
      it does not change places with a setting of its own kind. */
  lemma SettingsCommute(
      e: Env, pre: seq<ClientOption>, s: ClientOption, mid: seq<ClientOption>, post: seq<ClientOption>,
      c: State, w: World)
    requires IsSetting(s) && forall o :: o in mid ==> !SameKind(s, o)
    ensures Construct(e, pre + [s] + mid + post, c, w) == Construct(e, pre + mid + [s] + post, c, w)
  {
    FoldAppend(e, pre + [s] + mid, post, c, w);
    FoldAppend(e, pre + [s], mid, c, w);
    FoldAppend(e, pre, [s], c, w);
    FoldAppend(e, pre + mid + [s], post, c, w);
    FoldAppend(e, pre + mid, [s], c, w);
    FoldAppend(e, pre, mid, c, w);
    var b := Fold(e, pre, c, w);
    if b.err.None? {
      FoldIgnoresSetting(e, s, mid, b.c, b.w);
      FoldOne(e, s, b.c, b.w);
      var a := Fold(e, mid, b.c, b.w);
      FoldOne(e, s, a.c, a.w);
    }
    hide Fold, Set, SameKind;
  }

  // ----- JWT freshness

  /** The white space characters of Unicode, one by one. */
  predicate White(c: char) {
    c in {'\t', '\n', '\U{000B}', '\U{000C}', '\r', ' ', '\U{0085}', '\U{00A0}', '\U{1680}',
          '\U{2000}', '\U{2001}', '\U{2002}', '\U{2003}', '\U{2004}', '\U{2005}', '\U{2006}', '\U{2007}',
          '\U{2008}', '\U{2009}', '\U{200A}', '\U{2028}', '\U{2029}', '\U{202F}', '\U{205F}', '\U{3000}'}
  }

  lemma SpaceIsWhite(c: char)
    ensures IsSpace(c) <==> White(c)
  {
  }

  predicate AllWhite(s: string) {
    forall c :: c in s ==> White(c)
  }

  predicate Core(s: string) {
    s == "" || (!White(s[0]) && !White(s[|s| - 1]))
  }

  /** White space around a text vanishes, and the text stays. */
  lemma {:induction false} TrimsToCore(pre: string, core: string, post: string)
    requires AllWhite(pre) && AllWhite(post) && Core(core)
    ensures TrimSpace(pre + core + post) == core
    decreases |pre| + |post|
  {
    var s := pre + core + post;
    if pre != "" {
      assert pre[0] in pre && s[0] == pre[0];
      SpaceIsWhite(pre[0]);
      assert s[1..] == pre[1..] + core + post;
      TrimsToCore(pre[1..], core, post);
    } else if core == "" {
      if post != "" {
        assert post[0] in post && s[0] == post[0];
        SpaceIsWhite(post[0]);
        assert s[1..] == "" + core + post[1..];
        TrimsToCore("", core, post[1..]);
      }
    } else {
      assert s[0] == core[0];
      SpaceIsWhite(core[0]);
      if post == "" {
        SpaceIsWhite(core[|core| - 1]);
        assert s == core;
      } else {
        var last := post[|post| - 1];
        assert last in post && s[|s| - 1] == last;
        SpaceIsWhite(last);
        assert s[..|s| - 1] == "" + core + post[..|post| - 1];
        TrimsToCore("", core, post[..|post| - 1]);
      }
    }
  }

  predicate Trimmed(s: string) {
    s == "" || (!IsSpace(s[0]) && !IsSpace(s[|s| - 1]))
  }

  /** t is what remains of s when white space, and nothing else, is cut off in front of i and from j on. */
  ghost predicate Cut(s: string, t: string, i: nat, j: nat) {
    i <= j <= |s| && s[i..j] == t && forall k :: 0 <= k < i || j <= k < |s| ==> IsSpace(s[k])
  }

  /** Trimming cuts all the white space at both ends and nothing else. */
  lemma {:induction false} TrimSpaceMeaning(s: string) returns (i: nat, j: nat)
    ensures Trimmed(TrimSpace(s)) && Cut(s, TrimSpace(s), i, j)
    decreases |s|
  {
    if s == "" {
      i, j := 0, 0;
    } else if IsSpace(s[0]) {
      i, j := TrimSpaceMeaning(s[1..]);
      assert forall k :: 1 <= k < |s| ==> s[k] == s[1..][k - 1];
      i, j := i + 1, j + 1;
    } else if IsSpace(s[|s| - 1]) {
      i, j := TrimSpaceMeaning(s[..|s| - 1]);
    } else {
      i, j := 0, |s|;
    }
  }

  /** What a source holds in a given world, as it is sent. */
  function Holds(w: World, source: Source): Option<string> {
    match source
    case JwtFile(path) => if path in w.files then Some(TrimSpace(w.files[path])) else None
    case Spiffe(endpoint, audience, subject) =>
      if (endpoint, audience, subject) in w.svids then Some(w.svids[(endpoint, audience, subject)]) else None
  }

  /** Every JWT login, whenever it runs, asks its source exactly once. If the source fails that is all:
      Vault is not called. Otherwise exactly one login follows, and it carries what the source holds at
      the moment it is asked, whatever it held before. */
  lemma JwtIsFresh(e: Env, mount: string, role: string, source: Source, c: State, w: World)
    ensures var a := Apply(e, JwtLogin(mount, role, source), c, w);
      var asked := Arrive(e, w, AskOf(source));
      var jwt := if TurnAt(e, w).fails.Some? then None else Holds(asked, source);
      && (jwt.None? ==> a.w == asked && a.w.calls == w.calls + [AskOf(source)] && a.err == Some(BadSource))
      && (jwt.Some? ==>
            a.w.calls == w.calls + [AskOf(source), Login(c.address, c.namespace, mount, Jwt(role, jwt.value))])
  {
    ArriveKeeps(e, w, AskOf(source));
    var (w1, jwt) := SourceToken(e, w, source);
    if jwt.Some? {
      var call := Login(c.address, c.namespace, mount, Jwt(role, jwt.value));
      ArriveKeeps(e, w1, call);
      assert LoginCall(e, w1, call).0.calls == w1.calls + [call];
      assert w.calls + [AskOf(source)] + [call] == w.calls + [AskOf(source), call];
    }
  }

  /** A JWT login from a file sends the text of the file at that moment, without the white space around
      it. */
  lemma JwtFileIsSentTrimmed(
      e: Env, mount: string, role: string, path: string, pre: string, core: string, post: string, c: State, w: World)
    requires AllWhite(pre) && AllWhite(post) && Core(core) && TurnAt(e, w).fails.None?
    requires var files := Arrive(e, w, ReadJwtFile(path)).files; path in files && files[path] == pre + core + post
    ensures Apply(e, JwtLogin(mount, role, JwtFile(path)), c, w).w.calls ==
            w.calls + [ReadJwtFile(path), Login(c.address, c.namespace, mount, Jwt(role, core))]
  {
    TrimsToCore(pre, core, post);
    JwtIsFresh(e, mount, role, JwtFile(path), c, w);
    hide Apply, TrimSpace, Arrive;
  }
}
