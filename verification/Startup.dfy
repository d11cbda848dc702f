/** From validated flags to a client that the refresher can work with: one auth method, a usable source,
    and the options in the order in which NewPlugin passes them. */
module Startup {
  import opened Prelude
  import opened TokenVault
  import C = Client
  import opened ClientProofs
  import L = Lease
  import opened TickFacts
  import LR = LeaseRuns
  import Safety = LeaseSafety

  /** The flags that matter here; authMethod is already in lower case. */
  datatype Flags = Flags(
    vaultAddress: string, vaultNamespace: string, vaultCaCert: string, authMethod: string,
    token: string,
    appRoleMount: string, appRoleId: string, appRoleSecretId: string,
    userPassMount: string, username: string, password: string,
    certMount: string, certRole: string, certFile: string, certKey: string, certPem: string,
    jwtMount: string, jwtRole: string, jwtTokenPath: string, jwtTokenSource: string,
    spiffeEndpoint: string, spiffeAudience: string, spiffeId: string,
    refreshInterval: string, renewalSeconds: int, transitMount: string, transitKey: string,
    disableV1: bool, disableV2: bool)

  datatype FlagError = NoAddress | BadMethod | NoToken | NoAppRole | NoUserPass | NoCertRole | NoCertFiles | NoPlugin
                     | NoJwtRole | NoJwtPath | NoAudience | NoSpiffeId | BadSpiffeId | BadJwtSource | BadInterval

  function ValidateJwt(f: Flags, parseSubject: string -> Option<SpiffeId>): Option<FlagError> {
    if f.jwtRole == "" then Some(NoJwtRole)
    else if f.jwtTokenSource == "file" then (if f.jwtTokenPath == "" then Some(NoJwtPath) else None)
    else if f.jwtTokenSource == "spiffe" then
      (if f.spiffeAudience == "" then Some(NoAudience)
       else if f.spiffeId == "" then Some(NoSpiffeId)
       else if parseSubject(f.spiffeId).None? then Some(BadSpiffeId)
       else None)
    else Some(BadJwtSource)
  }

  /** validateFlags: the first complaint in the order of the program. */
  function Validate(f: Flags, parseSubject: string -> Option<SpiffeId>, parses: string -> bool): Option<FlagError> {
    var m := f.authMethod;
    if f.vaultAddress == "" then Some(NoAddress)
    else if m !in ["token", "approle", "userpass", "jwt", "cert"] then Some(BadMethod)
    else if m == "token" && f.token == "" then Some(NoToken)
    else if m == "approle" && (f.appRoleId == "" || f.appRoleSecretId == "") then Some(NoAppRole)
    else if m == "userpass" && (f.username == "" || f.password == "") then Some(NoUserPass)
    else if m == "cert" && f.certRole == "" then Some(NoCertRole)
    else if m == "cert" && f.certPem == "" && (f.certFile == "" || f.certKey == "") then Some(NoCertFiles)
    else if f.disableV1 && f.disableV2 then Some(NoPlugin)
    else
      var jwt := if m == "jwt" then ValidateJwt(f, parseSubject) else None;
      if jwt.Some? then jwt
      else if !parses(f.refreshInterval) then Some(BadInterval)
      else None
  }

  function JwtAuthOption(f: Flags): C.ClientOption {
    if f.jwtTokenSource == "file" then C.JwtAuth(f.jwtMount, f.jwtRole, f.jwtTokenPath)
    else C.SpiffeAuth(f.jwtMount, f.jwtRole, f.spiffeEndpoint, f.spiffeAudience, f.spiffeId)
  }

  /** The auth switch of NewPlugin; pem holds the two files split from a combined file, if one is used. */
  function AuthOption(f: Flags, pem: Option<(string, string)>): Option<C.ClientOption> {
    var (certFile, certKey) := if pem.Some? then pem.value else (f.certFile, f.certKey);
    if f.authMethod == "token" then Some(C.TokenAuth(f.token))
    else if f.authMethod == "approle" then Some(C.AppRole(f.appRoleMount, f.appRoleId, f.appRoleSecretId))
    else if f.authMethod == "userpass" then Some(C.UserPass(f.userPassMount, f.username, f.password))
    else if f.authMethod == "cert" then Some(C.Cert(f.certMount, f.certRole, certFile, certKey, f.vaultCaCert))
    else if f.authMethod == "jwt" then Some(JwtAuthOption(f))
    else None
  }

  function Options(f: Flags, auth: C.ClientOption): seq<C.ClientOption> {
    [C.Address(f.vaultAddress), C.Namespace(f.vaultNamespace), C.Transit(f.transitMount, f.transitKey),
     C.RenewalSeconds(f.renewalSeconds), auth]
  }

  /** An auth option with everything it needs. */
  predicate Usable(o: C.ClientOption, parseSubject: string -> Option<SpiffeId>) {
    match o
    case TokenAuth(t) => t != ""
    case AppRole(_, roleId, secretId) => roleId != "" && secretId != ""
    case UserPass(_, username, password) => username != "" && password != ""
    case Cert(_, role, certFile, keyFile, _) => role != "" && certFile != "" && keyFile != ""
    case JwtLogin(_, role, source) => role != "" && source.JwtFile? && source.path != ""
    case SpiffeAuth(_, role, _, audience, subject) =>
      role != "" && audience != "" && subject != "" && parseSubject(subject).Some?
    case _ => false
  }

  /** A combined file is split into two files with proper names exactly when one is configured. */
  predicate Fits(f: Flags, pem: Option<(string, string)>) {
    (pem.Some? <==> f.certPem != "") && (pem.Some? ==> pem.value.0 != "" && pem.value.1 != "")
  }

  /** Flags are valid if and only if there is an address, they select a usable auth option (with a known
      source if it is a JWT login), a service is enabled, and the interval parses. */
  lemma ValidFlagsSelectUsableAuth(f: Flags, e: Env, parses: string -> bool, pem: Option<(string, string)>)
    requires Fits(f, pem)
    ensures Validate(f, e.parseSubject, parses).None? <==>
      && f.vaultAddress != "" && parses(f.refreshInterval) && !(f.disableV1 && f.disableV2)
      && AuthOption(f, pem).Some? && Usable(AuthOption(f, pem).value, e.parseSubject)
      && (f.authMethod == "jwt" ==> f.jwtTokenSource == "file" || f.jwtTokenSource == "spiffe")
  {
  }

  /** The credentials that the selected method needs are there. */
  predicate HasCredentials(f: Flags) {
    && (f.authMethod == "token" ==> f.token != "")
    && (f.authMethod == "approle" ==> f.appRoleId != "" && f.appRoleSecretId != "")
    && (f.authMethod == "userpass" ==> f.username != "" && f.password != "")
    && (f.authMethod == "cert" ==> f.certRole != "" && (f.certPem != "" || (f.certFile != "" && f.certKey != "")))
  }

  /** Every complaint about the flags is made exactly when it is true and none in front of it is. */
  lemma ComplaintsAreTrue(f: Flags, e: Env, parses: string -> bool)
    ensures var r, m := Validate(f, e.parseSubject, parses), f.authMethod;
      var known := f.vaultAddress != "" && m in {"token", "approle", "userpass", "jwt", "cert"};
      var enabled := known && HasCredentials(f) && !(f.disableV1 && f.disableV2);
      var jwt := enabled && m == "jwt" && f.jwtRole != "";
      && (r == Some(NoAddress) <==> f.vaultAddress == "")
      && (r == Some(BadMethod) <==> f.vaultAddress != "" && !known)
      && (r == Some(NoToken) <==> known && m == "token" && f.token == "")
      && (r == Some(NoAppRole) <==> known && m == "approle" && (f.appRoleId == "" || f.appRoleSecretId == ""))
      && (r == Some(NoUserPass) <==> known && m == "userpass" && (f.username == "" || f.password == ""))
      && (r == Some(NoCertRole) <==> known && m == "cert" && f.certRole == "")
      && (r == Some(NoCertFiles) <==> known && m == "cert" && f.certRole != "" && !HasCredentials(f))
      && (r == Some(NoPlugin) <==> known && HasCredentials(f) && f.disableV1 && f.disableV2)
      && (r == Some(NoJwtRole) <==> enabled && m == "jwt" && f.jwtRole == "")
      && (r == Some(NoJwtPath) <==> jwt && f.jwtTokenSource == "file" && f.jwtTokenPath == "")
      && (r == Some(NoAudience) <==> jwt && f.jwtTokenSource == "spiffe" && f.spiffeAudience == "")
      && (r == Some(NoSpiffeId) <==>
            jwt && f.jwtTokenSource == "spiffe" && f.spiffeAudience != "" && f.spiffeId == "")
      && (r == Some(BadSpiffeId) <==>
            jwt && f.jwtTokenSource == "spiffe" && f.spiffeAudience != "" && f.spiffeId != ""
            && e.parseSubject(f.spiffeId).None?)
      && (r == Some(BadJwtSource) <==> jwt && f.jwtTokenSource !in {"file", "spiffe"})
      && (r == Some(BadInterval) ==> enabled && !parses(f.refreshInterval))
      && (r.None? ==> enabled && parses(f.refreshInterval))
  {
  }

  /** Flags that pass validation select exactly one auth method. */
  lemma ValidFlagsSelectOneMethod(f: Flags, e: Env, parses: string -> bool, pem: Option<(string, string)>)
    requires Validate(f, e.parseSubject, parses).None?
    ensures var o := AuthOption(f, pem);
      o.Some? && C.IsAuth(o.value) && (C.IsLogin(o.value) <==> f.authMethod != "token")
  {
  }

  lemma FoldLast(e: Env, os: seq<C.ClientOption>, o: C.ClientOption, c: C.State, w: World)
    requires C.Fold(e, os + [o], c, w).err.None?
    ensures var b := C.Fold(e, os, c, w); b.err.None? && C.Fold(e, os + [o], c, w) == C.Apply(e, o, b.c, b.w)
  {
    FoldAppend(e, os, [o], c, w);
    var b := C.Fold(e, os, c, w);
    assert [o][1..] == [];
    if b.err.None? {
      assert C.Fold(e, [o], b.c, b.w) == C.Apply(e, o, b.c, b.w);
    }
  }

  /** The auth option of a list that has no other one before it sets the client up for the refresher. */
  lemma AuthSetsUp(e: Env, o: C.ClientOption, c: C.State, w: World)
    requires C.IsAuth(o) && c.auth.None? && C.Apply(e, o, c, w).err.None?
    ensures var c' := C.Apply(e, o, c, w).c;
      && c'.auth == Some(Stored(e, o)) && SingleAuth(c') && LR.Carries(c')
      && c' == c.(fields := c'.fields, apiToken := c'.apiToken, auth := c'.auth)
  {
    AuthOutcome(e, o, c, w);
    AuthIsCapturedOnce(e, o, c, w);
    hide LoginCall, LocalCall, C.SourceToken;
  }

  /** The remembered login parameters are those of the flags, and so is what the captured login uses
      beyond them. */
  predicate Configured(f: Flags, e: Env, pem: Option<(string, string)>, c: C.State) {
    var l := c.fields;
    match f.authMethod
    case "token" => l.token == f.token
    case "approle" =>
      l.appRoleMount == f.appRoleMount && l.appRoleId == f.appRoleId && l.appRoleSecretId == f.appRoleSecretId
    case "userpass" => l.userPassMount == f.userPassMount && l.username == f.username && l.password == f.password
    case "cert" =>
      && l.certMount == f.certMount && l.certRole == f.certRole
      && ((l.certFile, l.certKey) == if pem.Some? then pem.value else (f.certFile, f.certKey))
      && c.auth.Some? && c.auth.value.Cert? && c.auth.value.caFile == f.vaultCaCert
    case _ =>
      && l.jwtMount == f.jwtMount && l.jwtRole == f.jwtRole
      && c.auth.Some? && c.auth.value.JwtLogin?
      && match c.auth.value.source
         case JwtFile(path) => f.jwtTokenSource == "file" && path == f.jwtTokenPath
         case Spiffe(endpoint, audience, subject) =>
           && f.jwtTokenSource == "spiffe" && endpoint == f.spiffeEndpoint && audience == f.spiffeAudience
           && e.parseSubject(f.spiffeId) == Some(subject)
  }

  lemma CarriedIsConfigured(f: Flags, e: Env, parses: string -> bool, pem: Option<(string, string)>, c: C.State)
    requires Validate(f, e.parseSubject, parses).None? && LR.Carries(c)
    requires c.auth == Some(Stored(e, AuthOption(f, pem).value))
    ensures Configured(f, e, pem, c)
  {
  }

  lemma FoldFirst(e: Env, o: C.ClientOption, os: seq<C.ClientOption>, c: C.State, w: World)
    ensures var a := C.Apply(e, o, c, w);
      C.Fold(e, [o] + os, c, w) == if a.err.Some? then a else C.Fold(e, os, a.c, a.w)
  {
    assert ([o] + os)[1..] == os;
    hide C.Apply;
  }

  /** The settings of NewPlugin fail exactly if the address does not parse, and set what the flags say. */
  lemma SettingsAreSet(f: Flags, e: Env, o: C.ClientOption, c0: C.State, w: World)
    ensures var a := C.Fold(e, Options(f, o)[..4], c0, w);
      && a.w == w && a.c.auth == c0.auth && (a.err.None? <==> e.validAddress(f.vaultAddress))
      && (a.err.None? ==>
            && a.c.address == f.vaultAddress
            && a.c.transitEngine == f.transitMount && a.c.transitKey == f.transitKey
            && a.c.renewalSeconds == f.renewalSeconds
            && a.c.namespace == (if f.vaultNamespace != "" then f.vaultNamespace else c0.namespace))
  {
    var x, y := C.Address(f.vaultAddress), C.Namespace(f.vaultNamespace);
    var z, t := C.Transit(f.transitMount, f.transitKey), C.RenewalSeconds(f.renewalSeconds);
    assert Options(f, o)[..4] == [x] + [y, z, t];
    FoldFirst(e, x, [y, z, t], c0, w);
    var a := C.Apply(e, x, c0, w);
    if a.err.None? {
      var b := C.Apply(e, y, a.c, w);
      var d := C.Apply(e, z, b.c, w);
      var g := C.Apply(e, t, d.c, w);
      assert [y, z, t] == [y] + [z, t] && [z, t] == [z] + [t] && [t] == [t] + [];
      FoldFirst(e, y, [z, t], a.c, w);
      FoldFirst(e, z, [t], b.c, w);
      FoldFirst(e, t, [], d.c, w);
      assert C.Fold(e, [], g.c, w) == g;
    }
  }

  /** Successful construction is the auth option applied to the set-up client, then the verification. */
  lemma ConstructionEnds(f: Flags, e: Env, o: C.ClientOption, c0: C.State, w: World)
    requires C.Construct(e, Options(f, o), c0, w).1.Ok?
    ensures var (w', r) := C.Construct(e, Options(f, o), c0, w);
      var b := C.Fold(e, Options(f, o)[..4], c0, w);
      var a := C.Apply(e, o, b.c, b.w);
      && b.err.None? && a.err.None? && b.w == w && r.value == a.c
      && LookupSelf(e, a.w, a.c.apiToken).0 == w' && LookupSelf(e, a.w, a.c.apiToken).1.LookedUp?
  {
    assert Options(f, o) == Options(f, o)[..4] + [o];
    FoldLast(e, Options(f, o)[..4], o, c0, w);
    SettingsAreSet(f, e, o, c0, w);
    hide C.Fold, C.Apply, LookupSelf, Options;
  }

  /** A client built from validated flags holds exactly the configured settings, has captured the
      configured login as its only one, remembers its parameters, and holds a token that Vault has just
      confirmed. If it logged in, that token is new, with a full lifetime counted from the start-up. */
  lemma StartedClientIsReady(
      f: Flags, e: Env, parses: string -> bool, pem: Option<(string, string)>, c0: C.State, w: World, m: L.Metrics)
    requires Validate(f, e.parseSubject, parses).None? && c0.auth.None?
    requires C.Construct(e, Options(f, AuthOption(f, pem).value), c0, w).1.Ok?
    ensures var (w', r) := C.Construct(e, Options(f, AuthOption(f, pem).value), c0, w);
      var c := r.value;
      && SingleAuth(c) && LR.Carries(c) && (LoginBased(c) <==> f.authMethod != "token")
      && c.address == f.vaultAddress && c.transitEngine == f.transitMount && c.transitKey == f.transitKey
      && c.renewalSeconds == f.renewalSeconds
      && c.namespace == (if f.vaultNamespace != "" then f.vaultNamespace else c0.namespace)
      && Configured(f, e, pem, c)
      && IsAlive(w', c.apiToken) && w.now <= w'.now
      && (WellFormed(w) ==> Ready(L.State(w', c, m)))
      && (f.authMethod != "token" ==> FreshLease(e, w.now, w'.now, w'.tokens[c.apiToken]))
  {
    ValidFlagsSelectOneMethod(f, e, parses, pem);
    var o := AuthOption(f, pem).value;
    ConstructionEnds(f, e, o, c0, w);
    SettingsAreSet(f, e, o, c0, w);
    var b := C.Fold(e, Options(f, o)[..4], c0, w);
    var a := C.Apply(e, o, b.c, b.w);
    hide Validate, AuthOption, Options, C.Construct, C.Fold;
    AuthSetsUp(e, o, b.c, b.w);
    if C.IsLogin(o) {
      LoginMeaning(e, o, b.c, b.w);
    } else {
      ApplyToken(e, o, b.c, b.w);
    }
    hide C.Apply;
    CarriedIsConfigured(f, e, parses, pem, a.c);
    LookupMeaning(e, a.w, a.c.apiToken);
    LookupKeeps(e, a.w, a.c.apiToken);
    hide LookupSelf, Configured, LR.Carries;
  }

  /** From flags to the end of any run: if the flags are valid, the client could be made, and making it
      took at most half of the least lifetime (or, for token auth, the given token has enough time left),
      then under the bound the token in use never lapses, in whatever way the ticks go. */
  lemma StartedProgramNeverLapses(
      f: Flags, e: Env, parses: string -> bool, pem: Option<(string, string)>, c0: C.State, w: World, m: L.Metrics,
      n: nat, b: Safety.Bounds)
    requires Validate(f, e.parseSubject, parses).None? && c0.auth.None? && WellFormed(w)
    requires C.Construct(e, Options(f, AuthOption(f, pem).value), c0, w).1.Ok?
    requires Safety.Safe(b) && Safety.GrantsEnough(e, b)
    requires var (w', r) := C.Construct(e, Options(f, AuthOption(f, pem).value), c0, w);
      var s := L.State(w', r.value, m);
      && (f.authMethod == "token" ==> Safety.StartsFresh(s, b))
      && (f.authMethod != "token" ==> 2 * (w'.now - w.now) <= b.creation)
      && (s.c.auth.Some? ==>
            && Safety.Paced(s.w.now, L.Run(e, s, n).1, b)
            && forall i :: 0 <= i <= n ==> Safety.TrailingBad(s.c, L.Run(e, s, n).1[..i]) <= b.badTicks)
    ensures var (w', r) := C.Construct(e, Options(f, AuthOption(f, pem).value), c0, w);
      var s := L.State(w', r.value, m);
      s.c.auth.Some? && Safety.NeverLapses(e, s, n, b)
  {
    StartedClientIsReady(f, e, parses, pem, c0, w, m);
    var (w', r) := C.Construct(e, Options(f, AuthOption(f, pem).value), c0, w);
    var s := L.State(w', r.value, m);
    hide C.Construct, Validate, AuthOption, L.Run, Configured, LR.Carries;
    Safety.SafeRunsNeverLapse(e, s, n, b);
    hide Safety.Safe;
  }
}
