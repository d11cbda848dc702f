/** The client: options that configure it and log it in, the login function that the first login
    captures, and the constructor that folds the options. */
module Client {
  import opened Prelude
  import opened TokenVault

  /** Where a JWT comes from at every login. A SPIFFE subject is held in its parsed form. */
  datatype Source = JwtFile(path: string) | Spiffe(endpoint: string, audience: string, subject: SpiffeId)

  /** The options, as data. JwtLogin is what WithJWTAuth returns and what both JWT options store. */
  datatype ClientOption =
    | Address(address: string)
    | Namespace(namespace: string)
    | Transit(engine: string, key: string)
    | RenewalSeconds(seconds: int)
    | TokenAuth(token: string)
    | AppRole(mount: string, roleId: string, secretId: string)
    | UserPass(mount: string, username: string, password: string)
    | Cert(mount: string, role: string, certFile: string, keyFile: string, caFile: string)
    | JwtLogin(mount: string, role: string, source: Source)
    | SpiffeAuth(mount: string, role: string, endpoint: string, audience: string, subjectText: string)

  function JwtAuth(mount: string, role: string, path: string): ClientOption {
    JwtLogin(mount, role, JwtFile(path))
  }

  datatype ClientError =
    | NoSdkClient | BadAddress | BadSubject | BadSource | BadTls
    | LoginError(error: VaultError) | EmptyAuth | CannotConnect(error: VaultError)

  /** The parameters of the login methods, as the client remembers them. */
  datatype Fields = Fields(
    token: string,
    appRoleMount: string, appRoleId: string, appRoleSecretId: string,
    userPassMount: string, username: string, password: string,
    certMount: string, certRole: string, certFile: string, certKey: string,
    jwtMount: string, jwtRole: string)

  /** A client. apiToken, address and namespace are those of the API client inside. */
  datatype State = State(
    apiToken: TokenId, address: string, namespace: string, fields: Fields,
    auth: Option<ClientOption>, renewalSeconds: int, transitEngine: string, transitKey: string)

  predicate IsAuth(o: ClientOption) {
    o.TokenAuth? || IsLogin(o)
  }

  predicate IsLogin(o: ClientOption) {
    o.AppRole? || o.UserPass? || o.Cert? || o.JwtLogin? || o.SpiffeAuth?
  }

  // ----- JWT sources

  /** White space as Unicode defines it. */
  predicate IsSpace(c: char) {
    var n := c as int;
    9 <= n <= 13 || n == 0x20 || n == 0x85 || n == 0xA0 || n == 0x1680 || 0x2000 <= n <= 0x200A
    || n == 0x2028 || n == 0x2029 || n == 0x202F || n == 0x205F || n == 0x3000
  }

  function TrimSpace(s: string): string {
    if s == "" then ""
    else if IsSpace(s[0]) then TrimSpace(s[1..])
    else if IsSpace(s[|s| - 1]) then TrimSpace(s[..|s| - 1])
    else s
  }

  function SourceToken(e: Env, w: World, source: Source): (World, Option<string>) {
    match source
    case JwtFile(path) =>
      var (w', text) := AskFile(e, w, path);
      (w', if text.None? then None else Some(TrimSpace(text.value)))
    case Spiffe(endpoint, audience, subject) => AskSpiffe(e, w, endpoint, audience, subject)
  }

  // ----- applying an option

  /** The world, the client and what the option returned. Fields set before a failure stay set. */
  datatype Applied = Applied(w: World, c: State, err: Option<ClientError>)

  /** Installs a token and captures the login function if there is none yet. */
  function Install(c: State, token: TokenId, self: ClientOption): State {
    c.(apiToken := token, auth := if c.auth.None? then Some(self) else c.auth)
  }

  /** What follows a login call for the methods that trust the answer to have an auth section. */
  function Finish(answer: (World, LoginReply), c: State, self: ClientOption): Applied {
    match answer.1
    case LoginFailed(x) => Applied(answer.0, c, Some(LoginError(x)))
    case NoAuth => Applied(answer.0, c, Some(EmptyAuth))
    case Granted(token) => Applied(answer.0, Install(c, token, self), None)
  }

  function JwtSteps(e: Env, mount: string, role: string, source: Source, c: State, w: World): Applied {
    var c1 := c.(fields := c.fields.(jwtMount := mount, jwtRole := role));
    var (w1, jwt) := SourceToken(e, w, source);
    if jwt.None? then Applied(w1, c1, Some(BadSource))
    else
      var call := Login(c.address, c.namespace, mount, Jwt(role, jwt.value));
      Finish(LoginCall(e, w1, call), c1, JwtLogin(mount, role, source))
  }

  function TokenSteps(token: string, c: State): State {
    var c1 := c.(fields := c.fields.(token := token));
    Install(c1, if token != "" then Given(token) else c.apiToken, TokenAuth(token))
  }

  function AppRoleSteps(e: Env, mount: string, roleId: string, secretId: string, c: State, w: World): Applied {
    var c1 := c.(fields := c.fields.(appRoleMount := mount, appRoleId := roleId, appRoleSecretId := secretId));
    var call := Login(c.address, c.namespace, mount, RoleSecret(roleId, secretId));
    Finish(LoginCall(e, w, call), c1, AppRole(mount, roleId, secretId))
  }

  function UserPassSteps(e: Env, mount: string, username: string, password: string, c: State, w: World): Applied {
    var c1 := c.(fields := c.fields.(userPassMount := mount, username := username, password := password));
    var call := Login(c.address, c.namespace, mount, Password(username, password));
    Finish(LoginCall(e, w, call), c1, UserPass(mount, username, password))
  }

  /** The temporary client that presents the certificate takes over the address and nothing else: its
      namespace is that of the process environment. */
  function CertSteps(
      e: Env, mount: string, role: string, certFile: string, keyFile: string, caFile: string, c: State, w: World)
    : Applied
  {
    var c1 := c.(fields := c.fields.(certMount := mount, certRole := role, certFile := certFile, certKey := keyFile));
    var (w1, err) := LocalCall(e, w, ConfigureTls(certFile, keyFile, caFile));
    if err.Some? then Applied(w1, c1, Some(BadTls))
    else if e.brokenSdk then Applied(w1, c1, Some(NoSdkClient))
    else
      var call := Login(c.address, e.namespace, mount, Certificate(role, certFile, keyFile));
      Finish(LoginCall(e, w1, call), c1, Cert(mount, role, certFile, keyFile, caFile))
  }

  function Apply(e: Env, o: ClientOption, c: State, w: World): Applied {
    match o
    case Address(a) => if e.validAddress(a) then Applied(w, c.(address := a), None) else Applied(w, c, Some(BadAddress))
    case Namespace(n) => Applied(w, if n != "" then c.(namespace := n) else c, None)
    case Transit(engine, key) => Applied(w, c.(transitEngine := engine, transitKey := key), None)
    case RenewalSeconds(n) => Applied(w, c.(renewalSeconds := n), None)
    case TokenAuth(t) => Applied(w, TokenSteps(t, c), None)
    case AppRole(mount, roleId, secretId) => AppRoleSteps(e, mount, roleId, secretId, c, w)
    case UserPass(mount, username, password) => UserPassSteps(e, mount, username, password, c, w)
    case Cert(mount, role, certFile, keyFile, caFile) => CertSteps(e, mount, role, certFile, keyFile, caFile, c, w)
    case JwtLogin(mount, role, source) => JwtSteps(e, mount, role, source, c, w)
    case SpiffeAuth(mount, role, endpoint, audience, text) =>
      match e.parseSubject(text)
      case None => Applied(w, c, Some(BadSubject))
      case Some(subject) => JwtSteps(e, mount, role, Spiffe(endpoint, audience, subject), c, w)
  }

  /** The options of a list one after the other, up to the first error. */
  function Fold(e: Env, os: seq<ClientOption>, c: State, w: World): Applied {
    if os == [] then Applied(w, c, None)
    else
      var a := Apply(e, os[0], c, w);
      if a.err.Some? then a else Fold(e, os[1..], a.c, a.w)
  }

  /** A client before any option; address, namespace and token come from the process environment. */
  function Blank(e: Env, address: string, apiToken: TokenId): State {
    State(apiToken, address, e.namespace, Fields("", "", "", "", "", "", "", "", "", "", "", "", ""), None, 0, "", "")
  }

  /** NewClient: a client of the SDK, the fold, then a lookup that verifies the token. */
  function Construct(e: Env, os: seq<ClientOption>, c: State, w: World): (World, Result<State, ClientError>) {
    var a := Fold(e, os, c, w);
    if e.brokenSdk then (w, Err(NoSdkClient))
    else if a.err.Some? then (a.w, Err(a.err.value))
    else
      var (w', reply) := LookupSelf(e, a.w, a.c.apiToken);
      (w', if reply.LookupFailed? then Err(CannotConnect(reply.error)) else Ok(a.c))
  }

  // ----- the objects

  class Outside {
    const env: Env
    var world: World

    constructor (env: Env, world: World)
      ensures this.env == env && this.world == world
    {
      this.env, this.world := env, world;
    }

    method Lookup(token: TokenId) returns (reply: LookupReply)
      modifies this
      ensures (world, reply) == LookupSelf(env, old(world), token)
    {
      var (w, r) := LookupSelf(env, world, token);
      world, reply := w, r;
    }

    method Renew(token: TokenId, increment: int) returns (err: Option<VaultError>)
      modifies this
      ensures (world, err) == RenewSelf(env, old(world), token, increment)
    {
      var (w, r) := RenewSelf(env, world, token, increment);
      world, err := w, r;
    }

    method Login(call: Call) returns (reply: LoginReply)
      modifies this
      ensures (world, reply) == LoginCall(env, old(world), call)
    {
      var (w, r) := LoginCall(env, world, call);
      world, reply := w, r;
    }

    method Local(call: Call) returns (err: Option<VaultError>)
      modifies this
      ensures (world, err) == LocalCall(env, old(world), call)
    {
      var (w, r) := LocalCall(env, world, call);
      world, err := w, r;
    }

    method Token(source: Source) returns (jwt: Option<string>)
      modifies this
      ensures (world, jwt) == SourceToken(env, old(world), source)
    {
      var (w, r) := SourceToken(env, world, source);
      world, jwt := w, r;
    }
  }

  class VaultClient {
    const outside: Outside
    var apiToken: TokenId
    var address: string
    var namespace: string
    var token: string
    var appRoleMount: string
    var appRoleId: string
    var appRoleSecretId: string
    var userPassMount: string
    var username: string
    var password: string
    var certMount: string
    var certRole: string
    var certFile: string
    var certKey: string
    var jwtMount: string
    var jwtRole: string
    var auth: Option<ClientOption>
    var renewalSeconds: int
    var transitEngine: string
    var transitKey: string

    function Remembered(): Fields
      reads this
    {
      Fields(token, appRoleMount, appRoleId, appRoleSecretId, userPassMount, username, password,
             certMount, certRole, certFile, certKey, jwtMount, jwtRole)
    }

    function Now(): State
      reads this
    {
      State(apiToken, address, namespace, Remembered(), auth, renewalSeconds, transitEngine, transitKey)
    }

    constructor (outside: Outside, address: string, apiToken: TokenId)
      ensures this.outside == outside && Now() == Blank(outside.env, address, apiToken)
    {
      this.outside, this.address, this.namespace, this.apiToken := outside, address, outside.env.namespace, apiToken;
      token, appRoleMount, appRoleId, appRoleSecretId := "", "", "", "";
      userPassMount, username, password := "", "", "";
      certMount, certRole, certFile, certKey, jwtMount, jwtRole := "", "", "", "", "", "";
      auth, renewalSeconds, transitEngine, transitKey := None, 0, "", "";
    }

    /** SetToken, and the capture of the login function behind it. */
    method SetToken(t: TokenId, self: ClientOption)
      modifies `apiToken, `auth
      ensures Now() == Install(old(Now()), t, self)
    {
      apiToken := t;
      if auth.None? {
        auth := Some(self);
      }
    }

    method UseToken(t: string)
      modifies `token, `apiToken, `auth
      ensures Now() == TokenSteps(t, old(Now()))
    {
      token := t;
      if t != "" {
        apiToken := Given(t);
      }
      if auth.None? {
        auth := Some(TokenAuth(t));
      }
    }

    method RememberAppRole(mount: string, roleId: string, secretId: string)
      modifies `appRoleMount, `appRoleId, `appRoleSecretId
      ensures Remembered() ==
              old(Remembered()).(appRoleMount := mount, appRoleId := roleId, appRoleSecretId := secretId)
      ensures Now() == old(Now()).(fields := Remembered())
    {
      appRoleId := roleId;
      appRoleMount := mount;
      appRoleSecretId := secretId;
    }

    method LoginAppRole(mount: string, roleId: string, secretId: string) returns (err: Option<ClientError>)
      modifies this, outside
      ensures Applied(outside.world, Now(), err) ==
              AppRoleSteps(outside.env, mount, roleId, secretId, old(Now()), old(outside.world))
    {
      hide LoginCall;
      RememberAppRole(mount, roleId, secretId);
      var s := outside.Login(Login(address, namespace, mount, RoleSecret(roleId, secretId)));
      err := Conclude(s, AppRole(mount, roleId, secretId));
    }

    method RememberUserPass(mount: string, user: string, pass: string)
      modifies `userPassMount, `username, `password
      ensures Remembered() == old(Remembered()).(userPassMount := mount, username := user, password := pass)
      ensures Now() == old(Now()).(fields := Remembered())
    {
      userPassMount := mount;
      username := user;
      password := pass;
    }

    method LoginUserPass(mount: string, user: string, pass: string) returns (err: Option<ClientError>)
      modifies this, outside
      ensures Applied(outside.world, Now(), err) ==
              UserPassSteps(outside.env, mount, user, pass, old(Now()), old(outside.world))
    {
      hide LoginCall;
      RememberUserPass(mount, user, pass);
      var s := outside.Login(Login(address, namespace, mount, Password(user, pass)));
      err := Conclude(s, UserPass(mount, user, pass));
    }

    method RememberCert(mount: string, role: string, cert: string, key: string)
      modifies `certMount, `certRole, `certFile, `certKey
      ensures Remembered() == old(Remembered()).(certMount := mount, certRole := role, certFile := cert, certKey := key)
      ensures Now() == old(Now()).(fields := Remembered())
    {
      certMount := mount;
      certRole := role;
      certFile := cert;
      certKey := key;
    }

    method LoginCert(mount: string, role: string, cert: string, key: string, ca: string)
      returns (err: Option<ClientError>)
      modifies this, outside
      ensures Applied(outside.world, Now(), err) ==
              CertSteps(outside.env, mount, role, cert, key, ca, old(Now()), old(outside.world))
    {
      hide LoginCall, LocalCall;
      RememberCert(mount, role, cert, key);
      var tls := outside.Local(ConfigureTls(cert, key, ca));
      if tls.Some? {
        return Some(BadTls);
      }
      if outside.env.brokenSdk {
        return Some(NoSdkClient);
      }
      var s := outside.Login(Login(address, outside.env.namespace, mount, Certificate(role, cert, key)));
      err := Conclude(s, Cert(mount, role, cert, key, ca));
    }

    method RememberJwt(mount: string, role: string)
      modifies `jwtMount, `jwtRole
      ensures Remembered() == old(Remembered()).(jwtMount := mount, jwtRole := role)
      ensures Now() == old(Now()).(fields := Remembered())
    {
      jwtMount := mount;
      jwtRole := role;
    }

    method LoginJwt(mount: string, role: string, source: Source) returns (err: Option<ClientError>)
      modifies this, outside
      ensures Applied(outside.world, Now(), err) ==
              JwtSteps(outside.env, mount, role, source, old(Now()), old(outside.world))
    {
      hide LoginCall, SourceToken;
      RememberJwt(mount, role);
      var jwt := outside.Token(source);
      if jwt.None? {
        return Some(BadSource);
      }
      var s := outside.Login(Login(address, namespace, mount, Jwt(role, jwt.value)));
      err := Conclude(s, JwtLogin(mount, role, source));
    }

    method Conclude(s: LoginReply, self: ClientOption) returns (err: Option<ClientError>)
      modifies `apiToken, `auth
      ensures Applied(outside.world, Now(), err) == Finish((outside.world, s), old(Now()), self)
    {
      match s
      case LoginFailed(x) => err := Some(LoginError(x));
      case NoAuth => err := Some(EmptyAuth);
      case Granted(t) =>
        SetToken(t, self);
        err := None;
    }

    /** The options that are no logins. */
    method Configure(o: ClientOption) returns (err: Option<ClientError>)
      requires !IsAuth(o)
      modifies `address, `namespace, `transitEngine, `transitKey, `renewalSeconds
      ensures Applied(outside.world, Now(), err) == Apply(outside.env, o, old(Now()), old(outside.world))
    {
      err := None;
      match o
      case Address(a) =>
        if outside.env.validAddress(a) {
          address := a;
        } else {
          err := Some(BadAddress);
        }
      case Namespace(n) =>
        if n != "" {
          namespace := n;
        }
      case Transit(engine, key) =>
        transitEngine := engine;
        transitKey := key;
      case RenewalSeconds(n) => renewalSeconds := n;
    }

    /** Calling an option with this client. */
    method Use(o: ClientOption) returns (err: Option<ClientError>)
      modifies this, outside
      ensures Applied(outside.world, Now(), err) == Apply(outside.env, o, old(Now()), old(outside.world))
    {
      hide AppRoleSteps, UserPassSteps, CertSteps, JwtSteps, TokenSteps;
      err := None;
      match o
      case TokenAuth(t) => UseToken(t);
      case AppRole(mount, roleId, secretId) => err := LoginAppRole(mount, roleId, secretId);
      case UserPass(mount, user, pass) => err := LoginUserPass(mount, user, pass);
      case Cert(mount, role, cert, key, ca) => err := LoginCert(mount, role, cert, key, ca);
      case JwtLogin(mount, role, source) => err := LoginJwt(mount, role, source);
      case SpiffeAuth(mount, role, endpoint, audience, text) =>
        var subject := outside.env.parseSubject(text);
        if subject.None? {
          err := Some(BadSubject);
        } else {
          err := LoginJwt(mount, role, Spiffe(endpoint, audience, subject.value));
        }
      case _ => err := Configure(o);
    }
  }

  method NewClient(outside: Outside, address: string, apiToken: TokenId, os: seq<ClientOption>)
    returns (r: Result<VaultClient, ClientError>)
    modifies outside
    ensures r.Ok? ==> fresh(r.value) && r.value.outside == outside
    ensures (outside.world, if r.Ok? then Ok(r.value.Now()) else Err(r.error)) ==
            Construct(outside.env, os, Blank(outside.env, address, apiToken), old(outside.world))
  {
    if outside.env.brokenSdk {
      return Err(NoSdkClient);
    }
    var client := new VaultClient(outside, address, apiToken);
    ghost var folded := Fold(outside.env, os, client.Now(), outside.world);
    for i := 0 to |os|
      invariant Fold(outside.env, os[i..], client.Now(), outside.world) == folded
    {
      assert os[i..][1..] == os[i + 1..];
      var err := client.Use(os[i]);
      if err.Some? {
        return Err(err.value);
      }
    }
    var reply := outside.Lookup(client.apiToken);
    if reply.LookupFailed? {
      return Err(CannotConnect(reply.error));
    }
    return Ok(client);
  }
}
