/** The world a client talks to: Vault's tokens, the sources of login credentials, and time. The
    environment acts before every call; a schedule says how, and how each call goes. */
module TokenVault {
  import opened Prelude

  /** A token the operator supplies, or one that Vault issues at a login. */
  datatype TokenId = Given(text: string) | Issued(serial: nat)

  /** creation is the lifetime at creation in seconds; 0 means that the token never expires. */
  datatype Lease = Lease(creation: nat, expiry: int, revoked: bool)

  predicate Alive(l: Lease, now: int) {
    !l.revoked && (l.creation == 0 || now < l.expiry)
  }

  function Ttl(l: Lease, now: int): int {
    if l.creation == 0 then 0 else l.expiry - now
  }

  /** A SPIFFE ID in its parsed form. */
  datatype SpiffeId = SpiffeId(trustDomain: string, path: string)

  datatype VaultError = Status(code: int) | Transport(text: string)

  datatype EnvStep =
    | Elapse(seconds: nat)
    | Revoke(token: TokenId)
    | WriteFile(path: string, text: string)
    | DeleteFile(path: string)
    | SetSvid(endpoint: string, audience: string, subject: SpiffeId, text: string)

  datatype Credentials =
    | RoleSecret(roleId: string, secretId: string)
    | Password(username: string, password: string)
    | Certificate(name: string, certFile: string, keyFile: string)
    | Jwt(role: string, text: string)

  datatype Call =
    | Lookup(token: TokenId)
    | Renew(token: TokenId, increment: int)
    | Login(address: string, namespace: string, mount: string, credentials: Credentials)
    | ReadJwtFile(path: string)
    | FetchSvid(endpoint: string, audience: string, subject: SpiffeId)
    | ConfigureTls(certFile: string, keyFile: string, caFile: string)

  /** The shape in which a number of a lookup answer arrives. */
  datatype Shape = Proper | WrongType | Unparsable

  /** One call: what happens first, whether it fails and is served all the same (its answer is lost), the
      lifetime a login grants, the lifetime a renewal grants, whether a login answer lacks its auth
      section, and the shapes of a lookup answer. */
  datatype Turn = Turn(
    before: seq<EnvStep>, fails: Option<VaultError>, served: bool, lease: nat, grant: nat, emptyAuth: bool,
    creationShape: Shape, ttlShape: Shape)

  /** delivered lists the tokens that logins were answered with, in order. */
  datatype World = World(
    now: int, tokens: map<TokenId, Lease>, issued: nat, delivered: seq<TokenId>, files: map<string, string>,
    svids: map<(string, string, SpiffeId), string>, calls: seq<Call>)

  /** The schedule, the judgement of libraries on addresses and SPIFFE IDs, the namespace that the process
      environment sets, and whether that environment keeps the SDK from making any client. */
  datatype Env = Env(
    turn: nat -> Turn, validAddress: string -> bool, parseSubject: string -> Option<SpiffeId>,
    namespace: string, brokenSdk: bool)

  function Act(w: World, s: EnvStep): World {
    match s
    case Elapse(d) => w.(now := w.now + d)
    case Revoke(t) => if t in w.tokens then w.(tokens := w.tokens[t := w.tokens[t].(revoked := true)]) else w
    case WriteFile(p, x) => w.(files := w.files[p := x])
    case DeleteFile(p) => w.(files := w.files - {p})
    case SetSvid(e, a, s, x) => w.(svids := w.svids[(e, a, s) := x])
  }

  function ActAll(w: World, ss: seq<EnvStep>): World
    decreases ss
  {
    if ss == [] then w else ActAll(Act(w, ss[0]), ss[1..])
  }

  function TurnAt(e: Env, w: World): Turn {
    e.turn(|w.calls|)
  }

  /** The world at the moment a call is served. */
  function Arrive(e: Env, w: World, call: Call): World {
    var w' := ActAll(w, TurnAt(e, w).before);
    w'.(calls := w.calls + [call])
  }

  // ----- calls

  datatype Field = BadType | BadNumber | Number(n: int)

  function Shaped(s: Shape, n: int): Field {
    match s
    case Proper => Number(n)
    case WrongType => BadType
    case Unparsable => BadNumber
  }

  datatype LookupReply = LookupFailed(error: VaultError) | LookedUp(creation: Field, ttl: Field)

  const FORBIDDEN := Status(403)

  predicate IsAlive(w: World, t: TokenId) {
    t in w.tokens && Alive(w.tokens[t], w.now)
  }

  function LookupSelf(e: Env, w: World, token: TokenId): (World, LookupReply) {
    var w', t := Arrive(e, w, Lookup(token)), TurnAt(e, w);
    (w', if t.fails.Some? then LookupFailed(t.fails.value)
         else if !IsAlive(w', token) then LookupFailed(FORBIDDEN)
         else
           var l := w'.tokens[token];
           LookedUp(Shaped(t.creationShape, l.creation), Shaped(t.ttlShape, Ttl(l, w'.now))))
  }

  function Extend(w: World, token: TokenId, grant: nat): World
    requires token in w.tokens
  {
    w.(tokens := w.tokens[token := w.tokens[token].(expiry := w.now + grant)])
  }

  function RenewSelf(e: Env, w: World, token: TokenId, increment: int): (World, Option<VaultError>) {
    var w', t := Arrive(e, w, Renew(token, increment)), TurnAt(e, w);
    if t.fails.Some? && !t.served then (w', t.fails)
    else if !IsAlive(w', token) then (w', Some(if t.fails.Some? then t.fails.value else FORBIDDEN))
    else (Extend(w', token, t.grant), t.fails)
  }

  datatype LoginReply = LoginFailed(error: VaultError) | NoAuth | Granted(token: TokenId)

  function Issue(w: World, lease: nat): World {
    w.(tokens := w.tokens[Issued(w.issued) := Lease(lease, w.now + lease, false)], issued := w.issued + 1)
  }

  function LoginCall(e: Env, w: World, call: Call): (World, LoginReply) {
    var w', t := Arrive(e, w, call), TurnAt(e, w);
    if t.fails.Some? then (if t.served then Issue(w', t.lease) else w', LoginFailed(t.fails.value))
    else if t.emptyAuth then (w', NoAuth)
    else (Issue(w', t.lease).(delivered := w'.delivered + [Issued(w'.issued)]), Granted(Issued(w'.issued)))
  }

  /** A call on this machine that can only succeed or fail. */
  function LocalCall(e: Env, w: World, call: Call): (World, Option<VaultError>) {
    (Arrive(e, w, call), TurnAt(e, w).fails)
  }

  function AskFile(e: Env, w: World, path: string): (World, Option<string>) {
    var w' := Arrive(e, w, ReadJwtFile(path));
    (w', if TurnAt(e, w).fails.Some? || path !in w'.files then None else Some(w'.files[path]))
  }

  function AskSpiffe(e: Env, w: World, endpoint: string, audience: string, subject: SpiffeId): (World, Option<string>) {
    var w' := Arrive(e, w, FetchSvid(endpoint, audience, subject));
    var key := (endpoint, audience, subject);
    (w', if TurnAt(e, w).fails.Some? || key !in w'.svids then None else Some(w'.svids[key]))
  }

  // ----- what the environment and calls leave alone

  /** Time does not go back, and every token keeps its lease; a revocation stays. */
  predicate Keeps(w: World, w': World) {
    && w.now <= w'.now
    && forall t :: t in w.tokens ==>
         && t in w'.tokens
         && w'.tokens[t].creation == w.tokens[t].creation
         && w'.tokens[t].expiry == w.tokens[t].expiry
         && (w.tokens[t].revoked ==> w'.tokens[t].revoked)
  }

  /** Besides, no token was issued or delivered. */
  predicate Idles(w: World, w': World) {
    Keeps(w, w') && w'.issued == w.issued && w'.delivered == w.delivered && w'.tokens.Keys == w.tokens.Keys
  }

  lemma ActKeeps(w: World, s: EnvStep)
    ensures Idles(w, Act(w, s))
  {
  }

  lemma {:induction false} ActAllKeeps(w: World, ss: seq<EnvStep>)
    ensures Idles(w, ActAll(w, ss))
    decreases ss
  {
    if ss != [] {
      ActKeeps(w, ss[0]);
      hide Act;
      ActAllKeeps(Act(w, ss[0]), ss[1..]);
    }
  }

  lemma ArriveKeeps(e: Env, w: World, call: Call)
    ensures Idles(w, Arrive(e, w, call)) && Arrive(e, w, call).calls == w.calls + [call]
  {
    ActAllKeeps(w, TurnAt(e, w).before);
  }

  /** Vault has never issued a serial twice. */
  ghost predicate WellFormed(w: World) {
    forall n: nat :: Issued(n) in w.tokens ==> n < w.issued
  }

  lemma LookupKeeps(e: Env, w: World, token: TokenId)
    ensures Idles(w, LookupSelf(e, w, token).0)
  {
    ArriveKeeps(e, w, Lookup(token));
  }

  /** A lookup is answered exactly if the call does not fail and the token is alive when it arrives, and
      then with that token's numbers. A dead token is refused with status 403. */
  lemma LookupMeaning(e: Env, w: World, token: TokenId)
    ensures var (w', r) := LookupSelf(e, w, token);
      var t := TurnAt(e, w);
      && w' == Arrive(e, w, Lookup(token))
      && (r.LookedUp? <==> t.fails.None? && IsAlive(w', token))
      && (r.LookedUp? ==>
            && (r.creation.Number? <==> t.creationShape.Proper?)
            && (r.creation.Number? ==> r.creation.n == w'.tokens[token].creation)
            && (r.ttl.Number? <==> t.ttlShape.Proper?)
            && (r.ttl.Number? ==> r.ttl.n == Ttl(w'.tokens[token], w'.now)))
      && (t.fails.Some? ==> r == LookupFailed(t.fails.value))
      && (t.fails.None? && !IsAlive(w', token) ==> r == LookupFailed(Status(403)))
  {
  }

  /** A live token got the granted time from now on, and no other token changed its lease. */
  predicate Extends(w: World, w': World, token: TokenId, grant: nat) {
    && w.now <= w'.now && w'.issued == w.issued && w'.delivered == w.delivered && w'.tokens.Keys == w.tokens.Keys
    && token in w.tokens && !w.tokens[token].revoked
    && (w.tokens[token].creation == 0 || w.now < w.tokens[token].expiry)
    && w'.tokens[token] == Lease(w.tokens[token].creation, w'.now + grant, false)
    && forall t :: t in w.tokens && t != token ==>
         && w'.tokens[t].creation == w.tokens[t].creation
         && w'.tokens[t].expiry == w.tokens[t].expiry
         && (w.tokens[t].revoked ==> w'.tokens[t].revoked)
  }

  /** A renewal succeeds exactly if the call does not fail and the token is alive, and extends it then.
      One that fails has done nothing, or just that, if only its answer was lost. */
  lemma RenewMeaning(e: Env, w: World, token: TokenId, increment: int)
    ensures var (w', err) := RenewSelf(e, w, token, increment);
      var t := TurnAt(e, w);
      && (Idles(w, w') || Extends(w, w', token, t.grant))
      && (err.None? <==> t.fails.None? && IsAlive(Arrive(e, w, Renew(token, increment)), token))
      && (err.None? ==> Extends(w, w', token, t.grant))
      && (t.fails.Some? ==> err == t.fails)
      && (t.fails.None? && err.Some? ==> err == Some(Status(403)))
      && (err.Some? && !t.served ==> Idles(w, w'))
  {
    ArriveKeeps(e, w, Renew(token, increment));
    hide ActAll;
  }

  /** A token that no one held was issued, with a full lifetime. */
  predicate IssuesOne(w: World, w': World, lease: nat) {
    && w.now <= w'.now && w'.issued == w.issued + 1
    && w'.tokens.Keys == w.tokens.Keys + {Issued(w.issued)}
    && w'.tokens[Issued(w.issued)] == Lease(lease, w'.now + lease, false)
    && (Issued(w.issued) !in w.tokens ==> Keeps(w, w'))
  }

  /** A granted login delivers a token that no one held, with a full lifetime. One that is not granted
      delivers none; if it was not served either, it changes no token. */
  lemma LoginCallMeaning(e: Env, w: World, call: Call)
    ensures var (w', r) := LoginCall(e, w, call);
      var t := TurnAt(e, w);
      && (Idles(w, w') || IssuesOne(w, w', t.lease))
      && (r.Granted? ==>
            IssuesOne(w, w', t.lease) && r.token == Issued(w.issued) && w'.delivered == w.delivered + [r.token])
      && (r.Granted? <==> t.fails.None? && !t.emptyAuth)
      && (r.NoAuth? <==> t.fails.None? && t.emptyAuth)
      && (r.LoginFailed? ==> t.fails == Some(r.error))
      && (!r.Granted? ==> w'.delivered == w.delivered)
      && (!r.Granted? && !t.served ==> Idles(w, w'))
      && (WellFormed(w) ==> WellFormed(w') && Keeps(w, w'))
  {
    ArriveKeeps(e, w, call);
    hide ActAll;
  }
}
