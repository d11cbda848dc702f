/** NewPlugin from the flags to its end: which of its exits run the deferred clean-up of the temporary
    files, and which do not. */
module NewPlugin {
  import opened Prelude
  import opened TokenVault
  import opened PemSplit
  import PemText
  import C = Client
  import opened ClientProofs
  import opened Startup
  import opened TempFiles

  /** How the two servers can end; an end that is not expected is fatal. */
  datatype GrpcEnd = GrpcStopped | ListenerClosed | GrpcBroke
  datatype HttpEnd = HttpClosed | HttpBroke

  /** What goes wrong behind the client's construction. A server that has not ended has no end. */
  datatype Hazards = Hazards(
    setenvFails: bool, socketFails: bool, listenFails: bool,
    grpc: Option<GrpcEnd>, http: Option<HttpEnd>, shutdownFails: bool)

  datatype FatalStep = NoClient(error: C.ClientError) | NoSocket | NoListener | GrpcServer | HealthServer

  datatype StartError = BadFlags(flag: FlagError) | NoCaVariable | BadCombinedPem(file: FileError) | ShutdownFailed

  /** A fatal log line ends the process at once; a return runs what was deferred. */
  datatype Exit = Fatal(step: FatalStep) | Returned(error: Option<StartError>)

  /** The process environment of the client: its address and its token. */
  datatype Process = Process(address: string, token: TokenId)

  predicate UsesCombinedPem(f: Flags) {
    f.authMethod == "cert" && f.certPem != ""
  }

  /** The two files split from a combined file, if one is used. */
  function Pem(f: Flags, c: Codec, files: map<string, string>, s: Schedule)
    : Result<Option<(string, string)>, FileError>
    requires Shrinks(c)
  {
    if !UsesCombinedPem(f) then Ok(None)
    else
      match Plan(c, files, f.certPem, s)
      case Err(x) => Err(x)
      case Ok(pair) => Ok(Some(pair))
  }

  /** The result of NewClient with the options that NewPlugin passes. */
  function Made(e: Env, w: World, f: Flags, pem: Option<(string, string)>, p: Process): Result<C.State, C.ClientError>
    requires AuthOption(f, pem).Some?
  {
    C.Construct(e, Options(f, AuthOption(f, pem).value), C.Blank(e, p.address, p.token), w).1
  }

  /** The guards of the fatal log lines, in the order of the program. */
  predicate Dies(e: Env, w: World, f: Flags, pem: Option<(string, string)>, p: Process, h: Hazards)
    requires AuthOption(f, pem).Some?
  {
    Made(e, w, f, pem, p).Err? || h.socketFails || h.listenFails
    || h.grpc == Some(GrpcBroke) || h.http == Some(HttpBroke)
  }

  /** The fatal log line that ends the process, if one does. */
  function FirstFatal(e: Env, w: World, f: Flags, pem: Option<(string, string)>, p: Process, h: Hazards)
    : (r: Option<FatalStep>)
    requires AuthOption(f, pem).Some?
    ensures r.Some? <==> Dies(e, w, f, pem, p, h)
  {
    var made := Made(e, w, f, pem, p);
    if made.Err? then Some(NoClient(made.error))
    else if h.socketFails then Some(NoSocket)
    else if h.listenFails then Some(NoListener)
    else if h.grpc == Some(GrpcBroke) then Some(GrpcServer)
    else if h.http == Some(HttpBroke) then Some(HealthServer)
    else None
  }

  /** The flags are accepted and the environment variable for the CA file can be set. */
  predicate Begins(f: Flags, e: Env, parses: string -> bool, h: Hazards) {
    Validate(f, e.parseSubject, parses).None? && !(f.vaultCaCert != "" && h.setenvFails)
  }

  /** How NewPlugin ends. */
  function Ending(
      f: Flags, e: Env, w: World, parses: string -> bool, p: Process, h: Hazards,
      c: Codec, files: map<string, string>, s: Schedule): Exit
    requires Shrinks(c)
  {
    var bad := Validate(f, e.parseSubject, parses);
    if bad.Some? then Returned(Some(BadFlags(bad.value)))
    else if !Begins(f, e, parses, h) then Returned(Some(NoCaVariable))
    else
      match Pem(f, c, files, s)
      case Err(x) => Returned(Some(BadCombinedPem(x)))
      case Ok(pem) =>
        match FirstFatal(e, w, f, pem, p, h)
        case Some(step) => Fatal(step)
        case None => Returned(if h.shutdownFails then Some(ShutdownFailed) else None)
  }

  /** The split certificate and key stay behind on disk. */
  predicate LeavesFiles(
      f: Flags, e: Env, w: World, parses: string -> bool, p: Process, h: Hazards,
      c: Codec, files: map<string, string>, s: Schedule)
    requires Shrinks(c)
  {
    && Begins(f, e, parses, h) && UsesCombinedPem(f)
    && Plan(c, files, f.certPem, s).Ok?
    && Dies(e, w, f, Some(Plan(c, files, f.certPem, s).value), p, h)
  }

  /** Each end, and when it comes. */
  lemma EndingMeaning(
      f: Flags, e: Env, w: World, parses: string -> bool, p: Process, h: Hazards,
      c: Codec, files: map<string, string>, s: Schedule)
    requires Shrinks(c)
    ensures var x, bad := Ending(f, e, w, parses, p, h, c, files, s), Validate(f, e.parseSubject, parses);
      && (bad.Some? ==> x == Returned(Some(BadFlags(bad.value))))
      && (bad.None? && f.vaultCaCert != "" && h.setenvFails ==> x == Returned(Some(NoCaVariable)))
      && (Begins(f, e, parses, h) && UsesCombinedPem(f) && Plan(c, files, f.certPem, s).Err? ==>
            x == Returned(Some(BadCombinedPem(Plan(c, files, f.certPem, s).error))))
      && (Begins(f, e, parses, h) && (UsesCombinedPem(f) ==> Plan(c, files, f.certPem, s).Ok?) ==>
            var pem := if UsesCombinedPem(f) then Some(Plan(c, files, f.certPem, s).value) else None;
            && AuthOption(f, pem).Some?
            && var made := C.Construct(e, Options(f, AuthOption(f, pem).value), C.Blank(e, p.address, p.token), w).1;
               var dies :=
                 made.Err? || h.socketFails || h.listenFails || h.grpc == Some(GrpcBroke) || h.http == Some(HttpBroke);
               && (made.Err? ==> x == Fatal(NoClient(made.error)))
               && (x == Fatal(NoSocket) <==> made.Ok? && h.socketFails)
               && (x == Fatal(NoListener) <==> made.Ok? && !h.socketFails && h.listenFails)
               && (x.Fatal? <==> dies)
               && (x == Fatal(GrpcServer) ==> h.grpc == Some(GrpcBroke))
               && (x == Fatal(HealthServer) ==> h.http == Some(HttpBroke))
               && (x == Returned(Some(ShutdownFailed)) <==> !dies && h.shutdownFails)
               && (x == Returned(None) <==> !dies && !h.shutdownFails))
  {
    if Begins(f, e, parses, h) && (UsesCombinedPem(f) ==> Plan(c, files, f.certPem, s).Ok?) {
      var pem := if UsesCombinedPem(f) then Some(Plan(c, files, f.certPem, s).value) else None;
      ValidFlagsSelectOneMethod(f, e, parses, pem);
      hide Validate, Plan, AuthOption, C.Construct, UsesCombinedPem;
    }
  }

  lemma CleanedUp(files: map<string, string>, cert: string, key: string, x: string, y: string, stuck: set<string>)
    requires cert !in files && key !in files && cert != key
    ensures Restored(files, Cleaned(files[cert := x][key := y], RemoveBoth(cert, key), stuck), stuck)
    ensures files[cert := x][key := y] != files
  {
    assert cert in files[cert := x][key := y];
  }

  lemma NothingDone(files: map<string, string>, stuck: set<string>)
    ensures Restored(files, files, stuck) && Cleaned(files, Nothing, stuck) == files
    ensures forall after :: Restored(files, after, {}) ==> after == files
  {
  }

  /** The part of NewPlugin in which the process can end. */
  method Launch(outside: C.Outside, f: Flags, pem: Option<(string, string)>, p: Process, h: Hazards)
    returns (fatal: Option<FatalStep>)
    requires AuthOption(f, pem).Some?
    modifies outside
    ensures fatal == FirstFatal(outside.env, old(outside.world), f, pem, p, h)
  {
    hide C.Construct;
    var client := C.NewClient(outside, p.address, p.token, Options(f, AuthOption(f, pem).value));
    if client.Err? {
      return Some(NoClient(client.error));
    }
    if h.socketFails {
      return Some(NoSocket);
    }
    if h.listenFails {
      return Some(NoListener);
    }
    if h.grpc.Some? && h.grpc.value != GrpcStopped && h.grpc.value != ListenerClosed {
      return Some(GrpcServer);
    }
    if h.http.Some? && h.http.value != HttpClosed {
      return Some(HealthServer);
    }
    return None;
  }

  /** NewPlugin. When it ends, the files on disk are as before, except for what could not be removed,
      unless a combined file was split and a guard of a fatal log line fired: then exactly the two files
      with the split certificate and key are left. */
  method NewPlugin(
      disk: Disk, outside: C.Outside, f: Flags, parses: string -> bool, p: Process, h: Hazards, c: Codec, s: Schedule)
    returns (exit: Exit)
    requires Shrinks(c)
    modifies disk, outside
    ensures exit == Ending(f, outside.env, old(outside.world), parses, p, h, c, old(disk.files), s)
    ensures !LeavesFiles(f, outside.env, old(outside.world), parses, p, h, c, old(disk.files), s) ==>
              Restored(old(disk.files), disk.files, s.stuck)
    ensures LeavesFiles(f, outside.env, old(outside.world), parses, p, h, c, old(disk.files), s) ==>
      var (cert, key) := Plan(c, old(disk.files), f.certPem, s).value;
      var pair := Split(c, old(disk.files)[f.certPem]).value;
      && cert !in old(disk.files) && key !in old(disk.files) && cert != key
      && disk.files == old(disk.files)[cert := pair.cert][key := pair.key]
    ensures s.stuck == {} ==>
      (disk.files != old(disk.files)
       <==> LeavesFiles(f, outside.env, old(outside.world), parses, p, h, c, old(disk.files), s))
  {
    var before := disk.files;
    NothingDone(before, s.stuck);
    var bad := Validate(f, outside.env.parseSubject, parses);
    if bad.Some? {
      return Returned(Some(BadFlags(bad.value)));
    }
    if f.vaultCaCert != "" && h.setenvFails {
      return Returned(Some(NoCaVariable));
    }
    var pem: Option<(string, string)>, cleanup := None, Nothing;
    if UsesCombinedPem(f) {
      hide Restored;
      var r;
      r, cleanup := disk.ParseCombinedPemFile(c, f.certPem, s);
      if r.Err? {
        return Returned(Some(BadCombinedPem(r.error)));
      }
      pem := Some(r.value);
      ghost var pair := Split(c, before[f.certPem]).value;
      CleanedUp(before, r.value.0, r.value.1, pair.cert, pair.key, s.stuck);
    }
    ValidFlagsSelectOneMethod(f, outside.env, parses, pem);
    hide Validate, AuthOption, Dies, Restored, Cleaned, Split;
    var fatal := Launch(outside, f, pem, p, h);
    if fatal.Some? {
      return Fatal(fatal.value);
    }
    disk.RunCleanup(cleanup, s.stuck);
    return Returned(if h.shutdownFails then Some(ShutdownFailed) else None);
  }

  // ----- a run that leaves the files

  /** Certificate login with a combined file. */
  function PemFlags(): Flags {
    Flags("https://vault", "", "", "cert", "", "", "", "", "", "", "", "cert", "role", "", "", "combined",
          "", "", "", "", "", "", "", "1m", 3600, "transit", "kms", false, false)
  }

  /** Vault refuses the login, which is the second call. */
  function Refusing(): Env {
    Env((i: nat) => Turn([], if i == 1 then Some(FORBIDDEN) else None, false, 0, 0, false, Proper, Proper),
        _ => true, _ => None, "", false)
  }

  function CombinedFile(certificate: Bytes, key: Bytes): string {
    Layout(PemText.CODEC,
           [Piece("", Block("CERTIFICATE", map[], certificate)), Piece("", Block("PRIVATE KEY", map[], key))], "")
  }

  const SMOOTH := Schedule(false, ["cert"], None, ["key"], None, {})
  const CALM := Hazards(false, false, false, None, None, false)

  lemma KindsOfThePair(certificate: Bytes, key: Bytes)
    ensures IsCertificate(Block("CERTIFICATE", map[], certificate))
    ensures IsPrivateKey(Block("PRIVATE KEY", map[], key))
  {
  }

  lemma BlocksOfTwo(x: Piece, y: Piece)
    ensures BlocksOf([x, y]) == [x.block, y.block]
  {
    assert [x, y][1..] == [y] && [y][1..] == [];
    assert BlocksOf([y]) == [y.block];
  }

  lemma CombinedFileSplits(certificate: Bytes, key: Bytes)
    ensures Shrinks(PemText.CODEC) && Split(PemText.CODEC, CombinedFile(certificate, key)).Ok?
  {
    var cert, priv := Block("CERTIFICATE", map[], certificate), Block("PRIVATE KEY", map[], key);
    var x, y := Piece("", cert), Piece("", priv);
    PemText.CertificateIsPlain();
    PemText.PrivateKeyIsPlain();
    PemText.NoMarkInNothing();
    KindsOfThePair(certificate, key);
    BlocksOfTwo(x, y);
    hide PemText.PlainType, PemText.Markless, IsCertificate, IsPrivateKey, BlocksOf, Split, Layout;
    PemText.SplitOfText([x, y], "");
    assert cert in [cert, priv] && priv in [cert, priv];
  }

  lemma RefusedLoginMakesNoClient(w: World, p: Process, pem: (string, string))
    requires w.calls == []
    ensures AuthOption(PemFlags(), Some(pem)).Some? && Made(Refusing(), w, PemFlags(), Some(pem), p).Err?
  {
    var e, f := Refusing(), PemFlags();
    var o, c0 := AuthOption(f, Some(pem)).value, C.Blank(e, p.address, p.token);
    assert o == C.Cert("cert", "role", pem.0, pem.1, "");
    assert Options(f, o) == Options(f, o)[..4] + [o];
    SettingsAreSet(f, e, o, c0, w);
    FoldAppend(e, Options(f, o)[..4], [o], c0, w);
    var b := C.Fold(e, Options(f, o)[..4], c0, w);
    var w1 := LocalCall(e, w, ConfigureTls(pem.0, pem.1, "")).0;
    ArriveKeeps(e, w, ConfigureTls(pem.0, pem.1, ""));
    assert |w1.calls| == 1 && TurnAt(e, w1).fails == Some(FORBIDDEN);
    assert C.Apply(e, o, b.c, w).err.Some?;
    assert C.Fold(e, [o], b.c, w).err.Some?;
  }

  lemma SmoothPlan(files: map<string, string>)
    requires files.Keys == {"combined"} && Shrinks(PemText.CODEC) && Split(PemText.CODEC, files["combined"]).Ok?
    ensures Plan(PemText.CODEC, files, "combined", SMOOTH) == Ok(("cert", "key"))
  {
    hide Split;
    assert |"combined"| != |"cert"| && |"combined"| != |"key"| && |"cert"| != |"key"|;
    assert FirstFree(files, ["cert"]) == Some("cert");
  }

  lemma PemFlagsBegin(parses: string -> bool)
    requires parses("1m")
    ensures Begins(PemFlags(), Refusing(), parses, CALM)
    ensures UsesCombinedPem(PemFlags()) && PemFlags().certPem == "combined"
  {
  }

  /** For every certificate and key: the combined file is split, Vault refuses the login, the process ends,
      and the private key stays on disk. */
  lemma RefusedLoginLeavesFiles(certificate: Bytes, key: Bytes, w: World, p: Process, parses: string -> bool)
    requires w.calls == [] && parses("1m")
    ensures Shrinks(PemText.CODEC)
    ensures LeavesFiles(PemFlags(), Refusing(), w, parses, p, CALM, PemText.CODEC,
                        map["combined" := CombinedFile(certificate, key)], SMOOTH)
  {
    var files := map["combined" := CombinedFile(certificate, key)];
    CombinedFileSplits(certificate, key);
    SmoothPlan(files);
    PemFlagsBegin(parses);
    RefusedLoginMakesNoClient(w, p, ("cert", "key"));
    hide Plan, Made, Split, CombinedFile, Begins, UsesCombinedPem, AuthOption, Refusing;
  }
}
