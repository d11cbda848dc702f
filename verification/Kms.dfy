/** The two KMS services on top of the client. They share the error counters and the duration
    histograms; their health checks go through the same code with the recording switched off. */
module Kms {
  import opened Prelude
  import opened Transit
  import Base64
  import Probes

  const HEALTH: Bytes := [104, 101, 97, 108, 116, 104] // "health"

  datatype Counters = Counters(encryptionErrors: nat, decryptionErrors: nat, encryptionCount: nat, decryptionCount: nat)

  /** The world outside and the process-wide metrics. */
  datatype State = State(world: World, counters: Counters)

  datatype HealthError = SealFailed(e: ClientError) | OpenFailed(e: ClientError) | Mismatch

  datatype StatusResponse = StatusResponse(version: string, healthz: string, keyId: string)

  // ----- what each call does, on values

  function CountEncryption(c: Counters, ok: bool): Counters {
    c.(encryptionCount := c.encryptionCount + 1, encryptionErrors := c.encryptionErrors + if ok then 0 else 1)
  }

  function CountDecryption(c: Counters, ok: bool): Counters {
    c.(decryptionCount := c.decryptionCount + 1, decryptionErrors := c.decryptionErrors + if ok then 0 else 1)
  }

  function Seal(v: Vault, s: State, plain: Bytes, record: bool): (State, Result<Sealed, ClientError>) {
    var (w, r) := Encrypt(v, s.world, plain);
    (State(w, if record then CountEncryption(s.counters, r.Ok?) else s.counters), r)
  }

  function Open(v: Vault, s: State, ciphertext: string, record: bool): (State, Result<Bytes, ClientError>) {
    var (w, r) := Decrypt(v, s.world, ciphertext);
    (State(w, if record then CountDecryption(s.counters, r.Ok?) else s.counters), r)
  }

  function Health(v: Vault, s: State): (State, Option<HealthError>) {
    var (s1, sealed) := Seal(v, s, HEALTH, false);
    if sealed.Err? then (s1, Some(SealFailed(sealed.error)))
    else
      var (s2, plain) := Open(v, s1, sealed.value.ciphertext, false);
      (s2, if plain.Err? then Some(OpenFailed(plain.error))
           else if plain.value != HEALTH then Some(Mismatch)
           else None)
  }

  function Status(v: Vault, s: State): (State, Result<StatusResponse, ClientError>) {
    var (w, id) := GetKeyVersion(v, s.world);
    if id.Err? then (s.(world := w), Err(id.error))
    else
      var (s', failure) := Health(v, s.(world := w));
      (s', Ok(StatusResponse("v2", if failure.None? then "ok" else "err", id.value)))
  }

  // ----- requests

  datatype Request =
    | EncryptV1(plain: Bytes) | DecryptV1(cipher: string)
    | EncryptV2(plain: Bytes) | DecryptV2(cipher: string)
    | StatusV2 | HealthV1 | HealthV2

  datatype Response =
    | CipherIs(cipher: Result<string, ClientError>) | SealedIs(sealed: Result<Sealed, ClientError>)
    | PlainIs(plain: Result<Bytes, ClientError>)
    | StatusIs(status: Result<StatusResponse, ClientError>) | HealthIs(failure: Option<HealthError>)

  function Serve(v: Vault, s: State, q: Request): (State, Response) {
    match q
    case EncryptV1(p) =>
      var (s', r) := Seal(v, s, p, true);
      (s', CipherIs(if r.Err? then Err(r.error) else Ok(r.value.ciphertext)))
    case EncryptV2(p) => var (s', r) := Seal(v, s, p, true); (s', SealedIs(r))
    case DecryptV1(c) => var (s', r) := Open(v, s, c, true); (s', PlainIs(r))
    case DecryptV2(c) => var (s', r) := Open(v, s, c, true); (s', PlainIs(r))
    case StatusV2 => var (s', r) := Status(v, s); (s', StatusIs(r))
    case HealthV1 => var (s', r) := Health(v, s); (s', HealthIs(r))
    case HealthV2 => var (s', r) := Health(v, s); (s', HealthIs(r))
  }

  // ----- the services

  /** The process-wide metrics and the connection to Vault. */
  class Process {
    const vault: Vault
    var world: World
    var counters: Counters

    constructor (vault: Vault, world: World)
      ensures this.vault == vault && Now() == State(world, Counters(0, 0, 0, 0))
    {
      this.vault, this.world, this.counters := vault, world, Counters(0, 0, 0, 0);
    }

    function Now(): State
      reads this
    {
      State(world, counters)
    }

    method ClientEncrypt(data: Bytes) returns (r: Result<Sealed, ClientError>)
      modifies this`world
      ensures (world, r) == Encrypt(vault, old(world), data)
    {
      var (w, answer) := Encrypt(vault, world, data);
      world, r := w, answer;
    }

    method ClientDecrypt(data: string) returns (r: Result<Bytes, ClientError>)
      modifies this`world
      ensures (world, r) == Decrypt(vault, old(world), data)
    {
      var (w, answer) := Decrypt(vault, world, data);
      world, r := w, answer;
    }

    method ClientKeyVersion() returns (r: Result<string, ClientError>)
      modifies this`world
      ensures (world, r) == GetKeyVersion(vault, old(world))
    {
      var (w, answer) := GetKeyVersion(vault, world);
      world, r := w, answer;
    }
  }

  class KmsV1 {
    const process: Process

    constructor (process: Process)
      ensures this.process == process
    {
      this.process := process;
    }

    method EncryptWith(plain: Bytes, recordMetrics: bool) returns (r: Result<string, ClientError>)
      modifies process
      ensures var (s, sealed) := Seal(process.vault, old(process.Now()), plain, recordMetrics);
        process.Now() == s && r == if sealed.Err? then Err(sealed.error) else Ok(sealed.value.ciphertext)
    {
      var resp := process.ClientEncrypt(plain);
      if resp.Err? {
        if recordMetrics {
          process.counters := process.counters.(encryptionErrors := process.counters.encryptionErrors + 1);
        }
        r := Err(resp.error);
      } else {
        r := Ok(resp.value.ciphertext);
      }
      if recordMetrics {
        process.counters := process.counters.(encryptionCount := process.counters.encryptionCount + 1);
      }
    }

    method DecryptWith(cipher: string, recordMetrics: bool) returns (r: Result<Bytes, ClientError>)
      modifies process
      ensures (process.Now(), r) == Open(process.vault, old(process.Now()), cipher, recordMetrics)
    {
      r := process.ClientDecrypt(cipher);
      if r.Err? && recordMetrics {
        process.counters := process.counters.(decryptionErrors := process.counters.decryptionErrors + 1);
      }
      if recordMetrics {
        process.counters := process.counters.(decryptionCount := process.counters.decryptionCount + 1);
      }
    }

    method HealthCheck() returns (failure: Option<HealthError>)
      modifies process
      ensures (process.Now(), failure) == Health(process.vault, old(process.Now()))
    {
      var enc := EncryptWith(HEALTH, false);
      if enc.Err? {
        return Some(SealFailed(enc.error));
      }
      var dec := DecryptWith(enc.value, false);
      if dec.Err? {
        return Some(OpenFailed(dec.error));
      }
      if HEALTH != dec.value {
        return Some(Mismatch);
      }
      return None;
    }

    method Encrypt(plain: Bytes) returns (r: Result<string, ClientError>)
      modifies process
      ensures (process.Now(), CipherIs(r)) == Serve(process.vault, old(process.Now()), EncryptV1(plain))
    {
      r := EncryptWith(plain, true);
    }

    method Decrypt(cipher: string) returns (r: Result<Bytes, ClientError>)
      modifies process
      ensures (process.Now(), PlainIs(r)) == Serve(process.vault, old(process.Now()), DecryptV1(cipher))
    {
      r := DecryptWith(cipher, true);
    }
  }

  class KmsV2 {
    const process: Process

    constructor (process: Process)
      ensures this.process == process
    {
      this.process := process;
    }

    method EncryptWith(plain: Bytes, recordMetrics: bool) returns (r: Result<Sealed, ClientError>)
      modifies process
      ensures (process.Now(), r) == Seal(process.vault, old(process.Now()), plain, recordMetrics)
    {
      r := process.ClientEncrypt(plain);
      if r.Err? && recordMetrics {
        process.counters := process.counters.(encryptionErrors := process.counters.encryptionErrors + 1);
      }
      if recordMetrics {
        process.counters := process.counters.(encryptionCount := process.counters.encryptionCount + 1);
      }
    }

    method DecryptWith(cipher: string, recordMetrics: bool) returns (r: Result<Bytes, ClientError>)
      modifies process
      ensures (process.Now(), r) == Open(process.vault, old(process.Now()), cipher, recordMetrics)
    {
      r := process.ClientDecrypt(cipher);
      if r.Err? && recordMetrics {
        process.counters := process.counters.(decryptionErrors := process.counters.decryptionErrors + 1);
      }
      if recordMetrics {
        process.counters := process.counters.(decryptionCount := process.counters.decryptionCount + 1);
      }
    }

    method HealthCheck() returns (failure: Option<HealthError>)
      modifies process
      ensures (process.Now(), failure) == Health(process.vault, old(process.Now()))
    {
      var enc := EncryptWith(HEALTH, false);
      if enc.Err? {
        return Some(SealFailed(enc.error));
      }
      var dec := DecryptWith(enc.value.ciphertext, false);
      if dec.Err? {
        return Some(OpenFailed(dec.error));
      }
      if HEALTH != dec.value {
        return Some(Mismatch);
      }
      return None;
    }

    method StatusCheck() returns (r: Result<StatusResponse, ClientError>)
      modifies process
      ensures (process.Now(), r) == Status(process.vault, old(process.Now()))
    {
      var health := "ok";
      var kv := process.ClientKeyVersion();
      if kv.Err? {
        return Err(kv.error);
      }
      var failure := HealthCheck();
      if failure.Some? {
        health := "err";
      }
      return Ok(StatusResponse("v2", health, kv.value));
    }

    method Encrypt(plain: Bytes) returns (r: Result<Sealed, ClientError>)
      modifies process
      ensures (process.Now(), SealedIs(r)) == Serve(process.vault, old(process.Now()), EncryptV2(plain))
    {
      r := EncryptWith(plain, true);
    }

    method Decrypt(cipher: string) returns (r: Result<Bytes, ClientError>)
      modifies process
      ensures (process.Now(), PlainIs(r)) == Serve(process.vault, old(process.Now()), DecryptV2(cipher))
    {
      r := DecryptWith(cipher, true);
    }
  }

  // ----- runs

  /** Serving requests one after the other; the result lists every request with its response. */
  function Run(v: Vault, s: State, qs: seq<Request>): (State, seq<(Request, Response)>) {
    if qs == [] then (s, [])
    else
      var (s1, done) := Run(v, s, qs[..|qs| - 1]);
      var (s2, r) := Serve(v, s1, qs[|qs| - 1]);
      (s2, done + [(qs[|qs| - 1], r)])
  }

  predicate IsEncrypt(x: (Request, Response)) {
    x.0.EncryptV1? || x.0.EncryptV2?
  }

  predicate IsDecrypt(x: (Request, Response)) {
    x.0.DecryptV1? || x.0.DecryptV2?
  }

  predicate IsFailedEncrypt(x: (Request, Response)) {
    IsEncrypt(x) && ((x.1.CipherIs? && x.1.cipher.Err?) || (x.1.SealedIs? && x.1.sealed.Err?))
  }

  predicate IsFailedDecrypt(x: (Request, Response)) {
    IsDecrypt(x) && x.1.PlainIs? && x.1.plain.Err?
  }

  lemma HealthRecordsNothing(v: Vault, s: State)
    ensures Health(v, s).0.counters == s.counters
    ensures Status(v, s).0.counters == s.counters
  {
  }

  /** One request moves the counters by what its kind and its response say, and by nothing else. */
  lemma ServeCounts(v: Vault, s: State, q: Request)
    ensures var (s', r) := Serve(v, s, q);
      var c, c' := s.counters, s'.counters;
      && c'.encryptionCount == c.encryptionCount + (if IsEncrypt((q, r)) then 1 else 0)
      && c'.decryptionCount == c.decryptionCount + (if IsDecrypt((q, r)) then 1 else 0)
      && c'.encryptionErrors == c.encryptionErrors + (if IsFailedEncrypt((q, r)) then 1 else 0)
      && c'.decryptionErrors == c.decryptionErrors + (if IsFailedDecrypt((q, r)) then 1 else 0)
  {
    HealthRecordsNothing(v, s);
  }

  /** Over every run that mixes both services, each histogram counts exactly the requests of its kind
      and each error counter exactly those answered with an error; probes count nothing. */
  lemma {:induction false} MetricsAreConserved(v: Vault, s: State, qs: seq<Request>)
    ensures var (s', done) := Run(v, s, qs);
      && s'.counters.encryptionCount == s.counters.encryptionCount + Count(done, IsEncrypt)
      && s'.counters.decryptionCount == s.counters.decryptionCount + Count(done, IsDecrypt)
      && s'.counters.encryptionErrors == s.counters.encryptionErrors + Count(done, IsFailedEncrypt)
      && s'.counters.decryptionErrors == s.counters.decryptionErrors + Count(done, IsFailedDecrypt)
  {
    if qs != [] {
      var init, last := qs[..|qs| - 1], qs[|qs| - 1];
      MetricsAreConserved(v, s, init);
      var (s1, done) := Run(v, s, init);
      ServeCounts(v, s1, last);
      assert (done + [(last, Serve(v, s1, last).1)])[..|done|] == done;
    }
  }

  /** Every request of a run is served, in the state that all requests in front of it have left. */
  lemma {:induction false} RunServesAll(v: Vault, s: State, qs: seq<Request>, i: nat)
    requires i < |qs|
    ensures var done := Run(v, s, qs).1;
      |done| == |qs| && done[i] == (qs[i], Serve(v, Run(v, s, qs[..i]).0, qs[i]).1)
    decreases |qs|
  {
    var init := qs[..|qs| - 1];
    RunLength(v, s, init);
    if i < |init| {
      RunServesAll(v, s, init, i);
      assert init[..i] == qs[..i];
    } else {
      assert qs[..i] == init;
    }
    hide Serve;
  }

  lemma {:induction false} RunLength(v: Vault, s: State, qs: seq<Request>)
    ensures |Run(v, s, qs).1| == |qs|
  {
    hide Serve;
    if qs != [] {
      RunLength(v, s, qs[..|qs| - 1]);
    }
  }

  // ----- order of key versions

  lemma HealthMovesForward(v: Vault, s: State)
    ensures Later(s.world.ring, Health(v, s).0.world.ring)
  {
    var (s1, sealed) := Seal(v, s, HEALTH, false);
    OperationsMoveForward(v, s.world, HEALTH, "");
    if sealed.Ok? {
      OperationsMoveForward(v, s1.world, HEALTH, sealed.value.ciphertext);
    }
  }

  lemma ServeMovesForward(v: Vault, s: State, q: Request)
    ensures Later(s.world.ring, Serve(v, s, q).0.world.ring)
  {
    var data := if q.EncryptV1? || q.EncryptV2? then q.plain else [];
    var text := if q.DecryptV1? || q.DecryptV2? then q.cipher else "";
    OperationsMoveForward(v, s.world, data, text);
    HealthMovesForward(v, s);
    HealthMovesForward(v, s.(world := GetKeyVersion(v, s.world).0));
  }

  lemma {:induction false} RunMovesForward(v: Vault, s: State, qs: seq<Request>)
    ensures Later(s.world.ring, Run(v, s, qs).0.world.ring)
  {
    if qs != [] {
      RunMovesForward(v, s, qs[..|qs| - 1]);
      ServeMovesForward(v, Run(v, s, qs[..|qs| - 1]).0, qs[|qs| - 1]);
    }
  }

  /** A status fails exactly if its first call, the version read, fails, and then makes no other. It
      reports the version that was the latest at that call, before the probe, and the probe's verdict. */
  lemma StatusMeaning(v: Vault, s: State)
    ensures var (s', r) := Status(v, s);
      var (w, id) := GetKeyVersion(v, s.world);
      && (r.Err? <==> id.Err?)
      && (r.Err? ==> s'.world.calls == s.world.calls + 1)
      && (r.Ok? ==>
            && ParseDecimal(r.value.keyId) == w.ring.latest
            && s.world.ring.latest <= w.ring.latest <= s'.world.ring.latest
            && (r.value.healthz == "ok" <==> Health(v, s.(world := w)).1.None?)
            && (r.value.healthz == "err" <==> Health(v, s.(world := w)).1.Some?))
  {
    var (w, id) := GetKeyVersion(v, s.world);
    OperationsMoveForward(v, s.world, [], "");
    KeyVersionOutcome(v, s.world);
    HealthMovesForward(v, s.(world := w));
    assert "ok"[0] != "err"[0];
  }

  /** A status, an encryption and a second status, in this order, with any requests served between
      them and any rotations between any two Vault calls: the first identifier is at most the version
      inside the ciphertext, that is at most the identifier reported with it, and that is at most the
      second identifier. */
  lemma Sandwich(v: Vault, s: State, between: seq<Request>, s1: State, data: Bytes, between': seq<Request>, s2: State)
    requires Sound(v.cipher)
    requires s1 == Run(v, Status(v, s).0, between).0 && s2 == Run(v, Seal(v, s1, data, true).0, between').0
    requires Status(v, s).1.Ok? && Seal(v, s1, data, true).1.Ok? && Status(v, s2).1.Ok?
    ensures var sealed := Seal(v, s1, data, true).1.value;
      && ParseDecimal(Status(v, s).1.value.keyId) <= VersionOf(v, sealed.ciphertext)
      && VersionOf(v, sealed.ciphertext) <= ParseDecimal(sealed.keyId)
      && ParseDecimal(sealed.keyId) <= ParseDecimal(Status(v, s2).1.value.keyId)
  {
    var t, u := Status(v, s).0, Seal(v, s1, data, true).0;
    StatusMeaning(v, s);
    RunMovesForward(v, t, between);
    EncryptMeaning(v, s1.world, data);
    RunMovesForward(v, u, between');
    StatusMeaning(v, s2);
  }

  predicate Fine(t: Turn) {
    t.fails.None? && !t.fieldMissing && !t.keyMissing
  }

  /** Where no call fails, every status and every encryption is answered; so the case above arises. */
  lemma FineCallsAreAnswered(v: Vault, s: State, data: Bytes)
    requires forall i :: Fine(v.turn(i))
    ensures Status(v, s).1.Ok? && Seal(v, s, data, true).1.Ok?
  {
    EncryptOutcome(v, s.world, data);
    KeyVersionOutcome(v, s.world);
    hide Encrypt, GetKeyVersion, Health;
  }

  /** A cipher that opens what it seals, a rotation before every call, and no failing call: the three
      requests of the case above are all answered. */
  lemma SandwichHappens(s: State, data: Bytes)
    ensures var v := Vault(TEXT_CIPHER, _ => Turn([Rotate], None, false, false, 0));
      var t := Status(v, s).0;
      var u := Seal(v, t, data, true).0;
      && Sound(v.cipher) && t == Run(v, t, []).0 && u == Run(v, u, []).0
      && Status(v, s).1.Ok? && Seal(v, t, data, true).1.Ok? && Status(v, u).1.Ok?
  {
    var v := Vault(TEXT_CIPHER, _ => Turn([Rotate], None, false, false, 0));
    SoundCipherExists();
    FineCallsAreAnswered(v, s, data);
    var t := Status(v, s).0;
    FineCallsAreAnswered(v, t, data);
    FineCallsAreAnswered(v, Seal(v, t, data, true).0, data);
    hide Status, Seal, Sound;
  }

  // ----- what the answers hold

  /** An encryption request of either version is answered exactly as the two calls to Vault go. If with a
      ciphertext, that opens to exactly the data; the v2 answer names the version latest at the second
      call, and the ciphertext was sealed under one no newer. If with an error, it is the first call's. */
  lemma ServedEncryption(v: Vault, s: State, plain: Bytes)
    requires Sound(v.cipher)
    ensures var (s1, a1) := Serve(v, s, EncryptV1(plain));
      var (s2, a2) := Serve(v, s, EncryptV2(plain));
      var t, t' := v.turn(s.world.calls), v.turn(s.world.calls + 1);
      var w1 := Arrive(v, s.world);
      && s1 == s2 && s1.world == (if GoesWell(t) then Arrive(v, w1) else w1)
      && a1.CipherIs? && a2.SealedIs?
      && (a1.cipher.Ok? <==> GoesWell(t) && GoesWell(t') && !t'.keyMissing)
      && (a2.sealed.Ok? <==> a1.cipher.Ok?)
      && (a1.cipher.Ok? ==>
            var inside := VersionOf(v, a1.cipher.value);
            && v.cipher.open(a1.cipher.value) == Some((inside, plain))
            && a2.sealed.value.ciphertext == a1.cipher.value
            && a2.sealed.value.keyId == Decimal(s1.world.ring.latest)
            && s.world.ring.latest <= inside <= s1.world.ring.latest == ParseDecimal(a2.sealed.value.keyId))
      && (a1.cipher.Err? ==> a2.sealed == Err(a1.cipher.error))
      && (t.fails.Some? ==> a1.cipher == Err(FromVault(t.fails.value)))
      && (t.fails.None? && t.fieldMissing ==> a1.cipher == Err(InvalidResponse))
      && (GoesWell(t) && a1.cipher.Err? ==> GetKeyVersion(v, w1).1 == Err(a1.cipher.error))
  {
    EncryptOutcome(v, s.world, plain);
    if Encrypt(v, s.world, plain).1.Ok? {
      EncryptMeaning(v, s.world, plain);
    }
    hide Encrypt, GetKeyVersion, Arrive, VersionOf, Decimal, ParseDecimal, Sound;
  }

  /** A decryption request of either version makes one call, and is answered with what the ciphertext
      holds exactly if the call goes well and the version inside is accepted when it arrives. */
  lemma ServedDecryption(v: Vault, s: State, ciphertext: string, q: Request)
    requires q == DecryptV1(ciphertext) || q == DecryptV2(ciphertext)
    ensures var (s', a) := Serve(v, s, q);
      var t, inside, ring := v.turn(s.world.calls), v.cipher.open(ciphertext), s'.world.ring;
      && s'.world == Arrive(v, s.world) && a.PlainIs?
      && (a.plain.Ok? <==> GoesWell(t) && inside.Some? && ring.oldest <= inside.value.0 <= ring.latest)
      && (a.plain.Ok? ==> a.plain.value == inside.value.1)
      && (t.fails.Some? ==> a.plain == Err(FromVault(t.fails.value)))
      && (a.plain == Err(InvalidResponse) <==> t.fails.None? && t.fieldMissing)
  {
    DecryptOutcome(v, s.world, ciphertext);
    hide Decrypt, Arrive;
  }

  /** The ciphertext of an answer to an encryption request. */
  function CiphertextOf(a: Response): Option<string> {
    match a
    case CipherIs(Ok(c)) => Some(c)
    case SealedIs(Ok(x)) => Some(x.ciphertext)
    case _ => None
  }

  /** What either version of the service ever answered to an encryption request decrypts, by either
      version and after any further requests and rotations, to exactly the data, if the call goes well and
      the version inside is still accepted; and is refused otherwise. */
  lemma ServedDataComesBack(v: Vault, s: State, plain: Bytes, q: Request, qs: seq<Request>, d: Request)
    requires Sound(v.cipher)
    requires q == EncryptV1(plain) || q == EncryptV2(plain)
    requires CiphertextOf(Serve(v, s, q).1).Some?
    requires var c := CiphertextOf(Serve(v, s, q).1).value; d == DecryptV1(c) || d == DecryptV2(c)
    ensures var c := CiphertextOf(Serve(v, s, q).1).value;
      var s2 := Run(v, Serve(v, s, q).0, qs).0;
      var (s3, a) := Serve(v, s2, d);
      var accepted := GoesWell(v.turn(s2.world.calls)) && s3.world.ring.oldest <= VersionOf(v, c);
      && (a == PlainIs(Ok(plain)) <==> accepted)
      && (!accepted ==> a.PlainIs? && a.plain.Err?)
  {
    ServedEncryption(v, s, plain);
    var (s1, answer) := Serve(v, s, q);
    var c := CiphertextOf(answer).value;
    var s2 := Run(v, s1, qs).0;
    RunMovesForward(v, s1, qs);
    ServedDecryption(v, s2, c, d);
    ServeMovesForward(v, s2, d);
    hide Serve, Run, Sound, Arrive;
  }

  /** A probe fails with the error of its encryption, or of its decryption, or because the bytes that come
      back are not "health"; and passes otherwise. */
  lemma HealthOutcome(v: Vault, s: State)
    ensures var (s', failure) := Health(v, s);
      var (w1, sealed) := Encrypt(v, s.world, [104, 101, 97, 108, 116, 104]);
      && (sealed.Err? <==> failure.Some? && failure.value.SealFailed?)
      && (sealed.Err? ==> failure == Some(SealFailed(sealed.error)) && s'.world == w1)
      && (sealed.Ok? ==>
            var (w2, plain) := Decrypt(v, w1, sealed.value.ciphertext);
            && s'.world == w2
            && (plain.Err? ==> failure == Some(OpenFailed(plain.error)))
            && (plain.Ok? && plain.value != [104, 101, 97, 108, 116, 104] ==> failure == Some(Mismatch))
            && (plain == Ok([104, 101, 97, 108, 116, 104]) ==> failure == None))
  {
    hide Encrypt, Decrypt;
  }

  /** The probes and the status of the services answer what they find. */
  lemma ServedProbes(v: Vault, s: State)
    ensures Serve(v, s, HealthV1) == Serve(v, s, HealthV2) == (Health(v, s).0, HealthIs(Health(v, s).1))
    ensures var (s', a) := Serve(v, s, StatusV2);
      var (w, id) := GetKeyVersion(v, s.world);
      var (after, failure) := Health(v, s.(world := w));
      && a.StatusIs?
      && (id.Err? ==> s' == s.(world := w) && a.status == Err(id.error))
      && (id.Ok? ==> s' == after && a.status.Ok? && a.status.value.version == "v2" && a.status.value.keyId == id.value)
      && (id.Ok? ==> a.status.value.healthz == if failure.None? then "ok" else "err")
  {
    hide GetKeyVersion, Health;
  }

  // ----- health under rotation

  /** A probe passes only if Vault gave back exactly the bytes it was sent, whatever cipher it uses. */
  lemma HealthIsHonest(v: Vault, s: State)
    ensures Health(v, s).1.None? <==>
      var (w, sealed) := Encrypt(v, s.world, HEALTH);
      sealed.Ok? && Decrypt(v, w, sealed.value.ciphertext).1 == Ok(HEALTH)
  {
  }

  /** When no call fails, the health check passes exactly if the version it sealed under is still
      accepted when it opens; so it can fail only because somebody raised the oldest version. */
  lemma HealthMeaning(v: Vault, s: State)
    requires Sound(v.cipher)
    requires forall i :: s.world.calls <= i < s.world.calls + 3 ==> Fine(v.turn(i))
    ensures var sealed := Seal(v, s, HEALTH, false).1;
      && sealed.Ok?
      && (Health(v, s).1.None? <==> Health(v, s).0.world.ring.oldest <= VersionOf(v, sealed.value.ciphertext))
  {
    Base64RoundTrip(HEALTH);
    var (s1, sealed) := Seal(v, s, HEALTH, false);
    EncryptDecrypt(v, s.world, HEALTH, s1.world);
  }

  lemma Base64RoundTrip(b: Bytes)
    ensures Base64.Decode(Base64.Standard, true, Base64.Encode(Base64.Standard, true, b)) == Some(b)
  {
    Base64.RoundTrip(Base64.Standard, true, b);
  }

  /** From here on, no call fails and the environment does nothing but rotate. */
  ghost predicate OnlyRotates(v: Vault) {
    forall i :: Fine(v.turn(i)) && OnlyRotations(v.turn(i).before)
  }

  /** Rotations alone never make a health check fail. */
  lemma RotationsKeepHealthy(v: Vault, s: State)
    requires Sound(v.cipher) && Valid(s.world.ring) && OnlyRotates(v)
    ensures Health(v, s).1.None?
    ensures Valid(Health(v, s).0.world.ring)
  {
    HealthMeaning(v, s);
    HealthMovesForward(v, s);
    EncryptMeaning(v, s.world, HEALTH);
    var (s1, sealed) := Seal(v, s, HEALTH, false);
    OperationsKeepOldest(v, s.world, HEALTH, "");
    OperationsKeepOldest(v, s1.world, HEALTH, sealed.value.ciphertext);
    hide Encrypt, Decrypt, VersionOf, Sound;
  }

  /** A registered service as a prober; say turns an error into its text. */
  function KmsProber(v: Vault, say: HealthError -> string): Probes.Prober<State> {
    Probes.Prober((s: State) =>
      var (s', failure) := Health(v, s);
      (s', if failure.None? then None else Some(say(failure.value))))
  }

  lemma RotationsKeepProberHealthy(v: Vault, s: State, say: HealthError -> string)
    requires Sound(v.cipher) && Valid(s.world.ring) && OnlyRotates(v)
    ensures var (s', failure) := KmsProber(v, say).health(s);
      failure.None? && Valid(s'.world.ring) && s'.counters == s.counters
  {
    RotationsKeepHealthy(v, s);
    HealthRecordsNothing(v, s);
  }

  /** Whatever services are registered, the health endpoint keeps answering 200 under rotations, and
      it records no metric. */
  lemma {:induction false} RotationsKeepEndpointHealthy(
      v: Vault, s: State, ps: seq<Probes.Prober<State>>, says: seq<HealthError -> string>, i: nat)
    requires Sound(v.cipher) && Valid(s.world.ring) && OnlyRotates(v)
    requires |says| == |ps| && forall j :: 0 <= j < |ps| ==> ps[j] == KmsProber(v, says[j])
    requires i <= |ps|
    ensures Valid(Probes.Before(ps, s, i).world.ring) && Probes.Before(ps, s, i).counters == s.counters
    ensures forall j :: 0 <= j < i ==> Probes.Passes(ps, s, j)
  {
    if i > 0 {
      RotationsKeepEndpointHealthy(v, s, ps, says, i - 1);
      RotationsKeepProberHealthy(v, Probes.Before(ps, s, i - 1), says[i - 1]);
    }
  }
}
