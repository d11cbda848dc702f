/** The client's transit operations against a key ring that others rotate at any time. Every Vault
    call is one atomic step; the environment acts, as often as it likes, before each of them. */
module Transit {
  import opened Prelude
  import Base64

  // ----- decimal key identifiers

  function Decimal(n: nat): string {
    (if n < 10 then "" else Decimal(n / 10)) + [(n % 10 + 48) as char]
  }

  function ParseDecimal(s: string): nat {
    if s == "" then 0
    else ParseDecimal(s[..|s| - 1]) * 10 + (if s[|s| - 1] >= '0' then s[|s| - 1] as int - 48 else 0)
  }

  lemma {:induction false} DecimalReads(n: nat)
    ensures ParseDecimal(Decimal(n)) == n
  {
    var s := Decimal(n);
    assert s[..|s| - 1] == if n < 10 then "" else Decimal(n / 10);
    if n >= 10 {
      DecimalReads(n / 10);
    }
  }

  // ----- the Vault server

  /** Sealing under a key version (the number is the randomness of one call) and opening. */
  datatype Cipher = Cipher(seal: (nat, nat, Bytes) -> string, open: string -> Option<(nat, Bytes)>)

  ghost predicate Sound(c: Cipher) {
    forall version: nat, nonce: nat, plain: Bytes :: c.open(c.seal(version, nonce, plain)) == Some((version, plain))
  }

  function Power10(k: nat): (p: nat)
    ensures p > 0
  {
    if k == 0 then 1 else 10 * Power10(k - 1)
  }

  const DIGITS := "0123456789"

  /** The text of a number has as many digits as it needs, and no more. */
  lemma {:induction false} DecimalLength(n: nat)
    ensures var s := Decimal(n);
      n < Power10(|s|) && |s| > 0 && (|s| > 1 ==> n >= Power10(|s| - 1))
  {
    if n >= 10 {
      DecimalLength(n / 10);
    } else {
      assert Power10(1) == 10 * Power10(0);
    }
  }

  lemma DigitIs(d: int)
    requires 0 <= d < 10
    ensures |DIGITS| == 10 && DIGITS[d] == (d + 48) as char
  {
  }

  lemma DigitPlace(n: nat, k: nat)
    ensures n / Power10(k) % 10 == if k == 0 then n % 10 else n / 10 / Power10(k - 1) % 10
  {
    if k > 0 {
      DivideTwice(n, 10, Power10(k - 1));
    }
  }

  lemma LastDigit(n: nat)
    ensures Decimal(n) == (if n < 10 then "" else Decimal(n / 10)) + [DIGITS[n % 10]]
  {
    DigitIs(n % 10);
    hide DIGITS;
  }

  /** And at each place it has the digit for that power of ten. */
  lemma {:induction false} DecimalDigits(n: nat, k: nat)
    requires k < |Decimal(n)|
    ensures |DIGITS| == 10 && Decimal(n)[|Decimal(n)| - 1 - k] == DIGITS[n / Power10(k) % 10]
  {
    LastDigit(n);
    DigitPlace(n, k);
    DigitIs(0);
    hide Decimal, Power10, DIGITS;
    if k > 0 {
      DecimalDigits(n / 10, k - 1);
    }
  }

  // ----- a cipher of this kind

  /** The text in front of the first colon and the text behind it. */
  function Cut(s: string): Option<(string, string)> {
    match Find(s, ":")
    case None => None
    case Some(i) => Some((s[..i], s[i + 1..]))
  }

  lemma CutsAtColon(head: string, tail: string)
    requires ':' !in head
    ensures Cut(head + ":" + tail) == Some((head, tail))
  {
    var s := head + ":" + tail;
    forall j | 0 <= j < |head| ensures !(":" <= s[j..]) {
      assert s[j..][0] == head[j];
    }
    assert s[|head|..][0] == ':';
    FindAt(s, ":", |head|);
    assert s[..|head|] == head && s[|head| + 1..] == tail;
  }

  lemma {:induction false} NoColonInDecimal(n: nat)
    ensures ':' !in Decimal(n)
  {
    if n >= 10 {
      NoColonInDecimal(n / 10);
    }
  }

  function SealText(version: nat, nonce: nat, plain: Bytes): string {
    Decimal(version) + ":" + (Decimal(nonce) + ":" + Base64.Encode(Base64.Standard, true, plain))
  }

  function OpenText(s: string): Option<(nat, Bytes)> {
    match Cut(s)
    case None => None
    case Some((version, rest)) =>
      match Cut(rest)
      case None => None
      case Some((_, text)) =>
        match Base64.Decode(Base64.Standard, true, text)
        case None => None
        case Some(plain) => Some((ParseDecimal(version), plain))
  }

  lemma OpensSealed(version: nat, nonce: nat, plain: Bytes)
    ensures OpenText(SealText(version, nonce, plain)) == Some((version, plain))
  {
    var text := Base64.Encode(Base64.Standard, true, plain);
    NoColonInDecimal(version);
    NoColonInDecimal(nonce);
    CutsAtColon(Decimal(version), Decimal(nonce) + ":" + text);
    CutsAtColon(Decimal(nonce), text);
    Base64.RoundTrip(Base64.Standard, true, plain);
    DecimalReads(version);
    hide Cut, Decimal, ParseDecimal, Base64.Encode, Base64.Decode;
  }

  const TEXT_CIPHER :=
    Cipher((version: nat, nonce: nat, plain: Bytes) => SealText(version, nonce, plain), (s: string) => OpenText(s))

  /** What is assumed about Vault's cipher can be had. */
  lemma SoundCipherExists()
    ensures Sound(TEXT_CIPHER)
  {
    forall version: nat, nonce: nat, plain: Bytes
      ensures TEXT_CIPHER.open(TEXT_CIPHER.seal(version, nonce, plain)) == Some((version, plain))
    {
      OpensSealed(version, nonce, plain);
    }
  }

  // ----- the key ring

  /** The latest key version and the oldest one that is still accepted for decryption. */
  datatype Ring = Ring(latest: nat, oldest: nat)

  predicate Valid(r: Ring) {
    1 <= r.oldest <= r.latest
  }

  datatype EnvStep = Rotate | RaiseOldest(version: nat)

  function Act(r: Ring, e: EnvStep): Ring {
    match e
    case Rotate => r.(latest := r.latest + 1)
    case RaiseOldest(n) => if r.oldest <= n <= r.latest then r.(oldest := n) else r
  }

  function ActAll(r: Ring, es: seq<EnvStep>): Ring
    decreases es
  {
    if es == [] then r else ActAll(Act(r, es[0]), es[1..])
  }

  /** How a call goes: what others do first, whether it fails or answers without the expected field,
      whether the key is missing, and the randomness it uses. */
  datatype Turn = Turn(before: seq<EnvStep>, fails: Option<string>, fieldMissing: bool, keyMissing: bool, nonce: nat)

  datatype Vault = Vault(cipher: Cipher, turn: nat -> Turn)

  /** The ring and the number of calls made so far. */
  datatype World = World(ring: Ring, calls: nat)

  datatype Reply = Failed(error: string) | Nothing | NoField | Field(text: string)

  function Arrive(v: Vault, w: World): World {
    World(ActAll(w.ring, v.turn(w.calls).before), w.calls + 1)
  }

  function Answer(t: Turn, reply: Reply): Reply {
    if t.fails.Some? then Failed(t.fails.value) else if t.fieldMissing then NoField else reply
  }

  function EncryptCall(v: Vault, w: World, plaintext: string): (World, Reply) {
    var w', t := Arrive(v, w), v.turn(w.calls);
    (w', Answer(t,
      match Base64.Decode(Base64.Standard, true, plaintext)
      case None => Failed("plaintext is not base64")
      case Some(b) => Field(v.cipher.seal(w'.ring.latest, t.nonce, b))))
  }

  function DecryptCall(v: Vault, w: World, ciphertext: string): (World, Reply) {
    var w', t := Arrive(v, w), v.turn(w.calls);
    (w', Answer(t,
      match v.cipher.open(ciphertext)
      case None => Failed("invalid ciphertext")
      case Some((version, b)) =>
        if w'.ring.oldest <= version <= w'.ring.latest then Field(Base64.Encode(Base64.Standard, true, b))
        else Failed("ciphertext version is disallowed")))
  }

  function ReadKeyCall(v: Vault, w: World): (World, Reply) {
    var w', t := Arrive(v, w), v.turn(w.calls);
    (w', if t.fails.None? && t.keyMissing then Nothing else Answer(t, Field(Decimal(w'.ring.latest))))
  }

  // ----- the client

  datatype ClientError = FromVault(error: string) | InvalidResponse | NoKey | NoLatestVersion | CorruptPlaintext

  function GetKeyVersion(v: Vault, w: World): (World, Result<string, ClientError>) {
    var (w', reply) := ReadKeyCall(v, w);
    match reply
    case Failed(e) => (w', Err(FromVault(e)))
    case Nothing => (w', Err(NoKey))
    case NoField => (w', Err(NoLatestVersion))
    case Field(id) => (w', Ok(id))
  }

  datatype Sealed = Sealed(ciphertext: string, keyId: string)

  function Encrypt(v: Vault, w: World, data: Bytes): (World, Result<Sealed, ClientError>) {
    var (w1, reply) := EncryptCall(v, w, Base64.Encode(Base64.Standard, true, data));
    match reply
    case Failed(e) => (w1, Err(FromVault(e)))
    case Field(ciphertext) =>
      var (w2, id) := GetKeyVersion(v, w1);
      (w2, if id.Err? then Err(id.error) else Ok(Sealed(ciphertext, id.value)))
    case _ => (w1, Err(InvalidResponse))
  }

  function Decrypt(v: Vault, w: World, data: string): (World, Result<Bytes, ClientError>) {
    var (w', reply) := DecryptCall(v, w, data);
    match reply
    case Failed(e) => (w', Err(FromVault(e)))
    case Field(text) =>
      (w', match Base64.Decode(Base64.Standard, true, text)
           case None => Err(CorruptPlaintext)
           case Some(b) => Ok(b))
    case _ => (w', Err(InvalidResponse))
  }

  // ----- the ring only moves forward

  /** What may lie between two moments: any number of environment steps. */
  predicate Later(r: Ring, r': Ring) {
    r.latest <= r'.latest && r.oldest <= r'.oldest && (Valid(r) ==> Valid(r'))
  }

  predicate HasRotation(es: seq<EnvStep>) {
    es != [] && (es[0].Rotate? || HasRotation(es[1..]))
  }

  lemma {:induction false} ActAllMovesForward(r: Ring, es: seq<EnvStep>)
    ensures Later(r, ActAll(r, es))
    ensures ActAll(r, es).latest == r.latest <==> !HasRotation(es)
    decreases es
  {
    if es != [] {
      ActAllMovesForward(Act(r, es[0]), es[1..]);
    }
  }

  predicate OnlyRotations(es: seq<EnvStep>) {
    forall e :: e in es ==> e.Rotate?
  }

  lemma {:induction false} RotationsKeepOldest(r: Ring, es: seq<EnvStep>)
    requires OnlyRotations(es)
    ensures ActAll(r, es).oldest == r.oldest
    decreases es
  {
    if es != [] {
      assert es[0] in es && forall e :: e in es[1..] ==> e in es;
      RotationsKeepOldest(Act(r, es[0]), es[1..]);
    }
  }

  /** While others only rotate, no operation sees the oldest version change. */
  lemma OperationsKeepOldest(v: Vault, w: World, data: Bytes, ciphertext: string)
    requires forall i :: OnlyRotations(v.turn(i).before)
    ensures Encrypt(v, w, data).0.ring.oldest == w.ring.oldest
    ensures Decrypt(v, w, ciphertext).0.ring.oldest == w.ring.oldest
  {
    RotationsKeepOldest(w.ring, v.turn(w.calls).before);
    var w1 := Arrive(v, w);
    RotationsKeepOldest(w1.ring, v.turn(w1.calls).before);
  }

  lemma OperationsMoveForward(v: Vault, w: World, data: Bytes, ciphertext: string)
    ensures Later(w.ring, GetKeyVersion(v, w).0.ring)
    ensures Later(w.ring, Encrypt(v, w, data).0.ring)
    ensures Later(w.ring, Decrypt(v, w, ciphertext).0.ring)
  {
    ActAllMovesForward(w.ring, v.turn(w.calls).before);
    var w1 := Arrive(v, w);
    ActAllMovesForward(w1.ring, v.turn(w1.calls).before);
  }

  // ----- what Encrypt returns

  /** The version that a ciphertext was sealed under. */
  function VersionOf(v: Vault, ciphertext: string): nat {
    match v.cipher.open(ciphertext)
    case None => 0
    case Some((version, _)) => version
  }

  /** The ciphertext holds exactly the data, under the version that was the latest when it was sealed.
      The reported identifier is that of a version at least as new, and of the same one exactly when
      nobody rotates the key between the two calls that Encrypt makes. */
  lemma EncryptMeaning(v: Vault, w: World, data: Bytes)
    requires Sound(v.cipher) && Encrypt(v, w, data).1.Ok?
    ensures var (w', r) := Encrypt(v, w, data);
      var inside, reported := VersionOf(v, r.value.ciphertext), ParseDecimal(r.value.keyId);
      && v.cipher.open(r.value.ciphertext) == Some((inside, data))
      && w.ring.latest <= inside <= reported == w'.ring.latest
      && (inside == reported <==> !HasRotation(v.turn(w.calls + 1).before))
      && (r.value.keyId == Decimal(inside) <==> !HasRotation(v.turn(w.calls + 1).before))
  {
    var (w', r) := Encrypt(v, w, data);
    var w1 := Arrive(v, w);
    Base64.RoundTrip(Base64.Standard, true, data);
    assert r.value.ciphertext == v.cipher.seal(w1.ring.latest, v.turn(w.calls).nonce, data);
    assert v.cipher.open(v.cipher.seal(w1.ring.latest, v.turn(w.calls).nonce, data)) == Some((w1.ring.latest, data));
    ActAllMovesForward(w.ring, v.turn(w.calls).before);
    ActAllMovesForward(w1.ring, v.turn(w1.calls).before);
    DecimalReads(w'.ring.latest);
    DecimalReads(w1.ring.latest);
    hide Decimal, ParseDecimal, Base64.Encode, Base64.Decode, ActAll, HasRotation;
  }

  predicate GoesWell(t: Turn) {
    t.fails.None? && !t.fieldMissing
  }

  /** Which error a version read returns, in the order of the program's checks. */
  lemma KeyVersionOutcome(v: Vault, w: World)
    ensures var (w', r) := GetKeyVersion(v, w);
      var t := v.turn(w.calls);
      && w' == Arrive(v, w)
      && (forall x :: r == Err(FromVault(x)) <==> t.fails == Some(x))
      && (r == Err(NoKey) <==> t.fails.None? && t.keyMissing)
      && (r == Err(NoLatestVersion) <==> t.fails.None? && !t.keyMissing && t.fieldMissing)
      && (r.Ok? <==> GoesWell(t) && !t.keyMissing)
      && (r.Ok? ==> r.value == Decimal(w'.ring.latest) && ParseDecimal(r.value) == w'.ring.latest)
  {
    DecimalReads(Arrive(v, w).ring.latest);
  }

  /** An encryption succeeds exactly if both of its calls go well and the key can be read. If the first
      call fails there is no second one; if the second fails, the ciphertext is not returned. */
  lemma EncryptOutcome(v: Vault, w: World, data: Bytes)
    ensures var (w', r) := Encrypt(v, w, data);
      var t, t' := v.turn(w.calls), v.turn(w.calls + 1);
      && w' == (if GoesWell(t) then Arrive(v, Arrive(v, w)) else Arrive(v, w))
      && (r.Ok? <==> GoesWell(t) && GoesWell(t') && !t'.keyMissing)
      && (t.fails.Some? ==> r == Err(FromVault(t.fails.value)))
      && (t.fails.None? && t.fieldMissing ==> r == Err(InvalidResponse))
      && (GoesWell(t) && r.Err? ==> GetKeyVersion(v, Arrive(v, w)).1 == Err(r.error))
      && (r.Ok? ==> r.value.keyId == Decimal(w'.ring.latest))
  {
    Base64.RoundTrip(Base64.Standard, true, data);
  }

  /** With a rotation before every call, the reported identifier is newer than the version inside. */
  lemma IdentifierCanBeNewer(w: World, data: Bytes)
    ensures var v := Vault(TEXT_CIPHER, _ => Turn([Rotate], None, false, false, 0));
      var r := Encrypt(v, w, data).1;
      r.Ok? && VersionOf(v, r.value.ciphertext) < ParseDecimal(r.value.keyId)
  {
    var v := Vault(TEXT_CIPHER, _ => Turn([Rotate], None, false, false, 0));
    SoundCipherExists();
    EncryptOutcome(v, w, data);
    EncryptMeaning(v, w, data);
    assert HasRotation(v.turn(w.calls + 1).before);
    hide Encrypt, VersionOf, Decimal, ParseDecimal, Sound;
  }

  /** A decryption makes one call, and what Vault answers is always readable base64. */
  lemma DecryptOutcome(v: Vault, w: World, ciphertext: string)
    ensures var (w', r) := Decrypt(v, w, ciphertext);
      var t, inside := v.turn(w.calls), v.cipher.open(ciphertext);
      && w' == Arrive(v, w)
      && (r.Ok? <==> GoesWell(t) && inside.Some? && w'.ring.oldest <= inside.value.0 <= w'.ring.latest)
      && (r.Ok? ==> r.value == inside.value.1)
      && (t.fails.Some? ==> r == Err(FromVault(t.fails.value)))
      && (r == Err(InvalidResponse) <==> t.fails.None? && t.fieldMissing)
      && (GoesWell(t) && r.Err? ==> r.error.FromVault?)
  {
    match v.cipher.open(ciphertext)
    case None =>
    case Some((_, plain)) => Base64.RoundTrip(Base64.Standard, true, plain);
  }

  /** A ciphertext that Encrypt ever returned decrypts, at any later moment at which the call itself
      goes well, to exactly the original bytes if its version is still accepted, and is refused
      otherwise. The reported identifier plays no role. */
  lemma EncryptDecrypt(v: Vault, w: World, data: Bytes, later: World)
    requires Sound(v.cipher) && Encrypt(v, w, data).1.Ok?
    requires Later(Encrypt(v, w, data).0.ring, later.ring)
    requires GoesWell(v.turn(later.calls))
    ensures var ciphertext := Encrypt(v, w, data).1.value.ciphertext;
      var (w', r) := Decrypt(v, later, ciphertext);
      && (r == Ok(data) <==> w'.ring.oldest <= VersionOf(v, ciphertext))
      && (r.Err? <==> w'.ring.oldest > VersionOf(v, ciphertext))
  {
    EncryptMeaning(v, w, data);
    Base64.RoundTrip(Base64.Standard, true, data);
    ActAllMovesForward(later.ring, v.turn(later.calls).before);
  }

  /** With rotations only, nothing that was ever encrypted is lost. */
  lemma RotationsNeverLoseData(v: Vault, w: World, data: Bytes, later: World)
    requires Sound(v.cipher) && Valid(w.ring) && Encrypt(v, w, data).1.Ok?
    requires Later(Encrypt(v, w, data).0.ring, later.ring) && later.ring.oldest == w.ring.oldest
    requires GoesWell(v.turn(later.calls)) && OnlyRotations(v.turn(later.calls).before)
    ensures Decrypt(v, later, Encrypt(v, w, data).1.value.ciphertext).1 == Ok(data)
  {
    EncryptMeaning(v, w, data);
    EncryptDecrypt(v, w, data, later);
    RotationsKeepOldest(later.ring, v.turn(later.calls).before);
  }
}
