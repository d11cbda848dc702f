/** The compact serialisation of section 7.1 of RFC 7515 with an ES256 signature (section 3.4 of
    RFC 7518): three unpadded base64url parts, the last one two fixed-width big-endian integers. */
module CompactJwt {
  import opened Prelude
  import Base64

  const HALF := 32

  function Power(k: nat): (p: nat)
    ensures p > 0
  {
    if k == 0 then 1 else 256 * Power(k - 1)
  }

  /** The last size base-256 digits of n, most significant first. */
  function BigEndian(n: nat, size: nat): (b: Bytes)
    ensures |b| == size
  {
    if size == 0 then [] else BigEndian(n / 256, size - 1) + [n % 256]
  }

  function Number(b: Bytes): nat {
    if b == [] then 0 else Number(b[..|b| - 1]) * 256 + b[|b| - 1]
  }

  lemma {:induction false} NumberOfBigEndian(n: nat, size: nat)
    requires n < Power(size)
    ensures Number(BigEndian(n, size)) == n
  {
    if size > 0 {
      NumberOfBigEndian(n / 256, size - 1);
      assert BigEndian(n, size)[..size - 1] == BigEndian(n / 256, size - 1);
    }
  }

  /** Fixed width makes the number's bytes unique: the other direction of the same fact. */
  lemma {:induction false} BigEndianOfNumber(b: Bytes)
    ensures Number(b) < Power(|b|) && BigEndian(Number(b), |b|) == b
  {
    if b != [] {
      var init := b[..|b| - 1];
      BigEndianOfNumber(init);
      assert Number(b) / 256 == Number(init) && Number(b) % 256 == b[|b| - 1];
      assert b == init + [b[|b| - 1]];
    }
  }

  /** The most significant byte comes first: byte i is the digit for its power of 256. */
  lemma {:induction false} BigEndianAt(n: nat, size: nat, i: nat)
    requires i < size
    ensures BigEndian(n, size)[i] == n / Power(size - 1 - i) % 256
  {
    if i < size - 1 {
      BigEndianAt(n / 256, size - 1, i);
      DivideTwice(n, 256, Power(size - 2 - i));
      assert Power(size - 1 - i) == 256 * Power(size - 2 - i);
    }
  }

  lemma MoveDigit(n: nat, size: nat, tail: Bytes)
    requires size > 0
    ensures BigEndian(n, size) + tail == BigEndian(n / 256, size - 1) + ([n % 256] + tail)
  {
  }

  /** big.Int.FillBytes on the slice lo..hi of a buffer; it panics when the number does not fit. */
  method FillBytes(buf: array<Byte>, lo: nat, hi: nat, n: nat)
    requires lo <= hi <= buf.Length && n < Power(hi - lo)
    modifies buf
    ensures buf[..] == old(buf[..lo]) + BigEndian(n, hi - lo) + old(buf[hi..])
  {
    hide Power;
    var i, left := hi, n;
    while i > lo
      invariant lo <= i <= hi
      invariant buf[..i] == old(buf[..i]) && buf[hi..] == old(buf[hi..])
      invariant BigEndian(left, i - lo) + buf[i..hi] == BigEndian(n, hi - lo)
    {
      ghost var tail := buf[i..hi];
      MoveDigit(left, i - lo, tail);
      i := i - 1;
      buf[i] := left % 256;
      left := left / 256;
      assert buf[i..hi] == [buf[i]] + tail;
    }
    assert BigEndian(left, 0) + buf[lo..hi] == buf[lo..hi];
    assert buf[..] == buf[..lo] + buf[lo..hi] + buf[hi..];
  }

  function Part(b: Bytes): string {
    Base64.Encode(Base64.UrlSafe, false, b)
  }

  function PartBytes(s: string): Option<Bytes> {
    Base64.Decode(Base64.UrlSafe, false, s)
  }

  function Signature(r: nat, s: nat): Bytes {
    BigEndian(r, HALF) + BigEndian(s, HALF)
  }

  function Dotted(a: string, b: string): string {
    a + "." + b
  }

  function Token(header: Bytes, payload: Bytes, r: nat, s: nat): string {
    Dotted(Dotted(Part(header), Part(payload)), Part(Signature(r, s)))
  }

  /** The buffer of 64 bytes, filled half by half. */
  method FillSignature(r: nat, s: nat) returns (sig: array<Byte>)
    requires r < Power(HALF) && s < Power(HALF)
    ensures fresh(sig) && sig[..] == Signature(r, s)
  {
    hide BigEndian, Power;
    sig := new Byte[2 * HALF](_ => 0);
    FillBytes(sig, 0, HALF, r);
    assert sig[..HALF] == BigEndian(r, HALF);
    FillBytes(sig, HALF, 2 * HALF, s);
  }

  datatype JwtError = HeaderMarshal | PayloadMarshal | SignFailed

  /** SignTestJWT. The JSON texts and the signing function stand for library calls that can fail;
      both halves of a P-256 signature are below the curve order and so fit into 32 bytes. */
  method SignTestJwt(header: Option<Bytes>, payload: Option<Bytes>, sign: string -> Option<(nat, nat)>)
    returns (token: Result<string, JwtError>)
    requires forall input :: sign(input).Some? ==>
      sign(input).value.0 < Power(HALF) && sign(input).value.1 < Power(HALF)
    ensures header.None? ==> token == Err(HeaderMarshal)
    ensures header.Some? && payload.None? ==> token == Err(PayloadMarshal)
    ensures header.Some? && payload.Some? ==>
      match sign(Dotted(Part(header.value), Part(payload.value)))
      case None => token == Err(SignFailed)
      case Some((r, s)) => token == Ok(Token(header.value, payload.value, r, s))
  {
    if header.None? {
      return Err(HeaderMarshal);
    }
    if payload.None? {
      return Err(PayloadMarshal);
    }
    hide Power, Signature;
    var signingInput := Dotted(Part(header.value), Part(payload.value));
    var signed := sign(signingInput);
    if signed.None? {
      return Err(SignFailed);
    }
    var (r, s) := signed.value;
    var sig := FillSignature(r, s);
    return Ok(Dotted(signingInput, Part(sig[..])));
  }

  // ----- a token can be read in exactly one way

  /** The parts between the dots. */
  function SplitDots(s: string): (parts: seq<string>)
    ensures parts != []
  {
    match Find(s, ".")
    case None => [s]
    case Some(i) => [s[..i]] + SplitDots(s[i + 1..])
  }

  lemma SplitFirst(part: string, rest: string)
    requires '.' !in part
    ensures SplitDots(Dotted(part, rest)) == [part] + SplitDots(rest)
  {
    var s := Dotted(part, rest);
    forall j | 0 <= j < |part| ensures !("." <= s[j..]) {
      assert s[j..][0] == part[j];
    }
    assert s[|part|..][0] == '.';
    FindAt(s, ".", |part|);
    assert s[..|part|] == part && s[|part| + 1..] == rest;
  }

  lemma SplitLast(part: string)
    requires '.' !in part
    ensures SplitDots(part) == [part]
  {
    FindAbsent(part, '.');
  }

  lemma PartFacts(b: Bytes)
    ensures '.' !in Part(b) && PartBytes(Part(b)) == Some(b)
  {
    Base64.EncodeSymbols(Base64.UrlSafe, false, b);
    Base64.RoundTrip(Base64.UrlSafe, false, b);
  }

  lemma DottedIsAssociative(a: string, b: string, c: string)
    ensures Dotted(Dotted(a, b), c) == Dotted(a, Dotted(b, c))
  {
  }

  lemma SplitThree(a: string, b: string, c: string)
    requires '.' !in a && '.' !in b && '.' !in c
    ensures SplitDots(Dotted(Dotted(a, b), c)) == [a, b, c]
  {
    DottedIsAssociative(a, b, c);
    SplitFirst(a, Dotted(b, c));
    SplitFirst(b, c);
    SplitLast(c);
    hide Dotted, SplitDots;
  }

  lemma SignatureReads(r: nat, s: nat)
    requires r < Power(HALF) && s < Power(HALF)
    ensures var sig := Signature(r, s); |sig| == 64 && Number(sig[..32]) == r && Number(sig[32..]) == s
  {
    var sig := Signature(r, s);
    NumberOfBigEndian(r, HALF);
    NumberOfBigEndian(s, HALF);
    assert sig[..32] == BigEndian(r, HALF) && sig[32..] == BigEndian(s, HALF);
  }

  /** A token splits into exactly three parts that decode to the header, the payload and 64 bytes,
      and the two halves of those are exactly R and S. */
  lemma TokenReads(header: Bytes, payload: Bytes, r: nat, s: nat)
    requires r < Power(HALF) && s < Power(HALF)
    ensures var parts := SplitDots(Token(header, payload, r, s));
      && |parts| == 3
      && PartBytes(parts[0]) == Some(header) && PartBytes(parts[1]) == Some(payload)
      && PartBytes(parts[2]).Some?
      && var sig := PartBytes(parts[2]).value;
         |sig| == 64 && Number(sig[..32]) == r && Number(sig[32..]) == s
  {
    PartFacts(header);
    PartFacts(payload);
    PartFacts(Signature(r, s));
    SplitThree(Part(header), Part(payload), Part(Signature(r, s)));
    SignatureReads(r, s);
    hide Part, PartBytes, Signature, SplitDots, Dotted, Power;
  }

  /** The token, letter by letter: three base64url texts with a dot between each two, the last one of R and
      S, 32 bytes each, most significant first. */
  lemma TokenText(header: Bytes, payload: Bytes, r: nat, s: nat) returns (sig: Bytes)
    ensures Token(header, payload, r, s) ==
            Base64.Encode(Base64.UrlSafe, false, header) + "." + Base64.Encode(Base64.UrlSafe, false, payload) + "."
            + Base64.Encode(Base64.UrlSafe, false, sig)
    ensures |sig| == 64
    ensures forall i :: 0 <= i < 32 ==> sig[i] == r / Power(31 - i) % 256
    ensures forall i :: 32 <= i < 64 ==> sig[i] == s / Power(63 - i) % 256
  {
    sig := Signature(r, s);
    forall i | 0 <= i < 32 ensures sig[i] == r / Power(31 - i) % 256 {
      BigEndianAt(r, HALF, i);
      assert sig[i] == BigEndian(r, HALF)[i];
      hide BigEndian, Power;
    }
    forall i | 32 <= i < 64 ensures sig[i] == s / Power(63 - i) % 256 {
      BigEndianAt(s, HALF, i - 32);
      assert sig[i] == BigEndian(s, HALF)[i - 32];
      hide BigEndian, Power;
    }
  }

  /** Equal tokens carry equal contents. */
  lemma TokenIsUnique(h: Bytes, p: Bytes, r: nat, s: nat, h': Bytes, p': Bytes, r': nat, s': nat)
    requires r < Power(HALF) && s < Power(HALF) && r' < Power(HALF) && s' < Power(HALF)
    requires Token(h, p, r, s) == Token(h', p', r', s')
    ensures h == h' && p == p' && r == r' && s == s'
  {
    TokenReads(h, p, r, s);
    TokenReads(h', p', r', s');
  }
}
