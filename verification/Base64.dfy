/** Base64 as sections 4 and 5 of RFC 4648 define it, with the leniency of the decoder that the
    program uses: line breaks are skipped and the unused low bits of the last symbol are ignored. */
module Base64 {
  import opened Prelude

  datatype Alphabet = Standard | UrlSafe

  function Symbol(a: Alphabet, i: int): char
    requires 0 <= i < 64
  {
    if i < 26 then (i + 65) as char
    else if i < 52 then (i + 71) as char
    else if i < 62 then (i - 4) as char
    else if i == 62 then (if a.Standard? then '+' else '-')
    else (if a.Standard? then '/' else '_')
  }

  /** The six bits a symbol stands for, or -1. */
  function Sextet(a: Alphabet, c: char): (v: int)
    ensures -1 <= v < 64
  {
    if 'A' <= c <= 'Z' then c as int - 65
    else if 'a' <= c <= 'z' then c as int - 71
    else if '0' <= c <= '9' then c as int + 4
    else if a.Standard? then (if c == '+' then 62 else if c == '/' then 63 else -1)
    else if c == '-' then 62
    else if c == '_' then 63
    else -1
  }

  lemma SextetOfSymbol(a: Alphabet, i: int)
    requires 0 <= i < 64
    ensures Sextet(a, Symbol(a, i)) == i
  {
  }

  function Group(a: Alphabet, x: Byte, y: Byte, z: Byte): (s: string)
    ensures |s| == 4
  {
    [Symbol(a, x / 4), Symbol(a, x % 4 * 16 + y / 16), Symbol(a, y % 16 * 4 + z / 64), Symbol(a, z % 64)]
  }

  /** EncodeToString of the standard (padded) and of the raw URL (unpadded) encoding. */
  function Encode(a: Alphabet, padded: bool, b: Bytes): string {
    if |b| == 0 then ""
    else if |b| == 1 then Group(a, b[0], 0, 0)[..2] + (if padded then "==" else "")
    else if |b| == 2 then Group(a, b[0], b[1], 0)[..3] + (if padded then "=" else "")
    else Group(a, b[0], b[1], b[2]) + Encode(a, padded, b[3..])
  }

  function WithoutLineBreaks(s: string): string {
    if s == "" then ""
    else if s[0] == '\n' || s[0] == '\r' then WithoutLineBreaks(s[1..])
    else [s[0]] + WithoutLineBreaks(s[1..])
  }

  function Ungroup(v0: int, v1: int, v2: int, v3: int): (b: Bytes)
    requires 0 <= v0 < 64 && 0 <= v1 < 64 && 0 <= v2 < 64 && 0 <= v3 < 64
    ensures |b| == 3
  {
    [v0 * 4 + v1 / 16, v1 % 16 * 16 + v2 / 4, v2 % 4 * 64 + v3]
  }

  /** Decodes a text without line breaks: whole groups, then a last group with one or two bytes. */
  function DecodeGroups(a: Alphabet, padded: bool, t: string): Option<Bytes> {
    if t == "" then Some([])
    else if |t| < 2 || Sextet(a, t[0]) < 0 || Sextet(a, t[1]) < 0 then None
    else
      var v0, v1 := Sextet(a, t[0]), Sextet(a, t[1]);
      if t[2..] == (if padded then "==" else "") then Some(Ungroup(v0, v1, 0, 0)[..1])
      else if |t| < 3 || Sextet(a, t[2]) < 0 then None
      else
        var v2 := Sextet(a, t[2]);
        if t[3..] == (if padded then "=" else "") then Some(Ungroup(v0, v1, v2, 0)[..2])
        else if |t| < 4 || Sextet(a, t[3]) < 0 then None
        else
          match DecodeGroups(a, padded, t[4..])
          case None => None
          case Some(more) => Some(Ungroup(v0, v1, v2, Sextet(a, t[3])) + more)
  }

  /** DecodeString. */
  function Decode(a: Alphabet, padded: bool, s: string): Option<Bytes> {
    DecodeGroups(a, padded, WithoutLineBreaks(s))
  }

  predicate InAlphabet(a: Alphabet, c: char) {
    Sextet(a, c) >= 0
  }

  /** Only symbols come out, and the padding sign when padding is asked for. */
  lemma {:induction false} EncodeSymbols(a: Alphabet, padded: bool, b: Bytes)
    ensures forall i :: 0 <= i < |Encode(a, padded, b)| ==>
      var c := Encode(a, padded, b)[i]; InAlphabet(a, c) || (padded && c == '=')
    ensures b != [] ==> Encode(a, padded, b) != "" && InAlphabet(a, Encode(a, padded, b)[0])
  {
    if |b| > 2 {
      EncodeSymbols(a, padded, b[3..]);
      GroupSymbols(a, b[0], b[1], b[2]);
    } else if |b| > 0 {
      GroupSymbols(a, b[0], if |b| == 2 then b[1] else 0, 0);
    }
  }

  lemma GroupSextets(a: Alphabet, x: Byte, y: Byte, z: Byte)
    ensures var g := Group(a, x, y, z);
      && Sextet(a, g[0]) == x / 4
      && Sextet(a, g[1]) == x % 4 * 16 + y / 16
      && Sextet(a, g[2]) == y % 16 * 4 + z / 64
      && Sextet(a, g[3]) == z % 64
  {
    SextetOfSymbol(a, x / 4);
    SextetOfSymbol(a, x % 4 * 16 + y / 16);
    SextetOfSymbol(a, y % 16 * 4 + z / 64);
    SextetOfSymbol(a, z % 64);
  }

  lemma UngroupGroup(x: Byte, y: Byte, z: Byte)
    ensures Ungroup(x / 4, x % 4 * 16 + y / 16, y % 16 * 4 + z / 64, z % 64) == [x, y, z]
  {
    assert (x % 4 * 16 + y / 16) / 16 == x % 4;
    assert (x % 4 * 16 + y / 16) % 16 == y / 16;
    assert (y % 16 * 4 + z / 64) / 4 == y % 16;
    assert (y % 16 * 4 + z / 64) % 4 == z / 64;
  }

  lemma GroupSymbols(a: Alphabet, x: Byte, y: Byte, z: Byte)
    ensures var g := Group(a, x, y, z);
      && InAlphabet(a, g[0]) && InAlphabet(a, g[1]) && InAlphabet(a, g[2]) && InAlphabet(a, g[3])
      && Ungroup(Sextet(a, g[0]), Sextet(a, g[1]), Sextet(a, g[2]), Sextet(a, g[3])) == [x, y, z]
  {
    GroupSextets(a, x, y, z);
    UngroupGroup(x, y, z);
  }

  lemma {:induction false} NothingToStrip(s: string)
    requires forall i :: 0 <= i < |s| ==> s[i] != '\n' && s[i] != '\r'
    ensures WithoutLineBreaks(s) == s
  {
    if s != "" {
      NothingToStrip(s[1..]);
    }
  }

  lemma {:induction false} StripAppend(s: string, t: string)
    ensures WithoutLineBreaks(s + t) == WithoutLineBreaks(s) + WithoutLineBreaks(t)
  {
    if s == "" {
      assert s + t == t;
    } else {
      assert (s + t)[1..] == s[1..] + t;
      StripAppend(s[1..], t);
    }
  }

  lemma DecodeOneByte(a: Alphabet, padded: bool, x: Byte)
    ensures DecodeGroups(a, padded, Encode(a, padded, [x])) == Some([x])
  {
    var g, t := Group(a, x, 0, 0), Encode(a, padded, [x]);
    GroupSymbols(a, x, 0, 0);
    GroupSextets(a, x, 0, 0);
    assert t[2..] == if padded then "==" else "";
    assert DecodeGroups(a, padded, t) == Some(Ungroup(Sextet(a, t[0]), Sextet(a, t[1]), 0, 0)[..1]);
    assert Sextet(a, g[2]) == 0 && Sextet(a, g[3]) == 0 && t[0] == g[0] && t[1] == g[1];
    assert [x as int, 0, 0][..1] == [x];
  }

  lemma DecodeTwoBytes(a: Alphabet, padded: bool, x: Byte, y: Byte)
    ensures DecodeGroups(a, padded, Encode(a, padded, [x, y])) == Some([x, y])
  {
    var g := Group(a, x, y, 0);
    var t := Encode(a, padded, [x, y]);
    GroupSymbols(a, x, y, 0);
    GroupSextets(a, x, y, 0);
    assert t[2..][0] == g[2] && t[3..] == if padded then "=" else "";
    assert DecodeGroups(a, padded, t) == Some(Ungroup(Sextet(a, t[0]), Sextet(a, t[1]), Sextet(a, t[2]), 0)[..2]);
    assert Sextet(a, g[3]) == 0 && t[0] == g[0] && t[1] == g[1] && t[2] == g[2];
    assert [x, y, 0][..2] == [x, y];
  }

  lemma DecodeWholeGroup(a: Alphabet, padded: bool, x: Byte, y: Byte, z: Byte, t: string)
    ensures DecodeGroups(a, padded, Group(a, x, y, z) + t) ==
            match DecodeGroups(a, padded, t)
            case None => None
            case Some(more) => Some([x, y, z] + more)
  {
    var g := Group(a, x, y, z);
    GroupSymbols(a, x, y, z);
    assert (g + t)[2..][0] == g[2] && (g + t)[3..][0] == g[3] && (g + t)[4..] == t;
  }

  lemma {:induction false} DecodeGroupsOfEncode(a: Alphabet, padded: bool, b: Bytes)
    ensures DecodeGroups(a, padded, Encode(a, padded, b)) == Some(b)
  {
    if |b| == 1 {
      assert b == [b[0]];
      DecodeOneByte(a, padded, b[0]);
    } else if |b| == 2 {
      assert b == [b[0], b[1]];
      DecodeTwoBytes(a, padded, b[0], b[1]);
    } else if |b| > 2 {
      DecodeGroupsOfEncode(a, padded, b[3..]);
      DecodeWholeGroup(a, padded, b[0], b[1], b[2], Encode(a, padded, b[3..]));
      assert b == [b[0], b[1], b[2]] + b[3..];
    }
  }

  /** Every byte string survives the trip, in both alphabets, with and without padding. */
  lemma RoundTrip(a: Alphabet, padded: bool, b: Bytes)
    ensures Decode(a, padded, Encode(a, padded, b)) == Some(b)
  {
    EncodeSymbols(a, padded, b);
    NothingToStrip(Encode(a, padded, b));
    DecodeGroupsOfEncode(a, padded, b);
  }

  /** The decoder looks through any line breaks put into an encoding. */
  lemma RoundTripBroken(a: Alphabet, padded: bool, b: Bytes, broken: string)
    requires WithoutLineBreaks(broken) == Encode(a, padded, b)
    ensures Decode(a, padded, broken) == Some(b)
  {
    DecodeGroupsOfEncode(a, padded, b);
  }

  // ----- what an encoding looks like

  const UPPER := "ABCDEFGHIJKLMNOPQRSTUVWXYZ"
  const LOWER := "abcdefghijklmnopqrstuvwxyz"
  const FIGURES := "0123456789"

  lemma Lengths()
    ensures |UPPER| == 26 && |LOWER| == 26 && |FIGURES| == 10
  {
  }

  lemma UpperAt(k: int)
    requires 0 <= k < 26
    ensures |UPPER| == 26 && UPPER[k] as int == k + 65
  {
  }

  lemma LowerAt(k: int)
    requires 0 <= k < 26
    ensures |LOWER| == 26 && LOWER[k] as int == k + 97
  {
  }

  lemma FigureAt(k: int)
    requires 0 <= k < 10
    ensures |FIGURES| == 10 && FIGURES[k] as int == k + 48
  {
  }

  /** The alphabets are those of tables 1 and 2 of RFC 4648. */
  lemma Alphabets(i: int)
    requires 0 <= i < 64
    ensures var s := UPPER + LOWER + FIGURES + "+/"; |s| == 64 && Symbol(Standard, i) == s[i]
    ensures var s := UPPER + LOWER + FIGURES + "-_"; |s| == 64 && Symbol(UrlSafe, i) == s[i]
  {
    if i < 26 {
      UpperAt(i);
    } else if i < 52 {
      LowerAt(i - 26);
    } else if i < 62 {
      FigureAt(i - 52);
    }
    Lengths();
    hide UPPER, LOWER, FIGURES;
  }

  /** Three bytes are four symbols: the number that the bytes make, most significant first, in base 64. */
  lemma ThreeBytes(a: Alphabet, padded: bool, x: Byte, y: Byte, z: Byte)
    ensures var n := (x * 256 + y) * 256 + z;
      Encode(a, padded, [x, y, z]) ==
      [Symbol(a, n / 262144), Symbol(a, n / 4096 % 64), Symbol(a, n / 64 % 64), Symbol(a, n % 64)]
  {
    SextetsOfNumber(x, y, z);
    EncodeTriple(a, padded, x, y, z);
    hide Symbol;
  }

  lemma EncodeTriple(a: Alphabet, padded: bool, x: Byte, y: Byte, z: Byte)
    ensures Encode(a, padded, [x, y, z]) == Group(a, x, y, z)
  {
    assert [x, y, z][3..] == [];
    assert Encode(a, padded, []) == "";
    hide Symbol;
  }

  lemma SextetsOfNumber(x: Byte, y: Byte, z: Byte)
    ensures var n := (x * 256 + y) * 256 + z;
      && n / 262144 == x / 4 && n / 4096 % 64 == x % 4 * 16 + y / 16
      && n / 64 % 64 == y % 16 * 4 + z / 64 && n % 64 == z % 64
  {
    SextetsOfSum(x / 4, x % 4, y / 16, y % 16, z / 64, z % 64);
  }

  lemma SextetsOfSum(x1: nat, x2: nat, y1: nat, y2: nat, z1: nat, z2: nat)
    requires x1 < 64 && x2 < 4 && y1 < 16 && y2 < 16 && z1 < 4 && z2 < 64
    ensures var n := 262144 * x1 + 65536 * x2 + 4096 * y1 + 256 * y2 + 64 * z1 + z2;
      n / 262144 == x1 && n / 4096 % 64 == x2 * 16 + y1 && n / 64 % 64 == y2 * 4 + z1 && n % 64 == z2
  {
    var n := 262144 * x1 + 65536 * x2 + 4096 * y1 + 256 * y2 + 64 * z1 + z2;
    assert n / 4096 == 64 * x1 + (16 * x2 + y1);
    assert n / 64 == 64 * (64 * x1 + 16 * x2 + y1) + (4 * y2 + z1);
  }

  /** One byte and two bytes at the end are filled up with zero bits, and padded to four characters. */
  lemma LastBytes(a: Alphabet, padded: bool, x: Byte, y: Byte)
    ensures Encode(a, padded, []) == ""
    ensures Encode(a, padded, [x]) ==
            [Symbol(a, x * 16 / 64), Symbol(a, x * 16 % 64)] + if padded then "==" else ""
    ensures var n := (x * 256 + y) * 4;
      Encode(a, padded, [x, y]) ==
      [Symbol(a, n / 4096), Symbol(a, n / 64 % 64), Symbol(a, n % 64)] + if padded then "=" else ""
  {
    LastSextets(x, y);
    assert Group(a, x, 0, 0)[..2] == [Symbol(a, x * 16 / 64), Symbol(a, x * 16 % 64)];
    hide Symbol;
  }

  lemma LastSextets(x: Byte, y: Byte)
    ensures x * 16 / 64 == x / 4 && x * 16 % 64 == x % 4 * 16
    ensures var n := (x * 256 + y) * 4;
      n / 4096 == x / 4 && n / 64 % 64 == x % 4 * 16 + y / 16 && n % 64 == y % 16 * 4
  {
    LastOfSum(x / 4, x % 4, y / 16, y % 16);
  }

  lemma LastOfSum(x1: nat, x2: nat, y1: nat, y2: nat)
    requires x1 < 64 && x2 < 4 && y1 < 16 && y2 < 16
    ensures (64 * x1 + 16 * x2) / 64 == x1 && (64 * x1 + 16 * x2) % 64 == 16 * x2
    ensures var n := 4096 * x1 + 1024 * x2 + 64 * y1 + 4 * y2;
      n / 4096 == x1 && n / 64 % 64 == x2 * 16 + y1 && n % 64 == y2 * 4
  {
    var n := 4096 * x1 + 1024 * x2 + 64 * y1 + 4 * y2;
    assert n / 64 == 64 * x1 + (16 * x2 + y1);
  }

  lemma EncodeGroupFirst(a: Alphabet, padded: bool, u: Bytes, more: Bytes)
    requires |u| == 3
    ensures Encode(a, padded, u + more) == Group(a, u[0], u[1], u[2]) + Encode(a, padded, more)
  {
    assert (u + more)[3..] == more;
    hide Group;
  }

  /** Whole groups of three bytes are encoded one behind the other. */
  lemma {:induction false} GroupsAppend(a: Alphabet, padded: bool, b: Bytes, more: Bytes)
    requires |b| % 3 == 0
    ensures Encode(a, padded, b + more) == Encode(a, padded, b) + Encode(a, padded, more)
  {
    hide Group;
    if b == [] {
      assert b + more == more;
    } else {
      hide Encode;
      GroupsAppend(a, padded, b[3..], more);
      EncodeGroupFirst(a, padded, b[..3], b[3..]);
      EncodeGroupFirst(a, padded, b[..3], b[3..] + more);
      assert b == b[..3] + b[3..] && b + more == b[..3] + (b[3..] + more);
    }
  }

  /** The reader skips nothing but line breaks. */
  lemma {:induction false} StripsLineBreaksOnly(s: string)
    ensures forall c :: c in WithoutLineBreaks(s) <==> c in s && c != '\n' && c != '\r'
  {
    if s != "" {
      StripsLineBreaksOnly(s[1..]);
      assert s == [s[0]] + s[1..];
    }
  }

  predicate IsRead(a: Alphabet, padded: bool, t: string, b: Bytes) {
    && |t| == |Encode(a, padded, b)|
    && (forall c :: c in t ==> InAlphabet(a, c) || (padded && c == '='))
    && (|b| % 3 == 0 ==> t == Encode(a, padded, b))
  }

  lemma SymbolOfSextet(a: Alphabet, c: char)
    requires InAlphabet(a, c)
    ensures Symbol(a, Sextet(a, c)) == c
  {
  }

  lemma WholeGroupIsItself(a: Alphabet, c0: char, c1: char, c2: char, c3: char)
    requires InAlphabet(a, c0) && InAlphabet(a, c1) && InAlphabet(a, c2) && InAlphabet(a, c3)
    ensures var b := Ungroup(Sextet(a, c0), Sextet(a, c1), Sextet(a, c2), Sextet(a, c3));
      Group(a, b[0], b[1], b[2]) == [c0, c1, c2, c3]
  {
    SymbolOfSextet(a, c0);
    SymbolOfSextet(a, c1);
    SymbolOfSextet(a, c2);
    SymbolOfSextet(a, c3);
    RegroupSextets(Sextet(a, c0), Sextet(a, c1), Sextet(a, c2), Sextet(a, c3));
    hide Symbol, Sextet;
  }

  lemma RegroupSextets(v0: int, v1: int, v2: int, v3: int)
    requires 0 <= v0 < 64 && 0 <= v1 < 64 && 0 <= v2 < 64 && 0 <= v3 < 64
    ensures var b := Ungroup(v0, v1, v2, v3);
      && b[0] / 4 == v0 && b[0] % 4 * 16 + b[1] / 16 == v1
      && b[1] % 16 * 4 + b[2] / 64 == v2 && b[2] % 64 == v3
  {
  }

  lemma ReadsAppend(a: Alphabet, padded: bool, head: string, tail: string, u: Bytes, more: Bytes)
    requires |head| == 4 && |u| == 3 && IsRead(a, padded, tail, more)
    requires Encode(a, padded, u + more) == head + Encode(a, padded, more)
    requires forall c :: c in head ==> InAlphabet(a, c)
    ensures IsRead(a, padded, head + tail, u + more)
  {
    hide Encode, InAlphabet;
    assert |u + more| % 3 == |more| % 3;
  }

  lemma ReadsOneMore(a: Alphabet, padded: bool, t: string, more: Bytes)
    requires |t| >= 4 && IsRead(a, padded, t[4..], more)
    requires InAlphabet(a, t[0]) && InAlphabet(a, t[1]) && InAlphabet(a, t[2]) && InAlphabet(a, t[3])
    ensures IsRead(a, padded, t, Ungroup(Sextet(a, t[0]), Sextet(a, t[1]), Sextet(a, t[2]), Sextet(a, t[3])) + more)
  {
    var u := Ungroup(Sextet(a, t[0]), Sextet(a, t[1]), Sextet(a, t[2]), Sextet(a, t[3]));
    WholeGroupIsItself(a, t[0], t[1], t[2], t[3]);
    hide Sextet, Ungroup, Group, Symbol, Encode, InAlphabet, IsRead;
    EncodeGroupFirst(a, padded, u, more);
    assert t == [t[0], t[1], t[2], t[3]] + t[4..];
    ReadsAppend(a, padded, [t[0], t[1], t[2], t[3]], t[4..], u, more);
  }

  /** What is read as some bytes is as long as their encoding, is made of the same kind of characters, and
      is the encoding itself if that ends with a whole group. */
  lemma {:induction false} ReadsEncodingsOnly(a: Alphabet, padded: bool, t: string)
    requires DecodeGroups(a, padded, t).Some?
    ensures IsRead(a, padded, t, DecodeGroups(a, padded, t).value)
  {
    hide Sextet, Ungroup, Group, Symbol;
    if t == "" {
    } else if t[2..] == (if padded then "==" else "") {
      assert t == [t[0], t[1]] + t[2..];
    } else if t[3..] == (if padded then "=" else "") {
      assert t == [t[0], t[1], t[2]] + t[3..];
    } else {
      ReadsEncodingsOnly(a, padded, t[4..]);
      WholeGroupIsItself(a, t[0], t[1], t[2], t[3]);
      ReadsOneMore(a, padded, t, DecodeGroups(a, padded, t[4..]).value);
    }
  }
}
