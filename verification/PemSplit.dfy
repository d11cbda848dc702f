/** Splitting a combined PEM file into certificates and private keys, against a contract for the
    PEM reader and printer. The contract is discharged for a concrete codec in PemText. */
module PemSplit {
  import opened Prelude

  datatype Block = Block(blockType: string, headers: map<string, string>, body: Bytes)

  datatype Kind = Certificate | PrivateKey | Ignored

  function KindOf(b: Block): Kind {
    if b.blockType == "CERTIFICATE" then Certificate
    else if b.blockType == "EC PRIVATE KEY" || b.blockType == "RSA PRIVATE KEY" || b.blockType == "PRIVATE KEY" then
      PrivateKey
    else Ignored
  }

  /** decode returns the next block and the text behind it, or None when no block is left.
      encode returns the empty text when it cannot print the block. */
  datatype Codec = Codec(decode: string -> Option<(Block, string)>, encode: Block -> string)

  /** Whatever follows a printed block, reading gives that block and exactly what follows. */
  ghost predicate Reparses(c: Codec, b: Block) {
    forall rest :: c.decode(c.encode(b) + rest) == Some((b, rest))
  }

  ghost predicate Shrinks(c: Codec) {
    forall data :: c.decode(data).Some? ==> |c.decode(data).value.1| < |data|
  }

  /** The whole contract: reading consumes text, and what was read and is kept prints faithfully. */
  ghost predicate Lawful(c: Codec) {
    && Shrinks(c)
    && forall data :: c.decode(data).Some? && KindOf(c.decode(data).value.0) != Ignored ==>
         Reparses(c, c.decode(data).value.0)
  }

  /** All the blocks the reader finds, in order. */
  function Blocks(c: Codec, data: string): seq<Block>
    requires Shrinks(c)
    decreases |data|
  {
    match c.decode(data)
    case None => []
    case Some((b, rest)) => [b] + Blocks(c, rest)
  }

  /** The blocks of one kind, in order. */
  function Of(bs: seq<Block>, k: Kind): seq<Block> {
    if bs == [] then []
    else if KindOf(bs[0]) == k then [bs[0]] + Of(bs[1..], k)
    else Of(bs[1..], k)
  }

  function Print(c: Codec, bs: seq<Block>): string {
    if bs == [] then "" else c.encode(bs[0]) + Print(c, bs[1..])
  }

  datatype PemError = Unreadable | NoCertificate | NoPrivateKey

  datatype Pair = Pair(cert: string, key: string)

  function Split(c: Codec, data: string): Result<Pair, PemError>
    requires Shrinks(c)
  {
    var cert := Print(c, Of(Blocks(c, data), Certificate));
    var key := Print(c, Of(Blocks(c, data), PrivateKey));
    if cert == "" then Err(NoCertificate) else if key == "" then Err(NoPrivateKey) else Ok(Pair(cert, key))
  }

  lemma {:induction false} OfAppend(s: seq<Block>, t: seq<Block>, k: Kind)
    ensures Of(s + t, k) == Of(s, k) + Of(t, k)
  {
    if s == [] {
      assert s + t == t;
    } else {
      assert (s + t)[1..] == s[1..] + t;
      OfAppend(s[1..], t, k);
    }
  }

  lemma {:induction false} PrintAppend(c: Codec, s: seq<Block>, t: seq<Block>)
    ensures Print(c, s + t) == Print(c, s) + Print(c, t)
  {
    if s == [] {
      assert s + t == t;
    } else {
      assert (s + t)[1..] == s[1..] + t;
      PrintAppend(c, s[1..], t);
    }
  }

  lemma PrintOfSnoc(c: Codec, seen: seq<Block>, b: Block, k: Kind)
    ensures Print(c, Of(seen + [b], k)) == Print(c, Of(seen, k)) + (if KindOf(b) == k then c.encode(b) else "")
  {
    OfAppend(seen, [b], k);
    assert Of([b], k) == if KindOf(b) == k then [b] else [];
    PrintAppend(c, Of(seen, k), Of([b], k));
    assert Print(c, [b]) == c.encode(b);
  }

  /** parseCombinedPEM; file is None when the file cannot be read. An empty text stands for nil. */
  method ParseCombinedPem(c: Codec, file: Option<string>) returns (r: Result<Pair, PemError>)
    requires Shrinks(c)
    ensures file.None? ==> r == Err(Unreadable)
    ensures file.Some? ==> r == Split(c, file.value)
  {
    if file.None? {
      return Err(Unreadable);
    }
    var certPem, keyPem, rest := "", "", file.value;
    ghost var seen: seq<Block> := [];
    while true
      invariant seen + Blocks(c, rest) == Blocks(c, file.value)
      invariant certPem == Print(c, Of(seen, Certificate))
      invariant keyPem == Print(c, Of(seen, PrivateKey))
      decreases |rest|
    {
      var next := c.decode(rest);
      if next.None? {
        assert seen + [] == seen;
        break;
      }
      var block := next.value.0;
      PrintOfSnoc(c, seen, block, Certificate);
      PrintOfSnoc(c, seen, block, PrivateKey);
      if block.blockType == "CERTIFICATE" {
        certPem := certPem + c.encode(block);
      } else if block.blockType in ["EC PRIVATE KEY", "RSA PRIVATE KEY", "PRIVATE KEY"] {
        keyPem := keyPem + c.encode(block);
      }
      assert seen + Blocks(c, rest) == (seen + [block]) + Blocks(c, next.value.1);
      seen, rest := seen + [block], next.value.1;
    }
    if certPem == "" {
      return Err(NoCertificate);
    }
    if keyPem == "" {
      return Err(NoPrivateKey);
    }
    return Ok(Pair(certPem, keyPem));
  }

  // ----- what the split means

  /** A file as an administrator sees it: blocks with other text in front of each and at the end. */
  datatype Piece = Piece(filler: string, block: Block)

  function Layout(c: Codec, pieces: seq<Piece>, tail: string): string {
    if pieces == [] then tail
    else pieces[0].filler + (c.encode(pieces[0].block) + Layout(c, pieces[1..], tail))
  }

  function BlocksOf(pieces: seq<Piece>): seq<Block> {
    if pieces == [] then [] else [pieces[0].block] + BlocksOf(pieces[1..])
  }

  /** The reader looks past this text when a block comes behind it. */
  ghost predicate Silent(c: Codec, filler: string) {
    forall b, rest :: Reparses(c, b) ==> c.decode(filler + (c.encode(b) + rest)) == Some((b, rest))
  }

  ghost predicate WellLaidOut(c: Codec, pieces: seq<Piece>, tail: string) {
    && (forall i :: 0 <= i < |pieces| ==> Silent(c, pieces[i].filler) && Reparses(c, pieces[i].block))
    && c.decode(tail).None?
  }

  lemma {:induction false} ReadsLayout(c: Codec, pieces: seq<Piece>, tail: string)
    requires Lawful(c) && WellLaidOut(c, pieces, tail)
    ensures Blocks(c, Layout(c, pieces, tail)) == BlocksOf(pieces)
  {
    if pieces != [] {
      ReadsLayout(c, pieces[1..], tail);
      assert Silent(c, pieces[0].filler) && Reparses(c, pieces[0].block);
    }
  }

  lemma PrintedIsNotEmpty(c: Codec, b: Block)
    requires Shrinks(c) && Reparses(c, b)
    ensures c.encode(b) != ""
  {
    assert c.decode(c.encode(b) + "") == Some((b, ""));
  }

  lemma PrintIsEmptyIff(c: Codec, bs: seq<Block>)
    requires Shrinks(c) && forall i :: 0 <= i < |bs| ==> Reparses(c, bs[i])
    ensures Print(c, bs) == "" <==> bs == []
  {
    if bs != [] {
      PrintedIsNotEmpty(c, bs[0]);
    }
  }

  lemma {:induction false} OfKeeps(bs: seq<Block>, k: Kind)
    ensures forall b :: b in Of(bs, k) <==> b in bs && KindOf(b) == k
  {
    if bs != [] {
      OfKeeps(bs[1..], k);
      assert bs == [bs[0]] + bs[1..];
    }
  }

  // ----- in terms of block types

  predicate IsCertificate(b: Block) {
    b.blockType == "CERTIFICATE"
  }

  predicate IsPrivateKey(b: Block) {
    b.blockType in {"EC PRIVATE KEY", "RSA PRIVATE KEY", "PRIVATE KEY"}
  }

  /** The blocks that satisfy p, in order. */
  function Those(bs: seq<Block>, p: Block -> bool): seq<Block> {
    if bs == [] then []
    else Those(bs[..|bs| - 1], p) + if p(bs[|bs| - 1]) then [bs[|bs| - 1]] else []
  }

  lemma KindIsType(b: Block)
    ensures KindOf(b) == Certificate <==> IsCertificate(b)
    ensures KindOf(b) == PrivateKey <==> IsPrivateKey(b)
  {
  }

  lemma {:induction false} OfIsThose(bs: seq<Block>, k: Kind, p: Block -> bool)
    requires forall b :: KindOf(b) == k <==> p(b)
    ensures Of(bs, k) == Those(bs, p)
  {
    if bs != [] {
      var init, last := bs[..|bs| - 1], bs[|bs| - 1];
      OfIsThose(init, k, p);
      assert bs == init + [last];
      OfAppend(init, [last], k);
      assert Of([last], k) == if KindOf(last) == k then [last] else [];
    }
  }

  /** Certificates go to the first text, the three private-key types to the second, both in file
      order; every other block and all text between blocks vanishes; both kinds must occur. */
  lemma SplitMeaning(c: Codec, pieces: seq<Piece>, tail: string)
    requires Lawful(c) && WellLaidOut(c, pieces, tail)
    ensures var bs, r := BlocksOf(pieces), Split(c, Layout(c, pieces, tail));
      && (r.Ok? <==> (exists b :: b in bs && IsCertificate(b)) && exists b :: b in bs && IsPrivateKey(b))
      && (r.Ok? ==> r.value == Pair(Print(c, Those(bs, IsCertificate)), Print(c, Those(bs, IsPrivateKey))))
      && (r == Err(NoCertificate) <==> forall b :: b in bs ==> !IsCertificate(b))
  {
    var bs := BlocksOf(pieces);
    forall b: Block ensures KindOf(b) == Certificate <==> IsCertificate(b)
                    ensures KindOf(b) == PrivateKey <==> IsPrivateKey(b) {
      KindIsType(b);
    }
    OfIsThose(bs, Certificate, IsCertificate);
    OfIsThose(bs, PrivateKey, IsPrivateKey);
    hide KindOf, IsCertificate, IsPrivateKey, Those;
    ReadsLayout(c, pieces, tail);
    BlocksOfReparse(c, pieces);
    OfKeeps(bs, Certificate);
    OfKeeps(bs, PrivateKey);
    PrintIsEmptyIff(c, Of(bs, Certificate));
    PrintIsEmptyIff(c, Of(bs, PrivateKey));
    assert Of(bs, Certificate) != [] ==> Of(bs, Certificate)[0] in Of(bs, Certificate);
    assert Of(bs, PrivateKey) != [] ==> Of(bs, PrivateKey)[0] in Of(bs, PrivateKey);
  }

  lemma {:induction false} BlocksOfReparse(c: Codec, pieces: seq<Piece>)
    requires forall i :: 0 <= i < |pieces| ==> Reparses(c, pieces[i].block)
    ensures forall b :: b in BlocksOf(pieces) ==> Reparses(c, b)
  {
    if pieces != [] {
      BlocksOfReparse(c, pieces[1..]);
    }
  }

  // ----- the output is a fixed point

  lemma {:induction false} ReadsPrinted(c: Codec, bs: seq<Block>)
    requires Lawful(c) && forall b :: b in bs ==> Reparses(c, b)
    requires c.decode("").None?
    ensures Blocks(c, Print(c, bs)) == bs
  {
    if bs != [] {
      ReadsPrinted(c, bs[1..]);
      assert bs[0] in bs && Reparses(c, bs[0]);
      assert bs == [bs[0]] + bs[1..];
    }
  }

  lemma {:induction false} KeptBlocksReparse(c: Codec, data: string)
    requires Lawful(c)
    ensures forall b :: b in Blocks(c, data) && KindOf(b) != Ignored ==> Reparses(c, b)
    decreases |data|
  {
    match c.decode(data)
    case None =>
    case Some((b, rest)) => KeptBlocksReparse(c, rest);
  }

  lemma {:induction false} OfTwice(bs: seq<Block>, k: Kind, l: Kind)
    ensures Of(Of(bs, k), l) == if k == l then Of(bs, k) else []
  {
    if bs != [] {
      OfTwice(bs[1..], k, l);
      OfAppend([bs[0]], Of(bs[1..], k), l);
    }
  }

  /** Printing the kept blocks of a splittable file in any order that keeps each kind's own order,
      and splitting again, changes nothing. */
  lemma AnyInterleavingSplitsTheSame(c: Codec, data: string, bs: seq<Block>)
    requires Lawful(c) && Split(c, data).Ok?
    requires forall b :: b in bs ==> KindOf(b) != Ignored
    requires Of(bs, Certificate) == Of(Blocks(c, data), Certificate)
    requires Of(bs, PrivateKey) == Of(Blocks(c, data), PrivateKey)
    ensures Split(c, Print(c, bs)) == Split(c, data)
  {
    var all := Blocks(c, data);
    KeptBlocksReparse(c, data);
    forall b | b in bs ensures Reparses(c, b) {
      OfKeeps(bs, KindOf(b));
      OfKeeps(all, KindOf(b));
      assert b in Of(bs, KindOf(b));
      assert b in Of(all, KindOf(b));
    }
    ReadsPrinted(c, bs);
  }

  /** The two outputs, one behind the other in either order, split into themselves again. */
  lemma OutputIsFixedPoint(c: Codec, data: string)
    requires Lawful(c) && Split(c, data).Ok?
    ensures var p := Split(c, data).value;
      Split(c, p.cert + p.key) == Ok(p) && Split(c, p.key + p.cert) == Ok(p)
  {
    var certs, keys := Of(Blocks(c, data), Certificate), Of(Blocks(c, data), PrivateKey);
    OfKeeps(Blocks(c, data), Certificate);
    OfKeeps(Blocks(c, data), PrivateKey);
    OfTwiceAll(Blocks(c, data));
    forall k: Kind ensures Of(certs + keys, k) == Of(certs, k) + Of(keys, k)
                        && Of(keys + certs, k) == Of(keys, k) + Of(certs, k) {
      OfAppend(certs, keys, k);
      OfAppend(keys, certs, k);
    }
    PrintAppend(c, certs, keys);
    PrintAppend(c, keys, certs);
    AnyInterleavingSplitsTheSame(c, data, certs + keys);
    AnyInterleavingSplitsTheSame(c, data, keys + certs);
  }

  lemma OfTwiceAll(bs: seq<Block>)
    ensures forall k, l :: Of(Of(bs, k), l) == if k == l then Of(bs, k) else []
  {
    forall k, l ensures Of(Of(bs, k), l) == if k == l then Of(bs, k) else [] {
      OfTwice(bs, k, l);
    }
  }
}
