/** A PEM codec for blocks without headers, in the textual form of sections 2 and 3 of RFC 7468:
    base64 in lines of 64 characters between BEGIN and END lines. Characters stand for bytes.
    It satisfies the contract that PemSplit asks for. */
module PemText {
  import opened Prelude
  import opened PemSplit
  import Base64

  const BEGIN_MARK := "-----BEGIN "
  const END_MARK := "-----END "
  const DASHES := "-----"

  // ----- printing

  function Lines(s: string): string {
    if s == "" then ""
    else if |s| <= 64 then s + "\n"
    else s[..64] + "\n" + Lines(s[64..])
  }

  function Body(b: Block): string {
    Lines(Base64.Encode(Base64.Standard, true, b.body))
  }

  function Trailer(blockType: string, rest: string): string {
    END_MARK + (blockType + DASHES + "\n" + rest)
  }

  /** Blocks with headers are outside this codec. */
  function Encode(b: Block): string {
    if b.headers != map[] then ""
    else BEGIN_MARK + (b.blockType + DASHES + "\n" + (Body(b) + Trailer(b.blockType, "")))
  }

  // ----- reading

  function TrimRight(s: string): string {
    if s != "" && s[|s| - 1] in " \t" then TrimRight(s[..|s| - 1]) else s
  }

  /** The first line without its line break and trailing blanks, and what follows the line break. */
  function GetLine(s: string): (r: (string, string))
    ensures |r.1| <= |s| && (s != "" ==> |r.1| < |s|)
  {
    match Find(s, "\n")
    case None => (TrimRight(s), "")
    case Some(i) => (TrimRight(s[..if i > 0 && s[i - 1] == '\r' then i - 1 else i]), s[i + 1..])
  }

  function WithoutBlanks(s: string): string {
    if s == "" then ""
    else if s[0] in " \t" then WithoutBlanks(s[1..])
    else [s[0]] + WithoutBlanks(s[1..])
  }

  /** The text behind the next mark that stands at the start of a line. */
  function After(mark: string, s: string): (r: Option<string>)
    ensures r.Some? && mark != "" ==> |r.value| < |s|
  {
    if mark <= s then Some(s[|mark|..])
    else
      match Find(s, "\n" + mark)
      case None => None
      case Some(i) => Some(s[i + 1 + |mark|..])
  }

  /** Where the body of a block ends, and where the type on its END line starts. */
  function BodyEnd(s: string): (r: Option<(nat, nat)>)
    ensures r.Some? ==> r.value.0 + |END_MARK| <= r.value.1 <= |s|
  {
    if END_MARK <= s then Some((0, |END_MARK|))
    else
      match Find(s, "\n" + END_MARK)
      case None => None
      case Some(i) => Some((i, i + 1 + |END_MARK|))
  }

  /** The END line carries the same type as the BEGIN line and nothing but blanks behind it. */
  predicate Closes(line: string, s: string) {
    line <= s && GetLine(s[|line|..]).0 == ""
  }

  function Content(s: string): Option<Bytes> {
    Base64.Decode(Base64.Standard, true, WithoutBlanks(s))
  }

  /** The block whose BEGIN line is given and whose body starts here; None when it is malformed. */
  function ReadBlock(blockType: string, s: string): (r: Option<(Block, string)>)
    ensures r.Some? ==> |r.value.1| < |s|
  {
    if ':' in GetLine(s).0 then None
    else
      match BodyEnd(s)
      case None => None
      case Some((end, trailer)) =>
        if !Closes(blockType + DASHES, s[trailer..]) || Content(s[..end]).None? then None
        else Some((Block(blockType, map[], Content(s[..end]).value), GetLine(s[end + |END_MARK|..]).1))
  }

  predicate EndsWith(s: string, suffix: string) {
    |suffix| <= |s| && s[|s| - |suffix|..] == suffix
  }

  /** pem.Decode: a malformed block is skipped and the search goes on behind its first line. */
  function Decode(s: string): (r: Option<(Block, string)>)
    ensures r.Some? ==> |r.value.1| < |s|
    decreases |s|
  {
    match After(BEGIN_MARK, s)
    case None => None
    case Some(after) =>
      var (line, rest) := GetLine(after);
      if !EndsWith(line, DASHES) then Decode(rest)
      else if rest == "" then None
      else
        match ReadBlock(line[..|line| - |DASHES|], rest)
        case None => Decode(rest)
        case Some(found) => Some(found)
  }

  const CODEC := Codec(s => Decode(s), b => Encode(b))

  // ----- reading what was printed

  /** A block type that stays on its line and does not look like a header. */
  predicate PlainType(t: string) {
    '\n' !in t && ':' !in t
  }

  lemma NoBreakIn(t: string)
    requires '\n' !in t
    ensures forall rest :: Find(t + "\n" + rest, "\n") == Some(|t|)
  {
    forall rest ensures Find(t + "\n" + rest, "\n") == Some(|t|) {
      var s := t + "\n" + rest;
      forall j | 0 <= j < |t| ensures !("\n" <= s[j..]) {
        assert s[j..][0] == t[j];
      }
      assert s[|t|..][0] == '\n';
      FindAt(s, "\n", |t|);
    }
  }

  /** Lines are 64 characters wide: a break stands behind every 64 characters and at the very end. */
  lemma {:induction false} LinesAreFull(s: string)
    requires '\n' !in s
    ensures forall k :: 0 <= k < |Lines(s)| ==> (Lines(s)[k] == '\n' <==> k % 65 == 64 || k == |Lines(s)| - 1)
    decreases |s|
  {
    if |s| > 64 {
      LinesAreFull(s[64..]);
      var rest := Lines(s[64..]);
      assert Lines(s) == s[..64] + "\n" + rest;
      forall k | 65 <= k < |Lines(s)| ensures Lines(s)[k] == rest[k - 65] && k % 65 == (k - 65) % 65 {
      }
      assert rest != "";
    }
  }

  predicate Blank(s: string) {
    forall c :: c in s ==> c == ' ' || c == '\t'
  }

  /** The ends of a line that a reader of such text accepts: any blanks, and either line break. */
  predicate LineEnd(blanks: string, eol: string) {
    Blank(blanks) && (eol == blanks + "\n" || eol == blanks + "\r\n")
  }

  lemma {:induction false} TrimsBlanks(t: string, blanks: string)
    requires Blank(blanks) && (t == "" || t[|t| - 1] !in " \t")
    ensures TrimRight(t + blanks) == t
  {
    var s := t + blanks;
    if blanks == "" {
      assert s == t;
    } else {
      var init, last := blanks[..|blanks| - 1], blanks[|blanks| - 1];
      assert last in blanks && s[|s| - 1] == last;
      assert s[..|s| - 1] == t + init && forall c :: c in init ==> c in blanks;
      TrimsBlanks(t, init);
    }
  }

  /** A line without blanks at its end. */
  predicate CleanLine(t: string) {
    '\n' !in t && (t == "" || t[|t| - 1] !in " \t\r")
  }

  lemma GetLfLine(full: string, rest: string)
    requires '\n' !in full && (full == "" || full[|full| - 1] != '\r')
    ensures GetLine(full + "\n" + rest) == (TrimRight(full), rest)
  {
    var s := full + "\n" + rest;
    NoBreakIn(full);
    assert full != "" ==> s[|full| - 1] == full[|full| - 1];
    assert s[..|full|] == full && s[|full| + 1..] == rest;
    hide TrimRight;
  }

  lemma GetCrLfLine(full: string, rest: string)
    requires '\n' !in full
    ensures GetLine(full + "\r\n" + rest) == (TrimRight(full), rest)
  {
    var s := full + "\r\n" + rest;
    NoBreakIn(full + "\r");
    assert s == full + "\r" + "\n" + rest;
    assert s[|full|] == '\r' && s[..|full|] == full && s[|full| + 2..] == rest;
    hide TrimRight;
  }

  /** Such a line is read as it is, however it ends. */
  lemma GetCleanLine(t: string, blanks: string, eol: string, rest: string)
    requires CleanLine(t) && LineEnd(blanks, eol)
    ensures GetLine(t + eol + rest) == (t, rest)
  {
    var full := t + blanks;
    TrimsBlanks(t, blanks);
    if eol == blanks + "\n" {
      assert t + eol + rest == full + "\n" + rest;
      GetLfLine(full, rest);
    } else {
      assert t + eol + rest == full + "\r\n" + rest;
      GetCrLfLine(full, rest);
    }
    hide GetLine, TrimRight;
  }

  lemma LineStrips(head: string, tail: string)
    requires '\n' !in head && '\r' !in head
    ensures Base64.WithoutLineBreaks(head + "\n" + tail) == head + Base64.WithoutLineBreaks(tail)
  {
    Base64.NothingToStrip(head);
    Base64.StripAppend(head + "\n", tail);
    Base64.StripAppend(head, "\n");
    assert Base64.WithoutLineBreaks("\n") == "";
  }

  lemma {:induction false} LinesStrip(s: string)
    requires '\n' !in s && '\r' !in s
    ensures Base64.WithoutLineBreaks(Lines(s)) == s
    decreases |s|
  {
    if s != "" {
      var head := if |s| <= 64 then s else s[..64];
      var tail := if |s| <= 64 then "" else s[64..];
      assert s == head + tail && Lines(s) == head + "\n" + Lines(tail);
      LinesStrip(tail);
      LineStrips(head, Lines(tail));
    }
  }

  lemma {:induction false} LinesChars(s: string)
    ensures forall c :: c in Lines(s) ==> c == '\n' || c in s
    ensures Lines(s) != "" ==> Lines(s)[|Lines(s)| - 1] == '\n'
    decreases |s|
  {
    if |s| > 64 {
      LinesChars(s[64..]);
    }
  }

  predicate BodyChar(c: char) {
    c == '\n' || c == '=' || Base64.InAlphabet(Base64.Standard, c)
  }

  /** The body is made of base64 symbols and line breaks. */
  lemma BodyChars(b: Block)
    ensures forall c :: c in Body(b) ==> BodyChar(c)
    ensures Body(b) != "" ==> Body(b)[|Body(b)| - 1] == '\n'
    ensures Base64.WithoutLineBreaks(Body(b)) == Base64.Encode(Base64.Standard, true, b.body)
  {
    Base64.EncodeSymbols(Base64.Standard, true, b.body);
    LinesStrip(Base64.Encode(Base64.Standard, true, b.body));
    LinesChars(Base64.Encode(Base64.Standard, true, b.body));
  }

  /** Any text that spells these bytes in base64, broken into lines and spaced out in whatever way. */
  predicate Spells(t: string, bytes: Bytes) {
    && (forall c :: c in t ==> BodyChar(c) || c == '\r' || c == ' ' || c == '\t')
    && (t == "" || t[|t| - 1] == '\n')
    && Base64.WithoutLineBreaks(WithoutBlanks(t)) == Base64.Encode(Base64.Standard, true, bytes)
  }

  lemma SpelledIsOrdinary(t: string, bytes: Bytes)
    requires Spells(t, bytes)
    ensures '-' !in t && ':' !in t
  {
  }

  /** The reader drops spaces and tabs and nothing else. */
  lemma {:induction false} DropsBlanksOnly(s: string)
    ensures forall c :: c in WithoutBlanks(s) <==> c in s && c != ' ' && c != '\t'
  {
    if s != "" {
      DropsBlanksOnly(s[1..]);
      assert s == [s[0]] + s[1..];
    }
  }

  lemma {:induction false} BlanksAppend(s: string, t: string)
    ensures WithoutBlanks(s + t) == WithoutBlanks(s) + WithoutBlanks(t)
  {
    if s == "" {
      assert s + t == t;
    } else {
      assert (s + t)[1..] == s[1..] + t;
      BlanksAppend(s[1..], t);
    }
  }

  lemma {:induction false} NoBlanks(s: string)
    requires ' ' !in s && '\t' !in s
    ensures WithoutBlanks(s) == s
  {
    if s != "" {
      NoBlanks(s[1..]);
    }
  }

  lemma NotPrefix(pat: string, s: string, k: nat)
    requires k < |pat| && k < |s| && pat[k] != s[k]
    ensures !(pat <= s)
  {
  }

  /** In a text without dashes, ended by a line break, a mark of dashes is first found behind it. */
  lemma FindsMarkBehind(t: string, mark: string, tail: string)
    requires '-' !in t && t != "" && t[|t| - 1] == '\n' && mark != "" && mark[0] == '-'
    ensures !(mark <= t + (mark + tail))
    ensures Find(t + (mark + tail), "\n" + mark) == Some(|t| - 1)
  {
    var s, pat := t + (mark + tail), "\n" + mark;
    NotPrefix(mark, s, 0);
    forall j | 0 <= j < |t| - 1 ensures !(pat <= s[j..]) {
      assert s[j..][1] == t[j + 1];
      NotPrefix(pat, s[j..], 1);
    }
    assert s[|t| - 1..] == pat + tail;
    FindAt(s, pat, |t| - 1);
  }

  /** The body ends exactly where the END line begins. */
  lemma FindsBodyEnd(t: string, tail: string)
    requires '-' !in t && (t != "" ==> t[|t| - 1] == '\n')
    ensures BodyEnd(t + (END_MARK + tail)) == Some((if t == "" then 0 else |t| - 1, |t| + |END_MARK|))
  {
    if t == "" {
      assert t + (END_MARK + tail) == END_MARK + tail;
    } else {
      FindsMarkBehind(t, END_MARK, tail);
    }
  }

  lemma {:induction false} TrimRightIsPrefix(s: string)
    ensures TrimRight(s) <= s
  {
    if s != "" && s[|s| - 1] in " \t" {
      TrimRightIsPrefix(s[..|s| - 1]);
    }
  }

  lemma FirstLineIsWithin(text: string, rest: string)
    requires text != "" && text[|text| - 1] == '\n'
    ensures GetLine(text + rest).0 <= text
  {
    var s := text + rest;
    assert s[|text| - 1..][0] == '\n';
    FindIsFirst(s, "\n", |text| - 1);
    match Find(s, "\n")
    case Some(i) =>
      var k := if i > 0 && s[i - 1] == '\r' then i - 1 else i;
      TrimRightIsPrefix(s[..k]);
      assert s[..k] == text[..k];
  }

  /** No header is seen on the first line behind the BEGIN line. */
  lemma NoHeaderLine(t: string, line: string, blanks: string, eol: string, rest: string)
    requires ':' !in line && ':' !in t && LineEnd(blanks, eol)
    ensures ':' !in GetLine(t + (END_MARK + (line + eol + rest))).0
  {
    var text := t + (END_MARK + (line + eol));
    assert t + (END_MARK + (line + eol + rest)) == text + rest;
    assert ':' !in END_MARK && ':' !in eol;
    FirstLineIsWithin(text, rest);
  }

  lemma ClosesItself(line: string, blanks: string, eol: string, rest: string)
    requires LineEnd(blanks, eol)
    ensures Closes(line, line + eol + rest)
  {
    assert (line + eol + rest)[|line|..] == "" + eol + rest;
    GetCleanLine("", blanks, eol, rest);
  }

  /** The reader counts the mark from the line break in front of it, so its last blank is left over. */
  lemma DropMark(t: string, mark: string, after: string)
    requires mark != "" && mark[|mark| - 1] == ' '
    ensures (t + (mark + after))[|t| + |mark|..] == after
    ensures t != "" ==> (t + (mark + after))[|t| - 1 + |mark|..] == [' '] + after
  {
    var front := mark[..|mark| - 1];
    assert mark == front + [' '];
    assert t + (mark + after) == t + front + ([' '] + after);
    assert t + (mark + after) == t + mark + after;
  }

  lemma BlankInFront(line: string)
    requires CleanLine(line) && line != ""
    ensures CleanLine([' '] + line)
  {
    assert ([' '] + line)[|line|] == line[|line| - 1];
  }

  lemma EndLineIsConsumed(t: string, line: string, blanks: string, eol: string, rest: string)
    requires CleanLine(line) && line != "" && LineEnd(blanks, eol)
    ensures var end := if t == "" then 0 else |t| - 1;
      GetLine((t + (END_MARK + (line + eol + rest)))[end + |END_MARK|..])
      == (if t == "" then line else [' '] + line, rest)
  {
    assert END_MARK[|END_MARK| - 1] == ' ';
    hide GetLine, CleanLine, LineEnd;
    DropMark(t, END_MARK, line + eol + rest);
    if t == "" {
      GetCleanLine(line, blanks, eol, rest);
    } else {
      BlankInFront(line);
      assert [' '] + (line + eol + rest) == [' '] + line + eol + rest;
      GetCleanLine([' '] + line, blanks, eol, rest);
    }
  }

  lemma ReadBlockIs(b: Block, s: string, end: nat, trailer: nat, rest: string)
    requires ':' !in GetLine(s).0 && BodyEnd(s) == Some((end, trailer)) && b.headers == map[]
    requires Closes(b.blockType + DASHES, s[trailer..]) && Content(s[..end]) == Some(b.body)
    requires GetLine(s[end + |END_MARK|..]).1 == rest
    ensures ReadBlock(b.blockType, s) == Some((b, rest))
  {
  }

  /** The body, as the reader cuts it out of the text, gives the block's bytes. */
  lemma BodyIsCutOut(t: string, bytes: Bytes, after: string)
    requires Spells(t, bytes)
    ensures var end := if t == "" then 0 else |t| - 1; Content((t + after)[..end]) == Some(bytes)
  {
    var end := if t == "" then 0 else |t| - 1;
    var cut := t[..end];
    assert (t + after)[..end] == cut && (t != "" ==> cut + "\n" == t);
    BlanksAppend(cut, "\n");
    NoBlanks("\n");
    Base64.StripAppend(WithoutBlanks(cut), "\n");
    assert Base64.WithoutLineBreaks("\n") == "";
    Base64.RoundTripBroken(Base64.Standard, true, bytes, WithoutBlanks(cut));
  }

  lemma BlockIsFramed(t: string, bytes: Bytes, line: string, blanks: string, eol: string, rest: string)
    requires Spells(t, bytes) && ':' !in line && LineEnd(blanks, eol)
    ensures var s := t + (END_MARK + (line + eol + rest));
      && ':' !in GetLine(s).0
      && BodyEnd(s) == Some((if t == "" then 0 else |t| - 1, |t| + |END_MARK|))
  {
    SpelledIsOrdinary(t, bytes);
    NoHeaderLine(t, line, blanks, eol, rest);
    FindsBodyEnd(t, line + eol + rest);
  }

  lemma BlockIsClosed(t: string, line: string, blanks: string, eol: string, rest: string)
    requires LineEnd(blanks, eol)
    ensures Closes(line, (t + (END_MARK + (line + eol + rest)))[|t| + |END_MARK|..])
  {
    assert (t + (END_MARK + (line + eol + rest)))[|t| + |END_MARK|..] == line + eol + rest;
    ClosesItself(line, blanks, eol, rest);
  }

  lemma TypeLine(blockType: string)
    requires PlainType(blockType)
    ensures var line := blockType + DASHES;
      && CleanLine(line) && line != "" && ':' !in line
      && EndsWith(line, DASHES) && line[..|line| - |DASHES|] == blockType
  {
  }

  lemma ReadsBlock(b: Block, t: string, blanks: string, eol: string, rest: string)
    requires PlainType(b.blockType) && b.headers == map[] && Spells(t, b.body) && LineEnd(blanks, eol)
    ensures ReadBlock(b.blockType, t + (END_MARK + (b.blockType + DASHES + eol + rest))) == Some((b, rest))
  {
    var line := b.blockType + DASHES;
    var tail := END_MARK + (line + eol + rest);
    TypeLine(b.blockType);
    hide Lines, GetLine, TrimRight, BodyEnd, Closes, Content, ReadBlock, Spells, CleanLine, LineEnd, PlainType;
    BlockIsFramed(t, b.body, line, blanks, eol, rest);
    BlockIsClosed(t, line, blanks, eol, rest);
    BodyIsCutOut(t, b.body, tail);
    EndLineIsConsumed(t, line, blanks, eol, rest);
    ReadBlockIs(b, t + tail, if t == "" then 0 else |t| - 1, |t| + |END_MARK|, rest);
  }

  lemma DecodeIs(s: string, line: string, inner: string, b: Block, rest: string)
    requires BEGIN_MARK <= s && GetLine(s[|BEGIN_MARK|..]) == (line, inner)
    requires EndsWith(line, DASHES) && inner != ""
    requires ReadBlock(line[..|line| - |DASHES|], inner) == Some((b, rest))
    ensures Decode(s) == Some((b, rest))
  {
    hide GetLine, ReadBlock, EndsWith;
  }

  /** A header-free block is read back with exactly the text that follows it, however its base64 is broken
      into lines and spaced out, with blanks behind its BEGIN and END lines, and with either line break. */
  lemma DecodesAnyLayout(
      b: Block, t: string, blanks: string, eol: string, blanks': string, eol': string, rest: string)
    requires PlainType(b.blockType) && b.headers == map[] && Spells(t, b.body)
    requires LineEnd(blanks, eol) && LineEnd(blanks', eol')
    ensures Decode("-----BEGIN " + (b.blockType + "-----" + eol +
                   (t + ("-----END " + (b.blockType + "-----" + eol' + rest)))))
         == Some((b, rest))
  {
    var line := b.blockType + DASHES;
    var inner := t + (END_MARK + (line + eol' + rest));
    var s := BEGIN_MARK + (line + eol + inner);
    assert s[|BEGIN_MARK|..] == line + eol + inner;
    TypeLine(b.blockType);
    hide GetLine, ReadBlock, Decode, EndsWith, Spells, CleanLine, LineEnd, PlainType;
    GetCleanLine(line, blanks, eol, inner);
    ReadsBlock(b, t, blanks', eol', rest);
    DecodeIs(s, line, inner, b, rest);
  }

  /** What follows a block may as well be taken as following its END line. */
  lemma Regroup(mark: string, line: string, body: string, end: string, rest: string)
    ensures mark + (line + "\n" + (body + (end + (line + "\n" + "")))) + rest
         == mark + (line + "\n" + (body + (end + (line + "\n" + rest))))
  {
    var closing, closed := line + "\n" + "", line + "\n" + rest;
    assert closing + rest == closed;
    assert end + closing + rest == end + closed;
    assert body + (end + closing) + rest == body + (end + closed);
    assert line + "\n" + (body + (end + closing)) + rest == line + "\n" + (body + (end + closed));
  }

  lemma BodyHasNoBlanks(b: Block)
    ensures WithoutBlanks(Body(b)) == Body(b)
  {
    BodyChars(b);
    NoBlanks(Body(b));
  }

  /** What is printed: the BEGIN line, the bytes in base64 in full lines, and the END line. */
  lemma PrintedText(b: Block, rest: string)
    requires b.headers == map[]
    ensures Encode(b) + rest == "-----BEGIN " + (b.blockType + "-----" + "\n" +
              (Body(b) + ("-----END " + (b.blockType + "-----" + "\n" + rest))))
    ensures Spells(Body(b), b.body)
    ensures forall k :: 0 <= k < |Body(b)| ==> (Body(b)[k] == '\n' <==> k % 65 == 64 || k == |Body(b)| - 1)
  {
    BodyChars(b);
    BodyHasNoBlanks(b);
    NoBreaksInBase64(b.body);
    LinesAreFull(Base64.Encode(Base64.Standard, true, b.body));
    hide Lines;
    Regroup(BEGIN_MARK, b.blockType + DASHES, Body(b), END_MARK, rest);
  }

  lemma NoBreaksInBase64(bytes: Bytes)
    ensures '\n' !in Base64.Encode(Base64.Standard, true, bytes)
  {
    Base64.EncodeSymbols(Base64.Standard, true, bytes);
  }

  lemma DecodesPrinted(b: Block, rest: string)
    requires PlainType(b.blockType) && b.headers == map[]
    ensures Decode(Encode(b) + rest) == Some((b, rest))
  {
    PrintedText(b, rest);
    hide Decode, Body, Encode, Spells, PlainType;
    DecodesAnyLayout(b, Body(b), "", "\n", "", "\n", rest);
  }

  // ----- what is not a block

  /** A BEGIN line that does not end in dashes is looked past. */
  lemma BadBeginLineIsSkipped(t: string, rest: string)
    requires CleanLine(t) && !EndsWith(t, "-----")
    ensures Decode("-----BEGIN " + (t + "\n" + rest)) == Decode(rest)
  {
    var s := "-----BEGIN " + (t + "\n" + rest);
    assert s[|BEGIN_MARK|..] == t + "\n" + rest;
    GetCleanLine(t, "", "\n", rest);
    hide GetLine, ReadBlock, EndsWith, CleanLine;
    assert After(BEGIN_MARK, s) == Some(t + "\n" + rest);
  }

  lemma UnreadableIsSkipped(t: string, text: string)
    requires PlainType(t) && text != "" && ReadBlock(t, text).None?
    ensures Decode("-----BEGIN " + (t + "-----\n" + text)) == Decode(text)
  {
    var s, line := "-----BEGIN " + (t + "-----\n" + text), t + DASHES;
    assert s[|BEGIN_MARK|..] == line + "\n" + text;
    TypeLine(t);
    GetCleanLine(line, "", "\n", text);
    hide GetLine, ReadBlock, EndsWith, CleanLine;
    assert After(BEGIN_MARK, s) == Some(line + "\n" + text);
  }

  /** A block without an END line is looked past. */
  lemma UnclosedBlockIsSkipped(t: string, text: string)
    requires PlainType(t) && text != "" && !("-----END " <= text) && Find(text, "\n-----END ").None?
    ensures Decode("-----BEGIN " + (t + "-----\n" + text)) == Decode(text)
  {
    assert "\n-----END " == "\n" + END_MARK;
    assert BodyEnd(text).None?;
    UnreadableIsSkipped(t, text);
    hide Decode, Find;
  }

  lemma DoesNotClose(t: string, u: string, rest: string)
    requires '\n' !in t && '\n' !in u && t != u
    ensures !Closes(t + DASHES, u + DASHES + "\n" + rest)
  {
    var line, other := t + DASHES, u + DASHES;
    var s := other + "\n" + rest;
    if line <= s {
      assert '\n' !in line && s[|other|] == '\n';
      assert |line| <= |other|;
      assert line == other[..|line|];
      assert t == line[..|t|] && u == other[..|u|];
      assert |line| < |other|;
      var left := other[|line|..];
      assert s[|line|..] == left + "\n" + rest && left[|left| - 1] == other[|other| - 1];
      GetCleanLine(left, "", "\n", rest);
    }
  }

  /** A block that is closed with another type is looked past. */
  lemma MismatchedEndIsSkipped(t: string, body: string, u: string, rest: string)
    requires PlainType(t) && '\n' !in u && t != u && '-' !in body && (body != "" ==> body[|body| - 1] == '\n')
    ensures var text := body + ("-----END " + (u + "-----" + "\n" + rest));
      Decode("-----BEGIN " + (t + "-----\n" + text)) == Decode(text)
  {
    var tail := u + DASHES + "\n" + rest;
    var text := body + (END_MARK + tail);
    FindsBodyEnd(body, tail);
    assert text[|body| + |END_MARK|..] == tail;
    DoesNotClose(t, u, rest);
    assert ReadBlock(t, text).None? by {
      hide GetLine, BodyEnd, Closes, Content;
    }
    hide Decode, ReadBlock;
    UnreadableIsSkipped(t, text);
  }

  /** Every header-free block with a type that stays on its line reads back as itself. */
  lemma PlainBlocksReparse(b: Block)
    requires PlainType(b.blockType) && b.headers == map[]
    ensures Reparses(CODEC, b)
  {
    forall rest ensures CODEC.decode(CODEC.encode(b) + rest) == Some((b, rest)) {
      DecodesPrinted(b, rest);
    }
  }

  lemma {:induction false} DecodedHasNoHeaders(s: string)
    ensures Decode(s).Some? ==> Decode(s).value.0.headers == map[]
    decreases |s|
  {
    match After(BEGIN_MARK, s)
    case None =>
    case Some(after) => DecodedHasNoHeaders(GetLine(after).1);
  }

  lemma CertificateIsPlain()
    ensures PlainType("CERTIFICATE")
  {
  }

  lemma PrivateKeyIsPlain()
    ensures PlainType("PRIVATE KEY")
  {
  }

  lemma PrefixedIsPlain(prefix: string, t: string)
    requires PlainType(prefix) && PlainType(t)
    ensures PlainType(prefix + t)
  {
  }

  lemma KeptTypesArePlain(b: Block)
    requires KindOf(b) != Ignored
    ensures PlainType(b.blockType)
  {
    CertificateIsPlain();
    PrivateKeyIsPlain();
    PrefixedIsPlain("EC ", "PRIVATE KEY");
    PrefixedIsPlain("RSA ", "PRIVATE KEY");
    hide PlainType;
    assert "EC PRIVATE KEY" == "EC " + "PRIVATE KEY" && "RSA PRIVATE KEY" == "RSA " + "PRIVATE KEY";
  }

  /** The codec satisfies the contract of the splitter. */
  lemma CodecIsLawful()
    ensures Lawful(CODEC)
  {
    forall data | CODEC.decode(data).Some? && KindOf(CODEC.decode(data).value.0) != Ignored
      ensures Reparses(CODEC, CODEC.decode(data).value.0)
    {
      var b := CODEC.decode(data).value.0;
      DecodedHasNoHeaders(data);
      KeptTypesArePlain(b);
      PlainBlocksReparse(b);
    }
  }

  // ----- text between blocks

  /** No BEGIN mark stands at the start of a line. */
  predicate Markless(f: string) {
    !(BEGIN_MARK <= f) && Find(f, "\n" + BEGIN_MARK).None?
  }

  lemma NoMarkInNothing()
    ensures Markless("")
  {
  }

  /** The reader looks at nothing in front of the first mark. */
  lemma DecodeStartsAtMark(s: string, t: string)
    requires After(BEGIN_MARK, s) == After(BEGIN_MARK, t)
    ensures Decode(s) == Decode(t)
  {
    hide After, GetLine, ReadBlock, EndsWith;
  }

  lemma DecodesBehindText(f: string, e: string)
    requires f != "" && f[|f| - 1] == '\n' && Markless(f) && BEGIN_MARK <= e
    ensures Decode(f + e) == Decode(e)
  {
    hide Decode, After;
    var tail := e[|BEGIN_MARK|..];
    assert e == BEGIN_MARK + tail;
    BeginMarkIsOneLine();
    MarkIsFoundAfterText(f, BEGIN_MARK, tail);
    DecodeStartsAtMark(f + e, e);
  }

  /** Text without a BEGIN mark that ends in a line break, or no text, is looked past. */
  lemma MarklessTextIsSilent(f: string)
    requires f == "" || (Markless(f) && f[|f| - 1] == '\n')
    ensures Silent(CODEC, f)
  {
    hide Decode, Encode, Markless;
    forall b, rest | Reparses(CODEC, b)
      ensures CODEC.decode(f + (CODEC.encode(b) + rest)) == Some((b, rest))
    {
      var e := Encode(b) + rest;
      assert CODEC.decode(CODEC.encode(b) + rest) == Some((b, rest));
      if f == "" {
        assert f + e == e;
      } else {
        PrintedHasMark(b, rest);
        DecodesBehindText(f, e);
      }
    }
  }

  lemma PrintedHasMark(b: Block, rest: string)
    requires Reparses(CODEC, b)
    ensures BEGIN_MARK <= Encode(b) + rest
  {
    assert CODEC.decode(CODEC.encode(b) + "") == Some((b, ""));
    assert CODEC.decode("").None?;
    assert b.headers == map[];
  }

  /** The last line break of the text, and the mark behind it. */
  lemma LastBreak(f: string, mark: string, tail: string)
    requires f != "" && f[|f| - 1] == '\n'
    ensures (f + (mark + tail))[|f| - 1..] == "\n" + mark + tail
    ensures (f + (mark + tail))[|f| - 1] == '\n'
  {
    var g := f[..|f| - 1];
    assert f == g + "\n";
    assert f + (mark + tail) == g + ("\n" + mark + tail);
  }

  /** An occurrence that ends inside the first of two texts is one in that text. */
  lemma OccursInFront(f: string, more: string, pat: string, j: nat)
    requires j + |pat| <= |f| && pat <= (f + more)[j..]
    ensures pat <= f[j..]
  {
    assert (f + more)[j..] == f[j..] + more;
  }

  /** A pattern whose only line break is its first character does not occur across a line break. */
  lemma DoesNotSpanBreak(s: string, pat: string, j: nat, n: nat)
    requires j < n < |s| && s[n] == '\n' && n - j < |pat| && '\n' !in pat[1..]
    ensures !(pat <= s[j..])
  {
    assert pat[1..][n - j - 1] == pat[n - j] && s[j..][n - j] == s[n];
  }

  /** In front of its last line break, text without a pattern of this kind does not get one when more
      text is appended. */
  lemma NotInFront(f: string, more: string, pat: string, j: nat)
    requires f != "" && f[|f| - 1] == '\n' && pat != "" && '\n' !in pat[1..]
    requires Find(f, pat).None? && j < |f| - 1
    ensures !(pat <= (f + more)[j..])
  {
    if pat <= (f + more)[j..] {
      if j + |pat| <= |f| {
        OccursInFront(f, more, pat, j);
        FindIsFirst(f, pat, j);
      } else {
        DoesNotSpanBreak(f + more, pat, j, |f| - 1);
      }
    }
  }

  /** Text without the mark at a line start, ended by a line break, moves the first mark behind it. */
  lemma FindsMarkAfterText(f: string, mark: string, tail: string)
    requires f != "" && f[|f| - 1] == '\n' && '\n' !in mark && mark != ""
    requires !(mark <= f) && Find(f, "\n" + mark).None?
    ensures !(mark <= f + (mark + tail))
    ensures Find(f + (mark + tail), "\n" + mark) == Some(|f| - 1)
  {
    var s := f + (mark + tail);
    LastBreak(f, mark, tail);
    assert ("\n" + mark)[1..] == mark;
    if |f| <= |mark| {
      NotPrefix(mark, s, |f| - 1);
    } else {
      assert s[..|mark|] == f[..|mark|];
    }
    forall j | 0 <= j < |f| - 1 ensures !("\n" + mark <= s[j..]) {
      NotInFront(f, mark + tail, "\n" + mark, j);
    }
    FindAt(s, "\n" + mark, |f| - 1);
  }

  lemma AfterIs(mark: string, s: string, i: nat, tail: string)
    requires !(mark <= s) && Find(s, "\n" + mark) == Some(i) && s[i + 1 + |mark|..] == tail
    ensures After(mark, s) == Some(tail)
  {
  }

  lemma DropText(f: string, mark: string, tail: string)
    ensures (f + (mark + tail))[|f| + |mark|..] == tail && (mark + tail)[|mark|..] == tail
  {
  }

  lemma AfterPrefix(mark: string, tail: string)
    ensures After(mark, mark + tail) == Some(tail)
  {
    assert (mark + tail)[|mark|..] == tail;
  }

  lemma MarkIsFoundAfterText(f: string, mark: string, tail: string)
    requires f != "" && f[|f| - 1] == '\n' && '\n' !in mark && mark != ""
    requires !(mark <= f) && Find(f, "\n" + mark).None?
    ensures After(mark, f + (mark + tail)) == Some(tail) == After(mark, mark + tail)
  {
    FindsMarkAfterText(f, mark, tail);
    DropText(f, mark, tail);
    AfterIs(mark, f + (mark + tail), |f| - 1, tail);
    AfterPrefix(mark, tail);
    hide Find, After;
  }

  lemma BeginMarkIsOneLine()
    ensures '\n' !in BEGIN_MARK && BEGIN_MARK != ""
  {
  }

  lemma MarklessTextHasNoBlock(tail: string)
    requires Markless(tail)
    ensures CODEC.decode(tail).None?
  {
  }

  /** The meaning of the split, for real text: blocks of any plain type between lines of other text. */
  lemma SplitOfText(pieces: seq<Piece>, tail: string)
    requires forall p :: p in pieces ==> PlainType(p.block.blockType) && p.block.headers == map[]
    requires forall p :: p in pieces ==> p.filler == "" || (Markless(p.filler) && p.filler[|p.filler| - 1] == '\n')
    requires Markless(tail)
    ensures Lawful(CODEC)
    ensures var bs, r := BlocksOf(pieces), Split(CODEC, Layout(CODEC, pieces, tail));
      && (r.Ok? <==> (exists b :: b in bs && IsCertificate(b)) && exists b :: b in bs && IsPrivateKey(b))
      && (r.Ok? ==> r.value == Pair(Print(CODEC, Those(bs, IsCertificate)), Print(CODEC, Those(bs, IsPrivateKey))))
      && (r == Err(NoCertificate) <==> forall b :: b in bs ==> !IsCertificate(b))
  {
    CodecIsLawful();
    forall i | 0 <= i < |pieces| ensures Silent(CODEC, pieces[i].filler) && Reparses(CODEC, pieces[i].block) {
      assert pieces[i] in pieces;
      MarklessTextIsSilent(pieces[i].filler);
      PlainBlocksReparse(pieces[i].block);
    }
    MarklessTextHasNoBlock(tail);
    SplitMeaning(CODEC, pieces, tail);
  }
}
