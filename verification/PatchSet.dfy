/** The reader and the writer of unified differences in the style checker. */
module PatchSet {

  import opened Wrappers

  datatype Kind = Src | Dst | Both
  datatype Line = Line(kind: Kind, text: string)
  datatype Chunk = Chunk(srcStart: nat, dstStart: nat, lines: seq<Line>)
  datatype Patch = Patch(src: string, dst: string, chunks: seq<Chunk>)

  // ---------------------------------------------------------------- numbers

  predicate IsDigit(c: char) { '0' <= c <= '9' }

  function DigitChar(d: nat): (c: char)
    requires d < 10
    ensures IsDigit(c) && (c as int) - ('0' as int) == d
  {
    ('0' as int + d) as char
  }

  function Decimal(n: nat): (s: string)
    ensures s != "" && forall i :: 0 <= i < |s| ==> IsDigit(s[i])
  {
    if n < 10 then [DigitChar(n)] else Decimal(n / 10) + [DigitChar(n % 10)]
  }

  function Value(s: string): nat
    requires forall i :: 0 <= i < |s| ==> IsDigit(s[i])
  {
    if s == "" then 0
    else
      assert IsDigit(s[|s| - 1]);
      10 * Value(s[..|s| - 1]) + (s[|s| - 1] as int - '0' as int)
  }

  lemma {:induction false} DecimalValue(n: nat)
    ensures Value(Decimal(n)) == n
  {
    if n >= 10 {
      DecimalValue(n / 10);
      assert Decimal(n)[..|Decimal(n)| - 1] == Decimal(n / 10);
    } else {
      assert Decimal(n)[..0] == "";
    }
  }

  /** Number of leading digits. */
  function DigitRun(s: string): (k: nat)
    ensures k <= |s| && (forall i :: 0 <= i < k ==> IsDigit(s[i])) && (k < |s| ==> !IsDigit(s[k]))
  {
    if s == "" || !IsDigit(s[0]) then 0 else 1 + DigitRun(s[1..])
  }

  /** The digits at the start, all of them and at least one, and what follows. */
  function ReadNumber(s: string): Option<(nat, string)> {
    var k := DigitRun(s);
    if k == 0 then None else Some((Value(s[..k]), s[k..]))
  }

  function ReadPrefix(s: string, prefix: string): Option<string> {
    if prefix <= s then Some(s[|prefix|..]) else None
  }

  ghost predicate Digits(d: string) { d != "" && forall i :: 0 <= i < |d| ==> IsDigit(d[i]) }

  lemma ReadDigits(d: string, rest: string)
    requires Digits(d) && (rest != "" ==> !IsDigit(rest[0]))
    ensures ReadNumber(d + rest) == Some((Value(d), rest))
  {
    var s := d + rest;
    assert forall i :: 0 <= i < |d| ==> s[i] == d[i];
    assert rest != "" ==> s[|d|] == rest[0];
    assert DigitRun(s) == |d|;
    assert s[..|d|] == d && s[|d|..] == rest;
  }

  lemma ReadDecimal(n: nat, rest: string)
    requires rest != "" && !IsDigit(rest[0])
    ensures ReadNumber(Decimal(n) + rest) == Some((n, rest))
  {
    ReadDigits(Decimal(n), rest);
    DecimalValue(n);
  }

  lemma ReadBack(prefix: string, rest: string)
    ensures ReadPrefix(prefix + rest, prefix) == Some(rest)
  {
  }

  // ---------------------------------------------------------------- chunk headers

  datatype Header = Header(srcStart: nat, srcLen: nat, dstStart: nat, dstLen: nat)

  /** `@@ -a,b +c,d @@`, built from the right. */
  function PrintHeader(h: Header): string {
    var dst := Decimal(h.dstStart) + ("," + (Decimal(h.dstLen) + " @@"));
    "@@ -" + (Decimal(h.srcStart) + ("," + (Decimal(h.srcLen) + (" +" + dst))))
  }

  function ReadPair(s: string): Option<(nat, nat, string)> {
    var a := ReadNumber(s);
    if a.None? then None
    else
      var comma := ReadPrefix(a.value.1, ",");
      if comma.None? then None
      else
        var b := ReadNumber(comma.value);
        if b.None? then None else Some((a.value.0, b.value.0, b.value.1))
  }

  /** Anything may follow the header. */
  function ReadHeader(s: string): Option<Header> {
    var start := ReadPrefix(s, "@@ -");
    if start.None? then None
    else
      var src := ReadPair(start.value);
      if src.None? then None
      else
        var plus := ReadPrefix(src.value.2, " +");
        if plus.None? then None
        else
          var dst := ReadPair(plus.value);
          if dst.None? || ReadPrefix(dst.value.2, " @@").None? then None
          else Some(Header(src.value.0, src.value.1, dst.value.0, dst.value.1))
  }

  lemma ReadPairBack(a: string, b: string, rest: string)
    requires Digits(a) && Digits(b) && rest != "" && !IsDigit(rest[0])
    ensures ReadPair(a + ("," + (b + rest))) == Some((Value(a), Value(b), rest))
  {
    ReadDigits(a, "," + (b + rest));
    ReadBack(",", b + rest);
    ReadDigits(b, rest);
  }

  /** Four numbers between the signs of a header, and any text behind it. */
  function HeaderText(a: string, b: string, c: string, d: string, text: string): string {
    "@@ -" + (a + ("," + (b + (" +" + (c + ("," + (d + (" @@" + text))))))))
  }

  /** Whatever stands behind the second pair of signs, the numbers are read. */
  lemma HeaderRead(a: string, b: string, c: string, d: string, text: string)
    requires Digits(a) && Digits(b) && Digits(c) && Digits(d)
    ensures ReadHeader(HeaderText(a, b, c, d, text)) == Some(Header(Value(a), Value(b), Value(c), Value(d)))
  {
    var tail := c + ("," + (d + (" @@" + text)));
    var front := a + ("," + (b + (" +" + tail)));
    hide ReadPair, ReadPrefix, Value, Digits;
    ReadPairBack(c, d, " @@" + text);
    ReadPairBack(a, b, " +" + tail);
    ReadBack(" +", tail);
    ReadBack("@@ -", front);
    ReadBack(" @@", text);
  }

  lemma NumberParts(s: string)
    requires ReadNumber(s).Some?
    ensures var d := s[..DigitRun(s)];
      Digits(d) && Value(d) == ReadNumber(s).value.0 && s == d + ReadNumber(s).value.1
  {
  }

  lemma PairParts(s: string) returns (a: string, b: string)
    requires ReadPair(s).Some?
    ensures var (m, n, rest) := ReadPair(s).value;
      Digits(a) && Digits(b) && Value(a) == m && Value(b) == n && s == a + ("," + (b + rest))
  {
    hide Value, Digits;
    NumberParts(s);
    a := s[..DigitRun(s)];
    var comma := ReadPrefix(ReadNumber(s).value.1, ",").value;
    NumberParts(comma);
    b := comma[..DigitRun(comma)];
    PrefixParts(ReadNumber(s).value.1, ",");
  }

  lemma PrefixParts(s: string, prefix: string)
    ensures ReadPrefix(s, prefix).Some? ==> s == prefix + ReadPrefix(s, prefix).value
  {
  }

  /** Nothing else is read as a header. */
  lemma HeaderParts(s: string) returns (a: string, b: string, c: string, d: string, text: string)
    requires ReadHeader(s).Some?
    ensures Digits(a) && Digits(b) && Digits(c) && Digits(d) && s == HeaderText(a, b, c, d, text)
    ensures ReadHeader(s).value == Header(Value(a), Value(b), Value(c), Value(d))
  {
    hide Value, Digits, ReadPair, ReadPrefix;
    var start := ReadPrefix(s, "@@ -").value;
    var middle := ReadPair(start).value.2;
    var plus := ReadPrefix(middle, " +").value;
    var end := ReadPair(plus).value.2;
    PrefixParts(s, "@@ -");
    a, b := PairParts(start);
    PrefixParts(middle, " +");
    c, d := PairParts(plus);
    PrefixParts(end, " @@");
    text := ReadPrefix(end, " @@").value;
  }

  lemma PrintedHeaderText(h: Header, text: string)
    ensures PrintHeader(h) + text ==
            HeaderText(Decimal(h.srcStart), Decimal(h.srcLen), Decimal(h.dstStart), Decimal(h.dstLen), text)
  {
    hide Decimal;
  }

  lemma DecimalDigits(n: nat)
    ensures Digits(Decimal(n)) && Value(Decimal(n)) == n
  {
    DecimalValue(n);
  }

  /** A printed header is read, also with text behind it, as diff tools print it. */
  lemma HeaderRoundTrip(h: Header, text: string)
    ensures ReadHeader(PrintHeader(h) + text) == Some(h) && ReadHeader(PrintHeader(h)) == Some(h)
  {
    DecimalDigits(h.srcStart);
    DecimalDigits(h.srcLen);
    DecimalDigits(h.dstStart);
    DecimalDigits(h.dstLen);
    hide *;
    PrintedHeaderText(h, text);
    PrintedHeaderText(h, "");
    HeaderRead(Decimal(h.srcStart), Decimal(h.srcLen), Decimal(h.dstStart), Decimal(h.dstLen), text);
    HeaderRead(Decimal(h.srcStart), Decimal(h.srcLen), Decimal(h.dstStart), Decimal(h.dstLen), "");
    assert PrintHeader(h) + "" == PrintHeader(h);
  }

  /** Character by character, one header. */
  lemma HeaderExample()
    ensures PrintHeader(Header(3, 1, 4, 2)) == "@@ -3,1 +4,2 @@"
    ensures ReadHeader("@@ -3,1 +4,2 @@ int main ()") == Some(Header(3, 1, 4, 2))
  {
    assert Decimal(3) == "3" && Decimal(1) == "1" && Decimal(4) == "4" && Decimal(2) == "2";
    hide Decimal;
    assert PrintHeader(Header(3, 1, 4, 2)) == "@@ -3,1 +4,2 @@";
    assert "@@ -3,1 +4,2 @@" + " int main ()" == "@@ -3,1 +4,2 @@ int main ()";
    hide *;
    HeaderRoundTrip(Header(3, 1, 4, 2), " int main ()");
  }

  // ---------------------------------------------------------------- writing

  predicate OnSource(l: Line) { l.kind != Dst }
  predicate OnDest(l: Line) { l.kind != Src }

  function Count(lines: seq<Line>, on: Line -> bool): nat {
    if lines == [] then 0 else (if on(lines[0]) then 1 else 0) + Count(lines[1..], on)
  }

  ghost function Positions(lines: seq<Line>, on: Line -> bool): set<nat> {
    set i | 0 <= i < |lines| && on(lines[i])
  }

  lemma {:induction false} CountIs(lines: seq<Line>, on: Line -> bool)
    ensures Count(lines, on) == |Positions(lines, on)|
    decreases |lines|
  {
    if lines == [] {
      assert Positions(lines, on) == {};
    } else {
      var rest := lines[1..];
      CountIs(rest, on);
      var shifted := Shifted(Positions(rest, on));
      ShiftedSize(Positions(rest, on));
      forall i ensures i in Positions(lines, on) <==> (i == 0 && on(lines[0])) || i in shifted {
        if 0 < i < |lines| { assert rest[i - 1] == lines[i]; }
        if i in Positions(lines, on) && i != 0 { assert i - 1 in Positions(rest, on); }
      }
      assert Positions(lines, on) == if on(lines[0]) then {0} + shifted else shifted;
    }
  }

  ghost function Shifted(s: set<nat>): set<nat> { set i | i in s :: i + 1 }

  lemma {:induction false} ShiftedSize(s: set<nat>)
    ensures |Shifted(s)| == |s|
    decreases |s|
  {
    var shifted := Shifted(s);
    if s == {} {
      assert shifted == {};
    } else {
      var x :| x in s;
      ShiftedSize(s - {x});
      var others := Shifted(s - {x});
      forall y ensures y in shifted <==> y in others || y == x + 1 {
        if y in shifted && y != x + 1 { assert y - 1 in s - {x}; }
      }
      assert shifted == others + {x + 1} && x + 1 !in others;
    }
  }

  /** The numbers of a printed header: where the chunk starts on either side, and how many of its lines are on it. */
  lemma HeaderCounts(c: Chunk)
    ensures var h := HeaderOf(c);
      && h.srcStart == c.srcStart && h.dstStart == c.dstStart
      && h.srcLen == |set i | 0 <= i < |c.lines| && c.lines[i].kind != Dst|
      && h.dstLen == |set i | 0 <= i < |c.lines| && c.lines[i].kind != Src|
  {
    CountIs(c.lines, OnSource);
    CountIs(c.lines, OnDest);
    assert Positions(c.lines, OnSource) == set i | 0 <= i < |c.lines| && c.lines[i].kind != Dst;
    assert Positions(c.lines, OnDest) == set i | 0 <= i < |c.lines| && c.lines[i].kind != Src;
  }

  function Mark(k: Kind): char { match k case Src => '-' case Dst => '+' case Both => ' ' }

  function PrintLine(l: Line): string { [Mark(l.kind)] + l.text }

  function PrintBody(lines: seq<Line>): seq<string> {
    if lines == [] then [] else [PrintLine(lines[0])] + PrintBody(lines[1..])
  }

  function HeaderOf(c: Chunk): Header {
    Header(c.srcStart, Count(c.lines, OnSource), c.dstStart, Count(c.lines, OnDest))
  }

  function PrintChunk(c: Chunk): seq<string> { [PrintHeader(HeaderOf(c))] + PrintBody(c.lines) }

  function PrintChunks(cs: seq<Chunk>): seq<string> {
    if cs == [] then [] else PrintChunk(cs[0]) + PrintChunks(cs[1..])
  }

  function PrintPatch(p: Patch): seq<string> { ["--- " + p.src] + (["+++ " + p.dst] + PrintChunks(p.chunks)) }

  function PrintAll(ps: seq<Patch>): seq<string> {
    if ps == [] then [] else PrintPatch(ps[0]) + PrintAll(ps[1..])
  }

  // ---------------------------------------------------------------- reading

  /** What the tests, in their order, make of a line. */
  datatype Token =
    | SrcFile(name: string)
    | DstFile(name: string)
    | ChunkStart(src: nat, dst: nat)
    | Body(line: Line)
    | Bad

  function Classify(s: string): Token {
    if "--- " <= s then SrcFile(s[4..])
    else if "+++ " <= s then DstFile(s[4..])
    else
      var h := ReadHeader(s);
      if h.Some? then ChunkStart(h.value.srcStart, h.value.dstStart)
      else if "-" <= s then Body(Line(Src, s[1..]))
      else if "+" <= s then Body(Line(Dst, s[1..]))
      else if " " <= s then Body(Line(Both, s[1..]))
      else Bad
  }

  /** The patches read so far; the current patch is the last one, the current chunk may belong to an earlier one. */
  datatype Reader = Reader(patches: seq<Patch>, chunk: Option<(nat, nat)>)

  predicate GoodReader(r: Reader) {
    r.chunk.Some? ==> r.chunk.value.0 < |r.patches| && r.chunk.value.1 < |r.patches[r.chunk.value.0].chunks|
  }

  function WithLine(ps: seq<Patch>, i: nat, j: nat, l: Line): (r: seq<Patch>)
    requires i < |ps| && j < |ps[i].chunks|
    ensures |r| == |ps|
  {
    var c := ps[i].chunks[j];
    ps[i := ps[i].(chunks := ps[i].chunks[j := c.(lines := c.lines + [l])])]
  }

  function Last(r: Reader, p: Patch): Reader
    requires r.patches != []
  {
    r.(patches := r.patches[|r.patches| - 1 := p])
  }

  function Step(r: Reader, s: string): (r': Result<Reader>)
    requires GoodReader(r)
    ensures r'.Ok? ==> GoodReader(r'.value)
  {
    var n := |r.patches| - 1;
    match Classify(s)
    case SrcFile(name) => Ok(Reader(r.patches + [Patch(name, "", [])], r.chunk))
    case DstFile(name) => if n < 0 then Err else Ok(Last(r, r.patches[n].(dst := name)))
    case ChunkStart(a, b) =>
      if n < 0 then Err
      else
        var p := r.patches[n];
        Ok(Last(r, p.(chunks := p.chunks + [Chunk(a, b, [])])).(chunk := Some((n, |p.chunks|))))
    case Body(l) =>
      if r.chunk.None? then Err else Ok(Reader(WithLine(r.patches, r.chunk.value.0, r.chunk.value.1, l), r.chunk))
    case Bad => Err
  }

  function Read(r: Reader, lines: seq<string>): (r': Result<Reader>)
    requires GoodReader(r)
    ensures r'.Ok? ==> GoodReader(r'.value)
    decreases |lines|
  {
    if lines == [] then Ok(r)
    else
      var r1 := Step(r, lines[0]);
      if r1.Err? then Err else Read(r1.value, lines[1..])
  }

  function Parse(lines: seq<string>): Result<seq<Patch>> {
    var r := Read(Reader([], None), lines);
    if r.Err? then Err else Ok(r.value.patches)
  }

  // ---------------------------------------------------------------- what printed lines are read as

  /** A line that the reader takes for a file name when it is printed. */
  predicate Misread(l: Line) { (l.kind == Src && "-- " <= l.text) || (l.kind == Dst && "++ " <= l.text) }

  lemma ClassifyLine(l: Line)
    ensures Classify(PrintLine(l)) ==
      if !Misread(l) then Body(l) else if l.kind == Src then SrcFile(l.text[3..]) else DstFile(l.text[3..])
  {
    var s := PrintLine(l);
    assert s[0] == Mark(l.kind) && s[1..] == l.text;
    assert "--- "[0] == '-' && "--- "[1..] == "-- " && "+++ "[0] == '+' && "+++ "[1..] == "++ " && "@@ -"[0] == '@';
    PrefixSplit("--- ", s);
    PrefixSplit("+++ ", s);
    PrefixSplit("@@ -", s);
    PrefixSplit("-", s);
    PrefixSplit("+", s);
    PrefixSplit(" ", s);
    if Misread(l) { assert s[4..] == l.text[3..]; }
  }

  lemma PrefixSplit(p: string, s: string)
    requires p != "" && s != ""
    ensures p <= s <==> p[0] == s[0] && p[1..] <= s[1..]
  {
    if p <= s { assert p == s[..|p|]; assert p[1..] == s[1..][..|p| - 1]; }
    if p[0] == s[0] && p[1..] <= s[1..] {
      assert p[1..] == s[1..][..|p| - 1];
      forall i | 0 <= i < |p| ensures p[i] == s[i] { if i > 0 { assert p[1..][i - 1] == s[1..][i - 1]; } }
    }
  }

  lemma ClassifyFiles(name: string)
    ensures Classify("--- " + name) == SrcFile(name) && Classify("+++ " + name) == DstFile(name)
  {
    var s, d := "--- " + name, "+++ " + name;
    assert s[..4] == "--- " && s[4..] == name && d[..4] == "+++ " && d[4..] == name;
    assert d[0] == '+' && "--- "[0] == '-';
    PrefixSplit("--- ", d);
  }

  lemma ClassifyHeader(h: Header, text: string)
    ensures Classify(PrintHeader(h)) == ChunkStart(h.srcStart, h.dstStart)
    ensures Classify(PrintHeader(h) + text) == ChunkStart(h.srcStart, h.dstStart)
  {
    var s := PrintHeader(h);
    HeaderRoundTrip(h, text);
    assert s[0] == '@' && (s + text)[0] == '@';
    hide PrintHeader, ReadHeader;
    assert "--- "[0] == '-' && "+++ "[0] == '+';
    PrefixSplit("--- ", s);
    PrefixSplit("+++ ", s);
    PrefixSplit("--- ", s + text);
    PrefixSplit("+++ ", s + text);
  }

  lemma FirstSign(s: string)
    ensures "--- " <= s ==> s[0] == '-'
    ensures "+++ " <= s ==> s[0] == '+'
    ensures ReadHeader(s).Some? ==> s != "" && s[0] == '@'
    ensures "-" <= s <==> s != "" && s[0] == '-'
    ensures "+" <= s <==> s != "" && s[0] == '+'
    ensures " " <= s <==> s != "" && s[0] == ' '
  {
    hide ReadPair;
    assert "--- "[0] == '-' && "+++ "[0] == '+' && "@@ -"[0] == '@';
    if s != "" {
      PrefixSplit("--- ", s);
      PrefixSplit("+++ ", s);
      PrefixSplit("@@ -", s);
      PrefixSplit("-", s);
      PrefixSplit("+", s);
      PrefixSplit(" ", s);
    }
  }

  /** How every line is read, sign by sign: the file names and the lines of a chunk, */
  lemma ClassifyText(s: string, text: string)
    ensures Classify(s) == SrcFile(text) <==> s == "--- " + text
    ensures Classify(s) == DstFile(text) <==> s == "+++ " + text
    ensures Classify(s) == Body(Line(Src, text)) <==> s == "-" + text && !("--- " <= s)
    ensures Classify(s) == Body(Line(Dst, text)) <==> s == "+" + text && !("+++ " <= s)
    ensures Classify(s) == Body(Line(Both, text)) <==> s == " " + text
  {
    FirstSign(s);
    hide ReadHeader;
    FirstSign("--- " + text);
    FirstSign("+++ " + text);
    assert ("--- " + text)[4..] == text && ("+++ " + text)[4..] == text;
    if s != "" { assert s == [s[0]] + s[1..]; }
    assert ("-" + text)[1..] == text && ("+" + text)[1..] == text && (" " + text)[1..] == text;
    if |s| >= 4 { assert s == s[..4] + s[4..]; }
  }

  /** and the headers. */
  lemma ClassifyStart(s: string, m: nat, n: nat)
    ensures Classify(s) == ChunkStart(m, n) <==>
      exists a, b, c, d, text :: Digits(a) && Digits(b) && Digits(c) && Digits(d) &&
        s == HeaderText(a, b, c, d, text) && m == Value(a) && n == Value(c)
  {
    FirstSign(s);
    hide ReadHeader, HeaderText, Value;
    if Classify(s) == ChunkStart(m, n) {
      var a, b, c, d, text := HeaderParts(s);
    }
    if a, b, c, d, text :| Digits(a) && Digits(b) && Digits(c) && Digits(d) &&
                           s == HeaderText(a, b, c, d, text) && m == Value(a) && n == Value(c)
    {
      HeaderRead(a, b, c, d, text);
    }
  }

  lemma {:induction false} ReadAppend(r: Reader, a: seq<string>, b: seq<string>)
    requires GoodReader(r)
    ensures Read(r, a + b) == if Read(r, a).Err? then Err else Read(Read(r, a).value, b)
    decreases |a|
  {
    if a == [] {
      assert a + b == b;
    } else {
      assert (a + b)[0] == a[0] && (a + b)[1..] == a[1..] + b;
      if Step(r, a[0]).Ok? {
        ReadAppend(Step(r, a[0]).value, a[1..], b);
      }
    }
  }

  // ---------------------------------------------------------------- counting

  function Total(ps: seq<Patch>): nat {
    if ps == [] then 0 else Total(ps[..|ps| - 1]) + ChunkTotal(ps[|ps| - 1].chunks)
  }

  function ChunkTotal(cs: seq<Chunk>): nat { if cs == [] then 0 else ChunkTotal(cs[..|cs| - 1]) + |cs[|cs| - 1].lines| }

  function Bodies(lines: seq<string>): nat {
    if lines == [] then 0 else (if Classify(lines[0]).Body? then 1 else 0) + Bodies(lines[1..])
  }

  lemma {:induction false} ChunkTotalUpdate(cs: seq<Chunk>, j: nat, c: Chunk)
    requires j < |cs|
    ensures ChunkTotal(cs[j := c]) + |cs[j].lines| == ChunkTotal(cs) + |c.lines|
  {
    var n := |cs| - 1;
    if j < n {
      ChunkTotalUpdate(cs[..n], j, c);
      assert cs[j := c][..n] == cs[..n][j := c];
    } else {
      assert cs[j := c][..n] == cs[..n];
    }
  }

  lemma {:induction false} TotalUpdate(ps: seq<Patch>, i: nat, p: Patch)
    requires i < |ps|
    ensures Total(ps[i := p]) + ChunkTotal(ps[i].chunks) == Total(ps) + ChunkTotal(p.chunks)
  {
    var n := |ps| - 1;
    if i < n {
      TotalUpdate(ps[..n], i, p);
      assert ps[i := p][..n] == ps[..n][i := p];
    } else {
      assert ps[i := p][..n] == ps[..n];
    }
  }

  lemma StepTotal(r: Reader, s: string)
    requires GoodReader(r) && Step(r, s).Ok?
    ensures Total(Step(r, s).value.patches) == Total(r.patches) + if Classify(s).Body? then 1 else 0
  {
    var n := |r.patches| - 1;
    hide Classify;
    match Classify(s)
    case SrcFile(name) =>
      assert (r.patches + [Patch(name, "", [])])[..|r.patches|] == r.patches;
    case DstFile(name) =>
      TotalUpdate(r.patches, n, r.patches[n].(dst := name));
    case ChunkStart(a, b) =>
      var p := r.patches[n];
      TotalUpdate(r.patches, n, p.(chunks := p.chunks + [Chunk(a, b, [])]));
      assert (p.chunks + [Chunk(a, b, [])])[..|p.chunks|] == p.chunks;
    case Body(l) =>
      var (i, j) := r.chunk.value;
      var c := r.patches[i].chunks[j];
      ChunkTotalUpdate(r.patches[i].chunks, j, c.(lines := c.lines + [l]));
      TotalUpdate(r.patches, i, r.patches[i].(chunks := r.patches[i].chunks[j := c.(lines := c.lines + [l])]));
    case Bad =>
  }

  lemma {:induction false} ReadTotal(r: Reader, lines: seq<string>)
    requires GoodReader(r) && Read(r, lines).Ok?
    ensures Total(Read(r, lines).value.patches) == Total(r.patches) + Bodies(lines)
    decreases |lines|
  {
    if lines != [] {
      StepTotal(r, lines[0]);
      ReadTotal(Step(r, lines[0]).value, lines[1..]);
    }
  }

  lemma {:induction false} BodiesAppend(a: seq<string>, b: seq<string>)
    ensures Bodies(a + b) == Bodies(a) + Bodies(b)
  {
    if a == [] {
      assert a + b == b;
    } else {
      assert (a + b)[0] == a[0] && (a + b)[1..] == a[1..] + b;
      BodiesAppend(a[1..], b);
    }
  }

  function MisreadCount(lines: seq<Line>): nat {
    if lines == [] then 0 else (if Misread(lines[0]) then 1 else 0) + MisreadCount(lines[1..])
  }

  lemma {:induction false} BodyBodies(lines: seq<Line>)
    ensures Bodies(PrintBody(lines)) + MisreadCount(lines) == |lines|
    ensures MisreadCount(lines) == 0 <==> forall l :: l in lines ==> !Misread(l)
  {
    if lines != [] {
      ClassifyLine(lines[0]);
      BodyBodies(lines[1..]);
      assert forall l :: l in lines <==> l == lines[0] || l in lines[1..];
    }
  }

  predicate CleanChunk(c: Chunk) { forall l :: l in c.lines ==> !Misread(l) }

  predicate CleanPatch(p: Patch) { forall c :: c in p.chunks ==> CleanChunk(c) }

  /** No removed line begins with "-- " and no added line with "++ ". */
  predicate Clean(ps: seq<Patch>) { forall p :: p in ps ==> CleanPatch(p) }

  lemma {:induction false} ChunkTotalFront(cs: seq<Chunk>)
    requires cs != []
    ensures ChunkTotal(cs) == |cs[0].lines| + ChunkTotal(cs[1..])
  {
    var n := |cs| - 1;
    if n > 0 {
      ChunkTotalFront(cs[..n]);
      assert cs[..n][1..] == cs[1..][..n - 1];
    } else {
      assert cs[..0] == [] && cs[1..] == [];
    }
  }

  lemma {:induction false} TotalFront(ps: seq<Patch>)
    requires ps != []
    ensures Total(ps) == ChunkTotal(ps[0].chunks) + Total(ps[1..])
  {
    var n := |ps| - 1;
    if n > 0 {
      TotalFront(ps[..n]);
      assert ps[..n][1..] == ps[1..][..n - 1];
    } else {
      assert ps[..0] == [] && ps[1..] == [];
    }
  }

  lemma {:induction false} ChunksBodies(cs: seq<Chunk>)
    ensures Bodies(PrintChunks(cs)) <= ChunkTotal(cs)
    ensures Bodies(PrintChunks(cs)) == ChunkTotal(cs) <==> forall c :: c in cs ==> CleanChunk(c)
  {
    if cs != [] {
      var c, rest := cs[0], cs[1..];
      ChunksBodies(rest);
      ChunkTotalFront(cs);
      ChunkBodies(c);
      BodiesAppend(PrintChunk(c), PrintChunks(rest));
      assert forall x :: x in cs <==> x == c || x in rest;
      hide CleanChunk, Bodies, PrintChunk;
    }
  }

  lemma ChunkBodies(c: Chunk)
    ensures Bodies(PrintChunk(c)) <= |c.lines|
    ensures Bodies(PrintChunk(c)) == |c.lines| <==> CleanChunk(c)
  {
    BodyBodies(c.lines);
    ClassifyHeader(HeaderOf(c), "");
    BodiesAppend([PrintHeader(HeaderOf(c))], PrintBody(c.lines));
    OneLine(PrintHeader(HeaderOf(c)));
  }

  lemma OneLine(s: string)
    ensures Bodies([s]) == if Classify(s).Body? then 1 else 0
  {
    assert [s][1..] == [];
  }

  lemma {:induction false} AllBodies(ps: seq<Patch>)
    ensures Bodies(PrintAll(ps)) <= Total(ps)
    ensures Bodies(PrintAll(ps)) == Total(ps) <==> Clean(ps)
  {
    if ps != [] {
      var p, rest := ps[0], ps[1..];
      AllBodies(rest);
      TotalFront(ps);
      PatchBodies(p);
      BodiesAppend(PrintPatch(p), PrintAll(rest));
      assert forall x :: x in ps <==> x == p || x in rest;
      hide CleanPatch, Bodies, PrintPatch;
    }
  }

  lemma PatchBodies(p: Patch)
    ensures Bodies(PrintPatch(p)) <= ChunkTotal(p.chunks)
    ensures Bodies(PrintPatch(p)) == ChunkTotal(p.chunks) <==> CleanPatch(p)
  {
    ChunksBodies(p.chunks);
    ClassifyFiles(p.src);
    ClassifyFiles(p.dst);
    OneLine("--- " + p.src);
    OneLine("+++ " + p.dst);
    BodiesAppend(["+++ " + p.dst], PrintChunks(p.chunks));
    BodiesAppend(["--- " + p.src], ["+++ " + p.dst] + PrintChunks(p.chunks));
  }

  // ---------------------------------------------------------------- round trip

  /** A reader in the middle of the last chunk of the last patch. */
  function At(done: seq<Patch>, p: Patch, chunks: seq<Chunk>, c: Chunk): Reader {
    Reader(done + [p.(chunks := chunks + [c])], Some((|done|, |chunks|)))
  }

  lemma StepBody(done: seq<Patch>, p: Patch, chunks: seq<Chunk>, c: Chunk, l: Line)
    requires !Misread(l)
    ensures GoodReader(At(done, p, chunks, c))
    ensures Step(At(done, p, chunks, c), PrintLine(l)) == Ok(At(done, p, chunks, c.(lines := c.lines + [l])))
  {
    ClassifyLine(l);
    hide Classify;
    var q := p.(chunks := chunks + [c]);
    assert (chunks + [c])[|chunks| := c.(lines := c.lines + [l])] == chunks + [c.(lines := c.lines + [l])];
    assert forall q': Patch :: (done + [q])[|done| := q'] == done + [q'];
  }

  lemma ReadCons(r: Reader, s: string, rest: seq<string>, r1: Reader)
    requires GoodReader(r) && Step(r, s) == Ok(r1)
    ensures GoodReader(r1) && Read(r, [s] + rest) == Read(r1, rest)
  {
    assert ([s] + rest)[0] == s && ([s] + rest)[1..] == rest;
  }

  lemma BodyCons(lines: seq<Line>, c: Chunk)
    ensures lines == [] ==> PrintBody(lines) == [] && c.(lines := c.lines + lines) == c
    ensures lines != [] ==> PrintBody(lines) == [PrintLine(lines[0])] + PrintBody(lines[1..])
    ensures lines != [] ==> c.lines + lines == (c.lines + [lines[0]]) + lines[1..]
  {
  }

  lemma ReadNil(r: Reader)
    requires GoodReader(r)
    ensures Read(r, []) == Ok(r)
  {
  }

  lemma AtGood(done: seq<Patch>, p: Patch, chunks: seq<Chunk>, c: Chunk)
    ensures GoodReader(At(done, p, chunks, c))
  {
  }

  lemma {:induction false} ReadBody(done: seq<Patch>, p: Patch, chunks: seq<Chunk>, c: Chunk, lines: seq<Line>)
    requires forall l :: l in lines ==> !Misread(l)
    ensures GoodReader(At(done, p, chunks, c))
    ensures Read(At(done, p, chunks, c), PrintBody(lines)) == Ok(At(done, p, chunks, c.(lines := c.lines + lines)))
    decreases |lines|
  {
    hide *;
    AtGood(done, p, chunks, c);
    BodyCons(lines, c);
    if lines == [] {
      ReadNil(At(done, p, chunks, c));
    } else {
      var l, rest, c' := lines[0], lines[1..], c.(lines := c.lines + [lines[0]]);
      StepBody(done, p, chunks, c, l);
      ReadBody(done, p, chunks, c', rest);
      ReadCons(At(done, p, chunks, c), PrintLine(l), PrintBody(rest), At(done, p, chunks, c'));
    }
  }

  /** The chunk pointer after some chunks of the last patch were read. */
  function Pointer(before: Option<(nat, nat)>, i: nat, chunks: seq<Chunk>): Option<(nat, nat)> {
    if chunks == [] then before else Some((i, |chunks| - 1))
  }

  function In(done: seq<Patch>, p: Patch, chunks: seq<Chunk>, before: Option<(nat, nat)>): Reader {
    Reader(done + [p.(chunks := chunks)], Pointer(before, |done|, chunks))
  }

  predicate GoodPointer(done: seq<Patch>, before: Option<(nat, nat)>) {
    before.Some? ==> before.value.0 < |done| && before.value.1 < |done[before.value.0].chunks|
  }

  lemma StepHeader(done: seq<Patch>, p: Patch, chunks: seq<Chunk>, h: Header, before: Option<(nat, nat)>)
    requires GoodPointer(done, before)
    ensures GoodReader(In(done, p, chunks, before))
    ensures Step(In(done, p, chunks, before), PrintHeader(h)) ==
      Ok(At(done, p, chunks, Chunk(h.srcStart, h.dstStart, [])))
  {
    ClassifyHeader(h, "");
    hide Classify, PrintHeader;
    var r := In(done, p, chunks, before);
    assert forall q': Patch :: r.patches[|done| := q'] == done + [q'];
  }

  lemma ChunkRead(done: seq<Patch>, p: Patch, chunks: seq<Chunk>, c: Chunk, before: Option<(nat, nat)>)
    ensures At(done, p, chunks, c) == In(done, p, chunks + [c], before)
    ensures Chunk(c.srcStart, c.dstStart, []).(lines := [] + c.lines) == c
    ensures HeaderOf(c).srcStart == c.srcStart && HeaderOf(c).dstStart == c.dstStart
    ensures PrintChunk(c) == [PrintHeader(HeaderOf(c))] + PrintBody(c.lines)
    ensures CleanChunk(c) ==> forall l :: l in c.lines ==> !Misread(l)
  {
    hide PrintHeader, PrintBody, Misread;
  }

  lemma ReadChunk(done: seq<Patch>, p: Patch, chunks: seq<Chunk>, c: Chunk, before: Option<(nat, nat)>)
    requires CleanChunk(c) && GoodPointer(done, before)
    ensures GoodReader(In(done, p, chunks, before))
    ensures Read(In(done, p, chunks, before), PrintChunk(c)) == Ok(In(done, p, chunks + [c], before))
  {
    hide *;
    var empty := Chunk(c.srcStart, c.dstStart, []);
    ChunkRead(done, p, chunks, c, before);
    StepHeader(done, p, chunks, HeaderOf(c), before);
    ReadBody(done, p, chunks, empty, c.lines);
    ReadCons(In(done, p, chunks, before), PrintHeader(HeaderOf(c)), PrintBody(c.lines), At(done, p, chunks, empty));
  }

  lemma {:induction false} ReadChunks(done: seq<Patch>, p: Patch, chunks: seq<Chunk>, more: seq<Chunk>,
                                      before: Option<(nat, nat)>)
    requires (forall c :: c in more ==> CleanChunk(c)) && GoodPointer(done, before)
    ensures GoodReader(In(done, p, chunks, before))
    ensures Read(In(done, p, chunks, before), PrintChunks(more)) == Ok(In(done, p, chunks + more, before))
    decreases |more|
  {
    hide CleanChunk, PrintChunk, Step;
    if more == [] {
      assert chunks + more == chunks;
    } else {
      var c, rest := more[0], more[1..];
      ReadChunk(done, p, chunks, c, before);
      ReadChunks(done, p, chunks + [c], rest, before);
      ReadAppend(In(done, p, chunks, before), PrintChunk(c), PrintChunks(rest));
      assert chunks + more == (chunks + [c]) + rest;
      hide In, Read;
    }
  }

  lemma ReadPatch(done: seq<Patch>, p: Patch, before: Option<(nat, nat)>)
    requires CleanPatch(p) && GoodPointer(done, before)
    ensures GoodReader(Reader(done, before)) && GoodPointer(done + [p], Pointer(before, |done|, p.chunks))
    ensures Read(Reader(done, before), PrintPatch(p)) == Ok(Reader(done + [p], Pointer(before, |done|, p.chunks)))
  {
    hide *;
    var p0, p1 := Patch(p.src, "", []), Patch(p.src, p.dst, []);
    PatchRead(done, p, before);
    StepFiles(done, p, before);
    ReadChunks(done, p1, [], p.chunks, before);
    var tail := PrintChunks(p.chunks);
    ReadCons(Reader(done + [p0], before), "+++ " + p.dst, tail, In(done, p1, [], before));
    ReadCons(Reader(done, before), "--- " + p.src, ["+++ " + p.dst] + tail, Reader(done + [p0], before));
  }

  lemma PatchRead(done: seq<Patch>, p: Patch, before: Option<(nat, nat)>)
    requires GoodPointer(done, before)
    ensures GoodReader(Reader(done, before)) && GoodPointer(done + [p], Pointer(before, |done|, p.chunks))
    ensures PrintPatch(p) == ["--- " + p.src] + (["+++ " + p.dst] + PrintChunks(p.chunks))
    ensures In(done, Patch(p.src, p.dst, []), [] + p.chunks, before) ==
      Reader(done + [p], Pointer(before, |done|, p.chunks))
    ensures CleanPatch(p) ==> forall c :: c in p.chunks ==> CleanChunk(c)
  {
    assert Patch(p.src, p.dst, []).(chunks := [] + p.chunks) == p;
    hide CleanChunk, PrintChunks;
  }

  lemma StepFiles(done: seq<Patch>, p: Patch, before: Option<(nat, nat)>)
    requires GoodPointer(done, before)
    ensures var r0, r1 := Reader(done, before), Reader(done + [Patch(p.src, "", [])], before);
      && GoodReader(r0) && GoodReader(r1) && Step(r0, "--- " + p.src) == Ok(r1)
      && Step(r1, "+++ " + p.dst) == Ok(In(done, Patch(p.src, p.dst, []), [], before))
  {
    ClassifyFiles(p.src);
    ClassifyFiles(p.dst);
    hide Classify;
    assert (done + [Patch(p.src, "", [])])[|done| := Patch(p.src, p.dst, [])] == done + [Patch(p.src, p.dst, [])];
  }

  lemma {:induction false} ReadPatches(done: seq<Patch>, ps: seq<Patch>, before: Option<(nat, nat)>)
    requires Clean(ps) && GoodPointer(done, before)
    ensures GoodReader(Reader(done, before))
    ensures var r := Read(Reader(done, before), PrintAll(ps)); r.Ok? && r.value.patches == done + ps
    decreases |ps|
  {
    hide CleanPatch, PrintPatch, Step;
    if ps == [] {
      assert done + ps == done;
    } else {
      var p, rest := ps[0], ps[1..];
      ReadPatch(done, p, before);
      ReadPatches(done + [p], rest, Pointer(before, |done|, p.chunks));
      ReadAppend(Reader(done, before), PrintPatch(p), PrintAll(rest));
      assert done + ps == (done + [p]) + rest;
      hide Read, Pointer;
    }
  }

  /** Printed line by line, patches are read back exactly when they are clean. */
  lemma PrintedReadsBack(ps: seq<Patch>)
    ensures Parse(PrintAll(ps)) == Ok(ps) <==> Clean(ps)
  {
    AllBodies(ps);
    if Clean(ps) {
      ReadPatches([], ps, None);
      assert [] + ps == ps;
    } else if Read(Reader([], None), PrintAll(ps)).Ok? {
      ReadTotal(Reader([], None), PrintAll(ps));
    }
  }

  // ---------------------------------------------------------------- what is accepted

  ghost predicate SomeFile(lines: seq<string>) { exists i :: 0 <= i < |lines| && Classify(lines[i]).SrcFile? }

  ghost predicate SomeChunk(lines: seq<string>) { exists i :: 0 <= i < |lines| && Classify(lines[i]).ChunkStart? }

  /** The second name and the chunks of a patch need a first name before them, the lines of a chunk a header. */
  ghost predicate Allowed(before: seq<string>, line: string) {
    match Classify(line)
    case SrcFile(_) => true
    case DstFile(_) => SomeFile(before)
    case ChunkStart(_, _) => SomeFile(before)
    case Body(_) => SomeChunk(before)
    case Bad => false
  }

  lemma {:induction false} ReadSoFar(lines: seq<string>)
    ensures var r := Read(Reader([], None), lines);
      && (r.Ok? <==> forall i :: 0 <= i < |lines| ==> Allowed(lines[..i], lines[i]))
      && (r.Ok? ==> (r.value.patches != [] <==> SomeFile(lines)) && (r.value.chunk.Some? <==> SomeChunk(lines)))
  {
    hide Classify;
    if lines != [] {
      var n := |lines| - 1;
      var front, last := lines[..n], lines[n];
      ReadSoFar(front);
      assert lines == front + [last];
      ReadAppend(Reader([], None), front, [last]);
      forall i | 0 <= i < n ensures lines[..i] == front[..i] && lines[i] == front[i] {
      }
      SomeOfFront(lines);
      hide Allowed, SomeFile, SomeChunk;
      if Read(Reader([], None), front).Ok? {
        ReadLast(Read(Reader([], None), front).value, front, last);
      }
    }
  }

  lemma SomeOfFront(lines: seq<string>)
    requires lines != []
    ensures var n := |lines| - 1;
      && (SomeFile(lines) <==> SomeFile(lines[..n]) || Classify(lines[n]).SrcFile?)
      && (SomeChunk(lines) <==> SomeChunk(lines[..n]) || Classify(lines[n]).ChunkStart?)
  {
    hide Classify;
    var n := |lines| - 1;
    assert forall i :: 0 <= i < n ==> lines[..n][i] == lines[i];
  }

  lemma ReadLast(r: Reader, front: seq<string>, last: string)
    requires GoodReader(r) && (r.patches != [] <==> SomeFile(front)) && (r.chunk.Some? <==> SomeChunk(front))
    ensures var after := Read(r, [last]);
      && (after.Ok? <==> Allowed(front, last))
      && (after.Ok? ==>
            && (after.value.patches != [] <==> SomeFile(front) || Classify(last).SrcFile?)
            && (after.value.chunk.Some? <==> SomeChunk(front) || Classify(last).ChunkStart?))
  {
    hide Classify, SomeFile, SomeChunk;
    assert [last][1..] == [];
    if Step(r, last).Ok? { ReadNil(Step(r, last).value); }
  }

  /** A patch set is accepted exactly when each line is of a known kind and stands behind what it needs. */
  lemma AcceptedExactly(lines: seq<string>)
    ensures Parse(lines).Ok? <==> forall i :: 0 <= i < |lines| ==> Allowed(lines[..i], lines[i])
  {
    ReadSoFar(lines);
    hide Allowed, Read;
  }

  /** Where a line goes: a first name starts a patch, and leaves the current chunk; the second name and the headers go
      to the last patch; a line goes to the current chunk. */
  lemma StepExactly(r: Reader, s: string)
    requires GoodReader(r) && Step(r, s).Ok?
    ensures var r' := Step(r, s).value;
      var n := |r.patches| - 1;
      match Classify(s)
      case SrcFile(name) => r'.patches == r.patches + [Patch(name, "", [])] && r'.chunk == r.chunk
      case DstFile(name) =>
        && |r'.patches| == |r.patches| && r'.patches[..n] == r.patches[..n] && r'.chunk == r.chunk
        && r'.patches[n].dst == name && r'.patches[n].src == r.patches[n].src
        && r'.patches[n].chunks == r.patches[n].chunks
      case ChunkStart(a, b) =>
        && |r'.patches| == |r.patches| && r'.patches[..n] == r.patches[..n]
        && r'.patches[n].src == r.patches[n].src && r'.patches[n].dst == r.patches[n].dst
        && r'.patches[n].chunks == r.patches[n].chunks + [Chunk(a, b, [])]
        && r'.chunk == Some((n, |r.patches[n].chunks|))
      case Body(l) =>
        var (i, j) := r.chunk.value;
        && |r'.patches| == |r.patches| && r'.chunk == r.chunk
        && r'.patches[i].chunks[j].lines == r.patches[i].chunks[j].lines + [l]
        && r'.patches == r.patches[i := r.patches[i].(chunks :=
             r.patches[i].chunks[j := r.patches[i].chunks[j].(lines := r.patches[i].chunks[j].lines + [l])])]
      case Bad => false
  {
    hide Classify;
  }

  // ---------------------------------------------------------------- what was read can be written and read again

  lemma ClassifyClean(s: string)
    ensures Classify(s).Body? ==> !Misread(Classify(s).line)
  {
    var t := Classify(s);
    if t.Body? {
      assert s != "" && s[1..] == t.line.text;
      PrefixSplit("--- ", s);
      PrefixSplit("+++ ", s);
      assert "--- "[0] == '-' && "--- "[1..] == "-- " && "+++ "[0] == '+' && "+++ "[1..] == "++ ";
    }
  }

  lemma StepClean(r: Reader, s: string)
    requires GoodReader(r) && Clean(r.patches) && Step(r, s).Ok?
    ensures Clean(Step(r, s).value.patches)
  {
    ClassifyClean(s);
    hide Classify;
    var n := |r.patches| - 1;
    match Classify(s)
    case SrcFile(name) =>
    case DstFile(name) => assert CleanPatch(r.patches[n]);
    case ChunkStart(a, b) => assert CleanPatch(r.patches[n]);
    case Body(l) =>
      var (i, j) := r.chunk.value;
      assert CleanPatch(r.patches[i]) && CleanChunk(r.patches[i].chunks[j]);
    case Bad =>
  }

  lemma {:induction false} ReadClean(r: Reader, lines: seq<string>)
    requires GoodReader(r) && Clean(r.patches) && Read(r, lines).Ok?
    ensures Clean(Read(r, lines).value.patches)
    decreases |lines|
  {
    if lines != [] {
      StepClean(r, lines[0]);
      hide Clean, Step;
      ReadClean(Step(r, lines[0]).value, lines[1..]);
    }
  }

  // ---------------------------------------------------------------- text

  predicate OneLineText(s: string) { forall i :: 0 <= i < |s| ==> s[i] != '\n' }

  predicate AllOneLine(lines: seq<string>) { forall s :: s in lines ==> OneLineText(s) }

  function TextOf(lines: seq<string>): string { if lines == [] then "" else (lines[0] + ['\n']) + TextOf(lines[1..]) }

  /** Length of the first line. */
  function LineEnd(t: string): (k: nat)
    ensures k <= |t| && OneLineText(t[..k]) && (k < |t| ==> t[k] == '\n')
  {
    if t == "" || t[0] == '\n' then 0
    else
      var k := LineEnd(t[1..]);
      assert t[..k + 1] == [t[0]] + t[1..][..k];
      k + 1
  }

  /** The lines of a text, as reading a file line by line delivers them, without their ends. */
  function SplitLines(t: string): seq<string>
    decreases |t|
  {
    if t == "" then [] else [t[..LineEnd(t)]] + if LineEnd(t) < |t| then SplitLines(t[LineEnd(t) + 1..]) else []
  }

  lemma {:induction false} SplitText(lines: seq<string>)
    requires AllOneLine(lines)
    ensures SplitLines(TextOf(lines)) == lines
  {
    if lines != [] {
      SplitText(lines[1..]);
      FirstLine(lines[0], TextOf(lines[1..]));
      assert lines == [lines[0]] + lines[1..];
    }
  }

  lemma FirstLine(s: string, rest: string)
    requires OneLineText(s)
    ensures var t := (s + ['\n']) + rest; LineEnd(t) == |s| && t[..|s|] == s && t[|s| + 1..] == rest
  {
    var t := (s + ['\n']) + rest;
    var k := LineEnd(t);
    assert t[|s|] == '\n' && forall i :: 0 <= i < |s| ==> t[i] == s[i];
    assert forall i :: 0 <= i < k ==> t[..k][i] == t[i];
  }

  predicate OneLineBody(lines: seq<Line>) { forall l :: l in lines ==> OneLineText(l.text) }

  predicate OneLinePatch(p: Patch) {
    OneLineText(p.src) && OneLineText(p.dst) && forall c :: c in p.chunks ==> OneLineBody(c.lines)
  }

  lemma OneLineJoin(a: string, b: string)
    requires OneLineText(a) && OneLineText(b)
    ensures OneLineText(a + b)
  {
  }

  lemma OneLineNumber(n: nat)
    ensures OneLineText(Decimal(n))
  {
    assert forall i :: 0 <= i < |Decimal(n)| ==> IsDigit(Decimal(n)[i]);
  }

  lemma OneLineHeader(h: Header)
    ensures OneLineText(PrintHeader(h))
  {
    OneLineNumber(h.srcStart);
    OneLineNumber(h.srcLen);
    OneLineNumber(h.dstStart);
    OneLineNumber(h.dstLen);
    hide Decimal;
    var d := Decimal(h.dstLen) + " @@";
    var c := Decimal(h.dstStart) + ("," + d);
    var b := Decimal(h.srcLen) + (" +" + c);
    var a := Decimal(h.srcStart) + ("," + b);
    assert PrintHeader(h) == "@@ -" + a;
    assert OneLineText(",") && OneLineText(" +") && OneLineText("@@ -") && OneLineText(" @@");
    hide OneLineText;
    OneLineJoin(Decimal(h.dstLen), " @@");
    OneLineJoin(",", d);
    OneLineJoin(Decimal(h.dstStart), "," + d);
    OneLineJoin(" +", c);
    OneLineJoin(Decimal(h.srcLen), " +" + c);
    OneLineJoin(",", b);
    OneLineJoin(Decimal(h.srcStart), "," + b);
    OneLineJoin("@@ -", a);
  }

  lemma AllOneLineJoin(a: seq<string>, b: seq<string>)
    requires AllOneLine(a) && AllOneLine(b)
    ensures AllOneLine(a + b)
  {
  }

  lemma {:induction false} OneLinePrintBody(lines: seq<Line>)
    requires OneLineBody(lines)
    ensures AllOneLine(PrintBody(lines))
  {
    if lines != [] {
      OneLinePrintBody(lines[1..]);
      assert OneLineText([Mark(lines[0].kind)]);
      OneLineJoin([Mark(lines[0].kind)], lines[0].text);
      AllOneLineJoin([PrintLine(lines[0])], PrintBody(lines[1..]));
    }
  }

  lemma {:induction false} OneLineChunks(cs: seq<Chunk>)
    requires forall c :: c in cs ==> OneLineBody(c.lines)
    ensures AllOneLine(PrintChunks(cs))
  {
    hide OneLineText, PrintHeader, PrintBody, OneLineBody;
    if cs != [] {
      OneLineChunks(cs[1..]);
      OneLineHeader(HeaderOf(cs[0]));
      OneLinePrintBody(cs[0].lines);
      AllOneLineJoin([PrintHeader(HeaderOf(cs[0]))], PrintBody(cs[0].lines));
      AllOneLineJoin(PrintChunk(cs[0]), PrintChunks(cs[1..]));
    }
  }

  lemma {:induction false} OneLineAll(ps: seq<Patch>)
    requires AllOneLinePatches(ps)
    ensures AllOneLine(PrintAll(ps))
  {
    if ps != [] {
      OneLineAll(ps[1..]);
      var p := ps[0];
      assert OneLinePatch(p);
      OneLineChunks(p.chunks);
      assert OneLineText("--- ") && OneLineText("+++ ");
      OneLineJoin("--- ", p.src);
      OneLineJoin("+++ ", p.dst);
      hide OneLineText, PrintChunks;
      AllOneLineJoin(["+++ " + p.dst], PrintChunks(p.chunks));
      AllOneLineJoin(["--- " + p.src], ["+++ " + p.dst] + PrintChunks(p.chunks));
      AllOneLineJoin(PrintPatch(p), PrintAll(ps[1..]));
    }
  }

  predicate AllOneLinePatches(ps: seq<Patch>) { forall p :: p in ps ==> OneLinePatch(p) }

  /** Reading what was written gives the same patches exactly when no removed line begins with "-- " and no added one
      with "++ "; names and lines hold no line ends. */
  lemma RoundTripExactly(ps: seq<Patch>)
    requires AllOneLinePatches(ps)
    ensures AllOneLine(PrintAll(ps))
    ensures Parse(PrintAll(ps)) == Ok(ps) <==> Clean(ps)
  {
    OneLineAll(ps);
    PrintedReadsBack(ps);
  }

  lemma StepSame(r: Reader, a: string, b: string)
    requires GoodReader(r) && Classify(a) == Classify(b)
    ensures Step(r, a) == Step(r, b)
  {
    hide Classify;
  }

  /** Reading looks at what the lines are taken for only. */
  lemma {:induction false} ReadSame(r: Reader, a: seq<string>, b: seq<string>)
    requires GoodReader(r) && |a| == |b| && forall i :: 0 <= i < |a| ==> Classify(a[i]) == Classify(b[i])
    ensures Read(r, a) == Read(r, b)
    decreases |a|
  {
    if a != [] {
      StepSame(r, a[0], b[0]);
      hide Step, Classify;
      if Step(r, a[0]).Ok? { ReadSame(Step(r, a[0]).value, a[1..], b[1..]); }
    }
  }

  /** The line, or a header with some text behind it. */
  ghost predicate TextBehind(line: string, line': string) {
    line' == line || exists h, text :: line == PrintHeader(h) && line' == PrintHeader(h) + text
  }

  /** Any text behind the headers of printed patches leaves what is read as it is. */
  lemma HeadersWithText(ps: seq<Patch>, lines: seq<string>)
    requires AllOneLinePatches(ps) && AllOneLine(lines) && |lines| == |PrintAll(ps)|
    requires forall i :: 0 <= i < |lines| ==> TextBehind(PrintAll(ps)[i], lines[i])
    ensures Parse(lines) == Parse(PrintAll(ps))
    ensures Parse(lines) == Ok(ps) <==> Clean(ps)
  {
    RoundTripExactly(ps);
    hide Classify, PrintHeader, PrintAll, Read;
    forall i | 0 <= i < |lines| ensures Classify(lines[i]) == Classify(PrintAll(ps)[i]) {
      if lines[i] != PrintAll(ps)[i] {
        var h, text :| PrintAll(ps)[i] == PrintHeader(h) && lines[i] == PrintHeader(h) + text;
        ClassifyHeader(h, text);
      }
    }
    ReadSame(Reader([], None), lines, PrintAll(ps));
  }

  /** The round trip through the text of a file. */
  lemma TextRoundTripExactly(ps: seq<Patch>)
    requires AllOneLinePatches(ps)
    ensures Parse(SplitLines(TextOf(PrintAll(ps)))) == Ok(ps) <==> Clean(ps)
  {
    RoundTripExactly(ps);
    SplitText(PrintAll(ps));
  }

  lemma OneLineTail(s: string, k: nat)
    requires OneLineText(s) && k <= |s|
    ensures OneLineText(s[k..])
  {
  }

  lemma ClassifyOneLine(s: string)
    requires OneLineText(s)
    ensures var t := Classify(s);
      && (t.SrcFile? || t.DstFile? ==> OneLineText(t.name))
      && (t.Body? ==> OneLineText(t.line.text))
  {
    hide ReadHeader;
    if |s| >= 1 { OneLineTail(s, 1); }
    if |s| >= 4 { OneLineTail(s, 4); }
  }

  lemma StepOneLine(r: Reader, s: string)
    requires GoodReader(r) && AllOneLinePatches(r.patches) && OneLineText(s) && Step(r, s).Ok?
    ensures AllOneLinePatches(Step(r, s).value.patches)
  {
    ClassifyOneLine(s);
    hide Classify, OneLineText;
    var n := |r.patches| - 1;
    match Classify(s)
    case SrcFile(name) => assert OneLineText("") by { EmptyOneLine(); }
    case DstFile(name) => assert OneLinePatch(r.patches[n]);
    case ChunkStart(a, b) => assert OneLinePatch(r.patches[n]);
    case Body(l) =>
      var (i, j) := r.chunk.value;
      assert OneLinePatch(r.patches[i]) && OneLineBody(r.patches[i].chunks[j].lines);
    case Bad =>
  }

  lemma EmptyOneLine()
    ensures OneLineText("")
  {
  }

  lemma {:induction false} ReadOneLine(r: Reader, lines: seq<string>)
    requires GoodReader(r) && AllOneLinePatches(r.patches) && AllOneLine(lines) && Read(r, lines).Ok?
    ensures AllOneLinePatches(Read(r, lines).value.patches)
    decreases |lines|
  {
    if lines != [] {
      StepOneLine(r, lines[0]);
      hide AllOneLinePatches, Step, OneLineText;
      ReadOneLine(Step(r, lines[0]).value, lines[1..]);
    }
  }

  lemma {:induction false} SplitOneLine(t: string)
    ensures AllOneLine(SplitLines(t))
    decreases |t|
  {
    if t != "" && LineEnd(t) < |t| { SplitOneLine(t[LineEnd(t) + 1..]); }
  }

  lemma ReadWriteReadLines(lines: seq<string>)
    requires AllOneLine(lines) && Parse(lines).Ok?
    ensures AllOneLinePatches(Parse(lines).value)
    ensures Parse(PrintAll(Parse(lines).value)) == Parse(lines)
  {
    ReadClean(Reader([], None), lines);
    ReadOneLine(Reader([], None), lines);
    RoundTripExactly(Parse(lines).value);
  }

  /** Whatever text a patch set was read from, writing it and reading it again gives it back. */
  lemma ReadWriteRead(text: string)
    requires Parse(SplitLines(text)).Ok?
    ensures var ps := Parse(SplitLines(text));
      Parse(SplitLines(TextOf(PrintAll(ps.value)))) == ps
  {
    SplitOneLine(text);
    ReadWriteReadLines(SplitLines(text));
    ReadClean(Reader([], None), SplitLines(text));
    TextRoundTripExactly(Parse(SplitLines(text)).value);
  }

  /** A patch that removes one line, which is misread: the line comes back as a patch of its own. */
  lemma MisreadLine(src: string, dst: string, a: nat, b: nat, text: string)
    requires "-- " <= text
    ensures Parse(PrintAll([Patch(src, dst, [Chunk(a, b, [Line(Src, text)])])])) ==
            Ok([Patch(src, dst, [Chunk(a, b, [])]), Patch(text[3..], "", [])])
  {
    hide *;
    var l := Line(Src, text);
    var c, empty := Chunk(a, b, [l]), Chunk(a, b, []);
    var p, p0, p1 := Patch(src, dst, [c]), Patch(src, "", []), Patch(src, dst, []);
    var header := PrintHeader(HeaderOf(c));
    var r0, r1 := Reader([], None), Reader([] + [p0], None);
    var r2, r3 := In([], p1, [], None), At([], p1, [], empty);
    var r4 := Reader([Patch(src, dst, [empty]), Patch(text[3..], "", [])], Some((0, 0)));
    MisreadPrinted(p, c, l);
    StepFiles([], p, None);
    StepHeader([], p1, [], HeaderOf(c), None);
    StepMisread(p1, a, b, text);
    ReadNil(r4);
    ReadCons(r3, PrintLine(l), [], r4);
    ReadCons(r2, header, [PrintLine(l)] + [], r3);
    ReadCons(r1, "+++ " + dst, [header] + ([PrintLine(l)] + []), r2);
    ReadCons(r0, "--- " + src, ["+++ " + dst] + ([header] + ([PrintLine(l)] + [])), r1);
    ParseRead(PrintAll([p]));
  }

  lemma ParseRead(lines: seq<string>)
    ensures GoodReader(Reader([], None)) && Read(Reader([], None), lines).Ok? ==>
      Parse(lines) == Ok(Read(Reader([], None), lines).value.patches)
  {
  }

  lemma MisreadPrinted(p: Patch, c: Chunk, l: Line)
    requires p.chunks == [c] && c.lines == [l]
    ensures PrintAll([p]) ==
            ["--- " + p.src] + (["+++ " + p.dst] + ([PrintHeader(HeaderOf(c))] + ([PrintLine(l)] + [])))
    ensures GoodPointer([], None) && HeaderOf(c).srcStart == c.srcStart && HeaderOf(c).dstStart == c.dstStart
  {
    hide PrintHeader, PrintLine;
    assert PrintBody([l]) == [PrintLine(l)] + PrintBody([]);
    assert PrintChunks([c]) == PrintChunk(c) + PrintChunks([]);
    assert PrintAll([p]) == PrintPatch(p) + PrintAll([]);
  }

  lemma StepMisread(p: Patch, a: nat, b: nat, text: string)
    requires "-- " <= text && p.chunks == []
    ensures GoodReader(At([], p, [], Chunk(a, b, []))) && |text| >= 3
    ensures Step(At([], p, [], Chunk(a, b, [])), PrintLine(Line(Src, text))) ==
            Ok(Reader([Patch(p.src, p.dst, [Chunk(a, b, [])]), Patch(text[3..], "", [])], Some((0, 0))))
  {
    ClassifyLine(Line(Src, text));
    hide Classify, PrintLine;
    var q, x := Patch(p.src, p.dst, [Chunk(a, b, [])]), Patch(text[3..], "", []);
    assert [] + [Chunk(a, b, [])] == q.chunks;
    assert p.(chunks := [Chunk(a, b, [])]) == q;
    assert At([], p, [], Chunk(a, b, [])).patches == [q] && [q] + [x] == [q, x];
  }

  /** A removed SQL comment `-- x`: its chunk loses the line, and a second patch appears for a file `x`. */
  lemma MisreadExample()
    ensures var p, c := Patch("a", "b", [Chunk(1, 1, [Line(Src, "-- x")])]), Chunk(1, 1, []);
      AllOneLinePatches([p]) && Parse(PrintAll([p])) == Ok([Patch("a", "b", [c]), Patch("x", "", [])])
  {
    assert "-- x"[..3] == "-- " && "-- x"[3..] == "x";
    MisreadLine("a", "b", 1, 1, "-- x");
  }

  // ---------------------------------------------------------------- the objects

  class ChunkObject {
    const srcStart: nat
    const dstStart: nat
    ghost const patch: nat
    ghost const place: nat
    var lines: seq<Line>

    constructor (srcStart: nat, dstStart: nat, ghost patch: nat, ghost place: nat)
      ensures this.srcStart == srcStart && this.dstStart == dstStart && this.patch == patch && this.place == place
      ensures lines == []
    {
      this.srcStart, this.dstStart, this.patch, this.place, lines := srcStart, dstStart, patch, place, [];
    }

    ghost function View(): Chunk
      reads this
    {
      Chunk(srcStart, dstStart, lines)
    }

    method AddLine(l: Line)
      modifies this
      ensures lines == old(lines) + [l]
    {
      lines := lines + [l];
    }

    method Length(on: Line -> bool) returns (n: nat)
      ensures n == Count(lines, on)
    {
      n := 0;
      for i := 0 to |lines|
        invariant n + Count(lines[i..], on) == Count(lines, on)
      {
        if on(lines[i]) {
          n := n + 1;
        }
      }
    }

    method Write(out: seq<string>) returns (r: seq<string>)
      ensures r == out + PrintChunk(View())
    {
      var srcLen := Length(OnSource);
      var dstLen := Length(OnDest);
      r := out + [PrintHeader(Header(srcStart, srcLen, dstStart, dstLen))];
      ghost var start := r;
      for i := 0 to |lines|
        invariant r + PrintBody(lines[i..]) == start + PrintBody(lines)
      {
        r := r + [PrintLine(lines[i])];
      }
      assert r + PrintBody(lines[|lines|..]) == r;
      assert start + PrintBody(lines) == out + PrintChunk(View());
    }
  }

  class PatchObject {
    ghost const index: nat
    var src: string
    var dst: string
    var chunks: seq<ChunkObject>

    constructor (src: string, ghost index: nat)
      ensures this.src == src && dst == "" && chunks == [] && this.index == index
    {
      this.src, dst, chunks, this.index := src, "", [], index;
    }

    ghost function View(): Patch
      reads this, chunks
    {
      Patch(src, dst, seq(|chunks|, j requires 0 <= j < |chunks| reads this, chunks => chunks[j].View()))
    }

    method Write(out: seq<string>) returns (r: seq<string>)
      ensures r == out + PrintPatch(View())
    {
      hide PrintChunk, PrintChunks;
      r := out + ["--- " + src] + ["+++ " + dst];
      ghost var start, views := r, View().chunks;
      assert views[0..] == views;
      for j := 0 to |chunks|
        invariant r + PrintChunks(views[j..]) == start + PrintChunks(views)
      {
        ChunksStep(r, views, j);
        r := chunks[j].Write(r);
      }
      ChunksEnd(r, views);
      assert start + PrintChunks(views) == out + PrintPatch(View());
    }
  }

  lemma ChunksStep(r: seq<string>, cs: seq<Chunk>, j: nat)
    requires j < |cs|
    ensures r + PrintChunks(cs[j..]) == (r + PrintChunk(cs[j])) + PrintChunks(cs[j + 1..])
  {
    hide PrintChunk;
    assert cs[j..][1..] == cs[j + 1..];
  }

  lemma ChunksEnd(r: seq<string>, cs: seq<Chunk>)
    ensures r + PrintChunks(cs[|cs|..]) == r
  {
  }

  /** The variables of the reading loop. */
  class PatchReader {
    var patchset: seq<PatchObject>
    var currentPatch: PatchObject?
    var currentChunk: ChunkObject?
    ghost var objects: set<object>
    ghost var view: Reader

    /** `view` is what the objects hold; no object is in two places. */
    ghost predicate Consistent()
      reads this, objects
    {
      && |patchset| == |view.patches| && GoodReader(view)
      && (forall i :: 0 <= i < |patchset| ==> patchset[i] in objects && Shows(patchset[i], i))
      && currentPatch == (if patchset == [] then null else patchset[|patchset| - 1])
      && currentChunk == (if view.chunk.None? then null else patchset[view.chunk.value.0].chunks[view.chunk.value.1])
    }

    /** The object is in its place, and so are its chunks. */
    ghost predicate Shows(o: PatchObject, i: nat)
      requires i < |view.patches| && o in objects
      reads this, objects
    {
      var v := view.patches[i];
      && o.index == i && o.src == v.src && o.dst == v.dst && |o.chunks| == |v.chunks|
      && forall j :: 0 <= j < |o.chunks| ==>
            var c := o.chunks[j];
            c in objects && c.patch == i && c.place == j && c.View() == v.chunks[j]
    }

    constructor ()
      ensures Consistent() && view == Reader([], None) && fresh(objects)
    {
      patchset, currentPatch, currentChunk, objects, view := [], null, null, {}, Reader([], None);
    }

    method StartPatch(name: string)
      requires Consistent()
      modifies this
      ensures Consistent() && fresh(objects - old(objects))
      ensures view == Reader(old(view).patches + [Patch(name, "", [])], old(view).chunk)
    {
      var p := new PatchObject(name, |patchset|);
      currentPatch := p;
      patchset := patchset + [p];
      objects := objects + {p};
      view := Reader(view.patches + [Patch(name, "", [])], view.chunk);
    }

    method SetDst(name: string)
      requires Consistent() && currentPatch != null
      modifies this, objects
      ensures Consistent() && objects == old(objects)
      ensures view == Last(old(view), old(view).patches[|old(view).patches| - 1].(dst := name))
    {
      currentPatch.dst := name;
      view := Last(view, view.patches[|view.patches| - 1].(dst := name));
    }

    method AddLine(l: Line)
      requires Consistent() && currentChunk != null
      modifies this, objects
      ensures Consistent() && objects == old(objects)
      ensures view ==
        Reader(WithLine(old(view).patches, old(view).chunk.value.0, old(view).chunk.value.1, l), old(view).chunk)
    {
      currentChunk.AddLine(l);
      view := Reader(WithLine(view.patches, view.chunk.value.0, view.chunk.value.1, l), view.chunk);
    }

    method StartChunk(a: nat, b: nat)
      requires Consistent() && currentPatch != null
      modifies this, objects
      ensures Consistent() && fresh(objects - old(objects))
      ensures var n := |old(view).patches| - 1;
        var p := old(view).patches[n];
        view == Last(old(view), p.(chunks := p.chunks + [Chunk(a, b, [])])).(chunk := Some((n, |p.chunks|)))
    {
      var c := new ChunkObject(a, b, |view.patches| - 1, |view.patches[|view.patches| - 1].chunks|);
      Attach(c);
    }

    method Attach(c: ChunkObject)
      requires Consistent() && currentPatch != null && c !in objects && c.lines == []
      requires var n := |view.patches| - 1; c.patch == n && c.place == |view.patches[n].chunks|
      modifies this, currentPatch
      ensures Consistent() && objects == old(objects) + {c}
      ensures var n := |old(view).patches| - 1;
        var p := old(view).patches[n];
        view == Last(old(view), p.(chunks := p.chunks + [c.View()])).(chunk := Some((n, |p.chunks|)))
    {
      ghost var n := |view.patches| - 1;
      ghost var p := view.patches[n];
      currentChunk := c;
      currentPatch.chunks := currentPatch.chunks + [c];
      objects := objects + {c};
      view := Last(view, p.(chunks := p.chunks + [c.View()])).(chunk := Some((n, |p.chunks|)));
      assert Shows(currentPatch, n);
      forall i | 0 <= i < n ensures Shows(patchset[i], i) {
        assert old(Shows(patchset[i], i));
      }
    }

    /** One turn of the reading loop. A file name before any patch, or a line before any chunk, is an error. */
    method ReadLine(s: string) returns (ok: bool)
      requires Consistent()
      modifies this, objects
      ensures ok == Step(old(view), s).Ok?
      ensures ok ==> Consistent() && view == Step(old(view), s).value && fresh(objects - old(objects))
    {
      hide Classify;
      ok := true;
      match Classify(s) {
        case SrcFile(name) =>
          StartPatch(name);
        case DstFile(name) =>
          if currentPatch == null { return false; }
          SetDst(name);
        case ChunkStart(a, b) =>
          if currentPatch == null { return false; }
          StartChunk(a, b);
        case Body(l) =>
          if currentChunk == null { return false; }
          AddLine(l);
        case Bad =>
          return false;
      }
    }

    /** What the objects hold is what the patches print. */
    lemma ShownViews()
      requires Consistent()
      ensures forall i :: 0 <= i < |patchset| ==> patchset[i].View() == view.patches[i]
    {
      forall i | 0 <= i < |patchset| ensures patchset[i].View() == view.patches[i] {
        assert Shows(patchset[i], i);
      }
    }
  }

  method ParsePatchset(lines: seq<string>) returns (r: Result<seq<PatchObject>>)
    ensures r.Ok? == Parse(lines).Ok?
    ensures r.Ok? ==> |r.value| == |Parse(lines).value| && forall i :: 0 <= i < |r.value| ==>
      r.value[i].View() == Parse(lines).value[i]
  {
    hide Step, PatchReader.Shows;
    var reader := new PatchReader();
    for k := 0 to |lines|
      invariant reader.Consistent() && fresh(reader.objects) && fresh(reader)
      invariant Read(Reader([], None), lines) == Read(reader.view, lines[k..])
    {
      assert lines[k..][0] == lines[k] && lines[k..][1..] == lines[k + 1..];
      var ok := reader.ReadLine(lines[k]);
      if !ok {
        return Err;
      }
    }
    reader.ShownViews();
    r := Ok(reader.patchset);
  }

  /** Writes the patches one after the other; `views` is what the objects hold. */
  method WritePatchset(patches: seq<PatchObject>, ghost views: seq<Patch>) returns (out: seq<string>)
    requires |views| == |patches| && forall i :: 0 <= i < |patches| ==> patches[i].View() == views[i]
    ensures out == PrintAll(views)
  {
    hide PrintPatch, PatchObject.View;
    out := [];
    assert views[0..] == views;
    for i := 0 to |patches|
      invariant out + PrintAll(views[i..]) == PrintAll(views)
    {
      assert views[i..][1..] == views[i + 1..];
      out := patches[i].Write(out);
    }
    assert views[|patches|..] == [];
  }

  /** Reading, writing and reading again, on the objects. */
  method Rewrite(lines: seq<string>) returns (ok: bool, out: seq<string>)
    ensures ok == Parse(lines).Ok?
    ensures ok ==> out == PrintAll(Parse(lines).value)
    ensures ok && AllOneLine(lines) ==> Parse(out) == Parse(lines)
  {
    var r := ParsePatchset(lines);
    hide Parse, PrintAll, PatchObject.View;
    if r.Err? { return false, []; }
    out := WritePatchset(r.value, Parse(lines).value);
    assert AllOneLine(lines) ==> Parse(out) == Parse(lines) by {
      if AllOneLine(lines) { ReadWriteReadLines(lines); }
    }
    ok := true;
  }
}
