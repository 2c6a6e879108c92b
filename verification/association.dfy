/** readAssociationFile of src/utils.cpp: the frame manifest, one line per
    frame, becomes two parallel lists of (timestamp, file name) records, one
    for the colour images and one for the depth images. The file is given as
    the sequence of its lines, or None when it cannot be opened. */
module Association {
  import opened Common
  import opened Types

  /** The characters std::isspace accepts in the "C" locale; operator>>
      skips runs of them between fields (0x0B and 0x0C are \v and \f). */
  predicate IsSpace(c: char) {
    c == ' ' || c == '\t' || c == '\n' || c == '\r' || c as int == 0x0B || c as int == 0x0C
  }

  /** The longest prefix of s without whitespace. */
  function Word(s: string): (w: string)
    ensures |w| <= |s| && w == s[..|w|]
    ensures forall k :: 0 <= k < |w| ==> !IsSpace(w[k])
    ensures |w| < |s| ==> IsSpace(s[|w|])
  {
    if s == [] || IsSpace(s[0]) then [] else [s[0]] + Word(s[1..])
  }

  /** The whitespace-separated tokens of s, in order: what successive
      operator>> string extractions read from an istringstream. */
  function Tokens(s: string): (r: seq<string>)
    decreases |s|
  {
    if s == [] then []
    else if IsSpace(s[0]) then Tokens(s[1..])
    else var w := Word(s); [w] + Tokens(s[|w|..])
  }

  /** A field that reads back as itself: non-empty, without whitespace. */
  predicate IsField(t: string) {
    |t| > 0 && forall k :: 0 <= k < |t| ==> !IsSpace(t[k])
  }

  function Token(ts: seq<string>, k: nat): (r: string) {
    if k < |ts| then ts[k] else ""
  }

  function Stamp(ts: seq<string>, k: nat): (r: Option<string>) {
    if k < |ts| then Some(ts[k]) else None
  }

  /** One manifest line: tokens 0 and 1 are the colour image's timestamp and
      file name, tokens 2 and 3 the depth image's. A missing file name reads
      as the empty string, a missing timestamp as None. */
  function ParseLine(line: string): (r: (FileInfo, FileInfo)) {
    var ts := Tokens(line);
    (FileInfo(Stamp(ts, 0), Token(ts, 1)), FileInfo(Stamp(ts, 2), Token(ts, 3)))
  }

  /** The colour records of a manifest, one per line. */
  function RgbRecords(lines: seq<string>): (r: Files) {
    seq(|lines|, i requires 0 <= i < |lines| => ParseLine(lines[i]).0)
  }

  /** The depth records of a manifest, one per line. */
  function DepthRecords(lines: seq<string>): (r: Files) {
    seq(|lines|, i requires 0 <= i < |lines| => ParseLine(lines[i]).1)
  }

  /** Two lists holding the parse of every line, in line order, are the
      manifest's record lists. */
  lemma RecordsOfLines(lines: seq<string>, rgb: Files, depth: Files)
    requires |rgb| == |lines| && |depth| == |lines|
    requires forall i :: 0 <= i < |lines| ==> (rgb[i], depth[i]) == ParseLine(lines[i])
    ensures rgb == RgbRecords(lines) && depth == DepthRecords(lines)
  {
  }

  datatype ReadError = CannotOpenFile

  /** readAssociationFile: a file that cannot be opened is fatal (exit(-1));
      otherwise every line, blank or short ones included, yields one colour
      record and one depth record, in line order. */
  method ReadAssociationFile(file: Option<seq<string>>) returns (r: Result<(Files, Files), ReadError>)
    ensures file.None? ==> r == Failure(CannotOpenFile)
    ensures file.Some? ==> r.Success?
    ensures file.Some? ==> |r.value.0| == |file.value| && |r.value.1| == |file.value|
    ensures file.Some? ==> forall i :: 0 <= i < |file.value| ==>
              (r.value.0[i], r.value.1[i]) == ParseLine(file.value[i])
  {
    if file.None? {
      return Failure(CannotOpenFile);
    }
    var lines := file.value;
    var dRgb: Files := [];
    var dDepth: Files := [];
    for i := 0 to |lines|
      invariant |dRgb| == i && |dDepth| == i
      invariant forall k :: 0 <= k < i ==> (dRgb[k], dDepth[k]) == ParseLine(lines[k])
    {
      var (rgb, depth) := ParseLine(lines[i]);
      dRgb := dRgb + [rgb];
      dDepth := dDepth + [depth];
    }
    return Success((dRgb, dDepth));
  }

  /** A whitespace character ends a word. */
  lemma {:induction false} WordStopsAtSpace(a: string, c: char, b: string)
    requires IsSpace(c)
    ensures Word(a + [c] + b) == Word(a)
  {
    if a != [] && !IsSpace(a[0]) {
      assert (a + [c] + b)[1..] == a[1..] + [c] + b;
      WordStopsAtSpace(a[1..], c, b);
    }
  }

  /** Tokenising splits at whitespace: the tokens of two strings joined by a
      whitespace character are the tokens of each, one after the other. */
  lemma {:induction false} TokensSplit(a: string, c: char, b: string)
    requires IsSpace(c)
    ensures Tokens(a + [c] + b) == Tokens(a) + Tokens(b)
    decreases |a|
  {
    var s := a + [c] + b;
    if a == [] {
      assert s[1..] == b;
    } else if IsSpace(a[0]) {
      assert s[1..] == a[1..] + [c] + b;
      TokensSplit(a[1..], c, b);
    } else {
      var w := Word(s);
      WordStopsAtSpace(a, c, b);
      assert s[|w|..] == a[|w|..] + [c] + b;
      TokensSplit(a[|w|..], c, b);
    }
  }

  /** A field on its own is a single token. */
  lemma {:induction false} TokensOfField(t: string)
    requires IsField(t)
    ensures Tokens(t) == [t]
  {
    WordOfField(t);
    assert t[|t|..] == [];
  }

  lemma {:induction false} WordOfField(t: string)
    requires forall k :: 0 <= k < |t| ==> !IsSpace(t[k])
    ensures Word(t) == t
  {
    if t != [] {
      WordOfField(t[1..]);
    }
  }

  /** A line with nothing but whitespace still yields one record pair, with
      empty file names and no timestamps. */
  lemma {:induction false} BlankLineRecords(line: string)
    requires forall k :: 0 <= k < |line| ==> IsSpace(line[k])
    ensures ParseLine(line) == (FileInfo(None, ""), FileInfo(None, ""))
  {
    BlankLineHasNoTokens(line);
  }

  lemma {:induction false} BlankLineHasNoTokens(line: string)
    requires forall k :: 0 <= k < |line| ==> IsSpace(line[k])
    ensures Tokens(line) == []
  {
    if line != [] {
      BlankLineHasNoTokens(line[1..]);
    }
  }

  /** Tokens after the fourth are ignored. */
  lemma ExtraTokensIgnored(line: string, extra: string)
    requires |Tokens(line)| >= 4
    ensures ParseLine(line + " " + extra) == ParseLine(line)
  {
    TokensSplit(line, ' ', extra);
  }

  predicate Writable(f: FileInfo) {
    f.timeStamp.Some? && IsField(f.timeStamp.value) && IsField(f.fileName)
  }

  /** The manifest line that describes one colour/depth record pair. */
  function FormatLine(rgb: FileInfo, depth: FileInfo): (r: string)
    requires Writable(rgb) && Writable(depth)
  {
    var sp := [' '];
    rgb.timeStamp.value + sp + (rgb.fileName + sp + (depth.timeStamp.value + sp + depth.fileName))
  }

  /** Parsing a formatted line gives back the records it was written from. */
  lemma ParseFormatLine(rgb: FileInfo, depth: FileInfo)
    requires Writable(rgb) && Writable(depth)
    ensures ParseLine(FormatLine(rgb, depth)) == (rgb, depth)
  {
    var t0, t1, t2, t3 := rgb.timeStamp.value, rgb.fileName, depth.timeStamp.value, depth.fileName;
    var tail2 := t2 + [' '] + t3;
    TokensOfField(t2);
    TokensOfField(t3);
    TokensSplit(t2, ' ', t3);
    assert Tokens(tail2) == [t2, t3];
    var tail1 := t1 + [' '] + tail2;
    TokensOfField(t1);
    TokensSplit(t1, ' ', tail2);
    assert Tokens(tail1) == [t1, t2, t3];
    var line := t0 + [' '] + tail1;
    TokensOfField(t0);
    TokensSplit(t0, ' ', tail1);
    assert Tokens(line) == [t0, t1, t2, t3];
    assert FormatLine(rgb, depth) == line;
  }
}
