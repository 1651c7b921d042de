/**
 * The firmware extractor: the scanner that reads a byte array out of a generated C
 * file, the two binary layouts written from such arrays, and a reader that follows
 * only the offsets stored in the file.
 */
module Firmware {
  import opened Common

  type Byte = n: nat | n < 256

  datatype Error =
    | NotFound      // no declaration of the array
    | NoData
    | WrongSize
    | Unbound       // a Python variable is read that no line has set
    | BadGzip
    | BadSignatures
    | StructError   // struct.pack or struct.unpack refuses its argument

  datatype Result<T> = Ok(value: T) | Err(error: Error)

  // ---------------------------------------------------------------------------
  // Text
  // ---------------------------------------------------------------------------

  predicate StartsWith(s: string, p: string) {
    |p| <= |s| && s[..|p|] == p
  }

  /** p in s, for strings. */
  predicate Contains(s: string, p: string) {
    exists i :: 0 <= i <= |s| && StartsWith(s[i..], p)
  }

  predicate IsDigit(c: char) {
    '0' <= c <= '9'
  }

  predicate IsHex(c: char) {
    IsDigit(c) || 'a' <= c <= 'f'
  }

  function HexValue(c: char): nat
    requires IsHex(c)
  {
    if IsDigit(c) then c as nat - '0' as nat else c as nat - 'a' as nat + 10
  }

  predicate HexToken(s: string) {
    |s| >= 4 && s[0] == '0' && s[1] == 'x' && IsHex(s[2]) && IsHex(s[3])
  }

  function TokenValue(s: string): Byte
    requires HexToken(s)
  {
    16 * HexValue(s[2]) + HexValue(s[3])
  }

  /** The values of all non-overlapping matches of 0x[0-9a-f][0-9a-f]. */
  function FindHex(s: string): seq<Byte> {
    if |s| < 4 then []
    else if HexToken(s) then [TokenValue(s)] + FindHex(s[4..])
    else FindHex(s[1..])
  }

  /** The value of the digits at the front of s, after those that gave acc. */
  function LeadingNumber(s: string, acc: nat): nat {
    if s == [] || !IsDigit(s[0]) then acc
    else LeadingNumber(s[1..], 10 * acc + (s[0] as nat - '0' as nat))
  }

  /** The number in the leftmost match of prefix followed by \d+. */
  function FindNumber(s: string, prefix: string): Option<nat> {
    if StartsWith(s, prefix) && |s| > |prefix| && IsDigit(s[|prefix|]) then Some(LeadingNumber(s[|prefix|..], 0))
    else if s == [] then None
    else FindNumber(s[1..], prefix)
  }

  // ---------------------------------------------------------------------------
  // The scanner
  // ---------------------------------------------------------------------------

  const NO_COMPRESSION := "COMPRESSION: NO"
  const COMPRESSION := "COMPRESSION: YES"
  const DATA_SIZE := "DATA SIZE (bytes): "
  const COMPRESSED_SIZE := "COMPRESSED SIZE (bytes): "
  const DECLARATION := "static BINDATA_CONST NvU8 "
  const END := "};"

  datatype Meta = Meta(compressed: Option<bool>, dataSize: Option<nat>, compressedSize: Option<nat>)

  const NO_META := Meta(None, None, None)

  /** What one line says about the arrays after it. */
  function ReadMeta(m: Meta, line: string): Meta {
    var size := FindNumber(line, DATA_SIZE);
    var csize := FindNumber(line, COMPRESSED_SIZE);
    Meta(if Contains(line, COMPRESSION) then Some(true)
         else if Contains(line, NO_COMPRESSION) then Some(false)
         else m.compressed,
         if size.Some? then size else m.dataSize,
         if csize.Some? then csize else m.compressedSize)
  }

  /** The metadata in force at the first line that declares the array, and the
      number of the line after it. */
  function FindArray(lines: seq<string>, name: string, i: nat, m: Meta): (r: Option<(Meta, nat)>)
    requires i <= |lines|
    ensures r.Some? ==> r.value.1 <= |lines|
    decreases |lines| - i
  {
    if i == |lines| then None
    else
      var m' := ReadMeta(m, lines[i]);
      if Contains(lines[i], DECLARATION + name) then Some((m', i + 1)) else FindArray(lines, name, i + 1, m')
  }

  function ReadData(lines: seq<string>, i: nat): seq<Byte>
    requires i <= |lines|
    decreases |lines| - i
  {
    if i == |lines| || Contains(lines[i], END) then []
    else FindHex(lines[i]) + ReadData(lines, i + 1)
  }

  /** The arrays hold no gzip header; this one is put in front of them. */
  const GZIP_HEADER: seq<Byte> := [0x1f, 0x8b, 8, 0, 0, 0, 0, 0, 0, 3]

  /** The checks after the scan; gunzip is the library's decompression. */
  function Finish(m: Meta, output: seq<Byte>, gunzip: seq<Byte> -> Option<seq<Byte>>): Result<seq<Byte>> {
    if output == [] then Err(NoData)
    else if m.compressed.None? then Err(Unbound)
    else if m.compressed.value then
      if m.compressedSize.None? then Err(Unbound)
      else if m.compressedSize.value != |output| then Err(WrongSize)
      else if gunzip(GZIP_HEADER + output).None? then Err(BadGzip)
      else if m.dataSize.None? then Err(Unbound)
      else if m.dataSize.value != |gunzip(GZIP_HEADER + output).value| then Err(WrongSize)
      else Ok(gunzip(GZIP_HEADER + output).value)
    else if m.dataSize.None? then Err(Unbound)
    else if m.dataSize.value != |output| then
      if m.compressedSize.None? then Err(Unbound) else Err(WrongSize)  // the message names the other size
    else Ok(output)
  }

  function Extract(lines: seq<string>, name: string, gunzip: seq<Byte> -> Option<seq<Byte>>): Result<seq<Byte>> {
    var r := FindArray(lines, name, 0, NO_META);
    if r.None? then Err(NotFound) else Finish(r.value.0, ReadData(lines, r.value.1), gunzip)
  }

  /** The second loop of getbytes, from line first on. */
  method ReadBytes(lines: seq<string>, first: nat) returns (output: seq<Byte>)
    requires first <= |lines|
    ensures output == ReadData(lines, first)
  {
    output := [];
    var i := first;
    while i < |lines| && !Contains(lines[i], END)
      invariant first <= i <= |lines|
      invariant output + ReadData(lines, i) == ReadData(lines, first)
    {
      output := output + FindHex(lines[i]);
      i := i + 1;
    }
  }

  /** getbytes */
  method GetBytes(lines: seq<string>, name: string, gunzip: seq<Byte> -> Option<seq<Byte>>) returns (r: Result<seq<Byte>>)
    ensures r == Extract(lines, name, gunzip)
  {
    var meta := NO_META;
    var i := 0;
    while true
      invariant i <= |lines|
      invariant FindArray(lines, name, 0, NO_META) == FindArray(lines, name, i, meta)
      decreases |lines| - i
    {
      if i == |lines| {
        return Err(NotFound);
      }
      meta := ReadMeta(meta, lines[i]);
      i := i + 1;
      if Contains(lines[i - 1], DECLARATION + name) {
        break;
      }
    }
    var output := ReadBytes(lines, i);
    return Finish(meta, output, gunzip);
  }

  // ---------------------------------------------------------------------------
  // Scanning a printed array
  // ---------------------------------------------------------------------------

  function HexDigit(n: nat): char
    requires n < 16
  {
    if n < 10 then '0' + n as char else 'a' + (n - 10) as char
  }

  function PrintByte(b: Byte): string {
    ['0', 'x', HexDigit(b / 16), HexDigit(b % 16)]
  }

  /** A byte of the initialiser and the text up to the next one. */
  datatype Cell = Cell(value: Byte, separator: string)

  /** A line of the initialiser; one without cells is just text, such as the opening
      brace. */
  datatype Row = Row(prefix: string, cells: seq<Cell>)

  function PrintCells(cells: seq<Cell>): string {
    if cells == [] then [] else PrintByte(cells[0].value) + cells[0].separator + PrintCells(cells[1..])
  }

  function PrintRow(r: Row): string {
    r.prefix + PrintCells(r.cells)
  }

  function Values(cells: seq<Cell>): seq<Byte> {
    if cells == [] then [] else [cells[0].value] + Values(cells[1..])
  }

  function Contents(rows: seq<Row>): seq<Byte> {
    if rows == [] then [] else Values(rows[0].cells) + Contents(rows[1..])
  }

  /** Text between bytes, with rest after it on the line: no token starts in it, and it
      does not end the initialiser. */
  predicate Plain(s: string, rest: string) {
    && (forall i :: 0 <= i < |s| ==> !HexToken(s[i..] + rest))
    && !Contains(s, END)
  }

  predicate PlainCells(cells: seq<Cell>) {
    forall k :: 0 <= k < |cells| ==> Plain(cells[k].separator, PrintCells(cells[k + 1..]))
  }

  predicate PlainRow(r: Row) {
    Plain(r.prefix, PrintCells(r.cells)) && PlainCells(r.cells)
  }

  predicate PlainRows(rows: seq<Row>) {
    forall r :: r in rows ==> PlainRow(r)
  }

  lemma {:induction false} SkipPlain(s: string, rest: string)
    requires forall i :: 0 <= i < |s| ==> !HexToken(s[i..] + rest)
    ensures FindHex(s + rest) == FindHex(rest)
    decreases |s|
  {
    if s == [] {
      assert s + rest == rest;
    } else {
      assert !HexToken(s[0..] + rest) && s[0..] == s;
      assert (s + rest)[1..] == s[1..] + rest;
      forall i | 0 <= i < |s[1..]| ensures !HexToken(s[1..][i..] + rest) {
        assert s[1..][i..] == s[i + 1..];
      }
      SkipPlain(s[1..], rest);
      if |s + rest| < 4 { ShortHasNoHex(rest); }
    }
  }

  lemma ShortHasNoHex(s: string)
    requires |s| < 4
    ensures FindHex(s) == []
  {
  }

  lemma PrintedToken(b: Byte, rest: string)
    ensures HexToken(PrintByte(b) + rest) && TokenValue(PrintByte(b) + rest) == b
  {
    HexDigitValue(b / 16);
    HexDigitValue(b % 16);
  }

  lemma TokenFirst(b: Byte, rest: string)
    ensures FindHex(PrintByte(b) + rest) == [b] + FindHex(rest)
  {
    PrintedToken(b, rest);
    assert (PrintByte(b) + rest)[4..] == rest;
  }

  lemma HexDigitValue(n: nat)
    requires n < 16
    ensures IsHex(HexDigit(n)) && HexValue(HexDigit(n)) == n && HexDigit(n) != '}'
  {
  }

  lemma Regroup(a: string, b: string, c: string)
    ensures a + b + c == a + (b + c)
  {
  }

  lemma PlainTail(cells: seq<Cell>)
    requires PlainCells(cells) && cells != []
    ensures Plain(cells[0].separator, PrintCells(cells[1..])) && PlainCells(cells[1..])
  {
    forall k | 0 <= k < |cells[1..]| ensures Plain(cells[1..][k].separator, PrintCells(cells[1..][k + 1..])) {
      assert cells[1..][k + 1..] == cells[k + 2..];
    }
  }

  lemma {:induction false} CellsRoundTrip(cells: seq<Cell>)
    requires PlainCells(cells)
    ensures FindHex(PrintCells(cells)) == Values(cells)
    decreases |cells|
  {
    if cells != [] {
      var tail := PrintCells(cells[1..]);
      PlainTail(cells);
      Regroup(PrintByte(cells[0].value), cells[0].separator, tail);
      TokenFirst(cells[0].value, cells[0].separator + tail);
      SkipPlain(cells[0].separator, tail);
      CellsRoundTrip(cells[1..]);
    }
  }

  /** A closing brace and a semicolon at i. */
  predicate EndAt(s: string, i: nat) {
    i + 1 < |s| && s[i] == '}' && s[i + 1] == ';'
  }

  lemma EndIsPair(s: string)
    ensures Contains(s, END) <==> exists i: nat :: EndAt(s, i)
  {
    forall i: nat | i <= |s| ensures StartsWith(s[i..], END) <==> EndAt(s, i) {
      if i + 1 < |s| { assert s[i..][..2] == [s[i], s[i + 1]]; }
    }
  }

  /** No initialiser ends in a, in b, or across the two. */
  lemma NoEndAcross(a: string, b: string)
    requires !Contains(a, END) && !Contains(b, END)
    requires b == [] || b[0] != ';' || (a != [] && a[|a| - 1] != '}')
    ensures !Contains(a + b, END)
  {
    EndIsPair(a);
    EndIsPair(b);
    EndIsPair(a + b);
    forall i: nat ensures !EndAt(a + b, i) {
      assert !EndAt(a, i);
      if i >= |a| { assert !EndAt(b, i - |a|); }
    }
  }

  lemma LacksBrace(line: string)
    requires '}' !in line
    ensures !Contains(line, END)
  {
    forall i | 0 <= i <= |line| ensures !StartsWith(line[i..], END) {
      if |line[i..]| > 0 { assert line[i..][0] == line[i]; }
    }
  }

  /** A byte has no brace, so what follows it does not complete the end. */
  lemma NoEndAfterByte(b: Byte, s: string)
    requires !Contains(s, END)
    ensures !Contains(PrintByte(b) + s, END)
  {
    HexDigitValue(b / 16);
    HexDigitValue(b % 16);
    LacksBrace(PrintByte(b));
    NoEndAcross(PrintByte(b), s);
  }

  lemma {:induction false} CellsHaveNoEnd(cells: seq<Cell>)
    requires PlainCells(cells)
    ensures !Contains(PrintCells(cells), END)
    decreases |cells|
  {
    if cells == [] {
      LacksBrace([]);
    } else {
      PlainTail(cells);
      var tail := PrintCells(cells[1..]);
      CellsHaveNoEnd(cells[1..]);
      NoEndAcross(cells[0].separator, tail);
      NoEndAfterByte(cells[0].value, cells[0].separator + tail);
      Regroup(PrintByte(cells[0].value), cells[0].separator, tail);
    }
  }

  /** The tokens found in a printed row are its bytes, and it does not end the array. */
  lemma RowRoundTrip(r: Row)
    requires PlainRow(r)
    ensures FindHex(PrintRow(r)) == Values(r.cells)
    ensures !Contains(PrintRow(r), END)
  {
    CellsHaveNoEnd(r.cells);
    NoEndAcross(r.prefix, PrintCells(r.cells));
    SkipPlain(r.prefix, PrintCells(r.cells));
    CellsRoundTrip(r.cells);
  }

  /** Text without a zero and a brace is plain, whatever follows. */
  lemma HarmlessIsPlain(s: string, rest: string)
    requires '0' !in s && '}' !in s
    ensures Plain(s, rest)
  {
    LacksBrace(s);
    forall i | 0 <= i < |s| ensures !HexToken(s[i..] + rest) {
      assert (s[i..] + rest)[0] == s[i];
    }
  }

  function PrintRows(rows: seq<Row>): (lines: seq<string>)
    ensures |lines| == |rows|
  {
    if rows == [] then [] else [PrintRow(rows[0])] + PrintRows(rows[1..])
  }

  lemma FirstRow(before: seq<string>, row: Row, rest: seq<string>)
    requires PlainRow(row)
    ensures var lines := before + [PrintRow(row)] + rest;
            ReadData(lines, |before|) == Values(row.cells) + ReadData(lines, |before| + 1)
  {
    var lines := before + [PrintRow(row)] + rest;
    assert lines[|before|] == PrintRow(row);
    RowRoundTrip(row);
  }

  /** Reading the printed rows gives their bytes, however they are laid out. */
  lemma {:induction false} DataRoundTrip(before: seq<string>, rows: seq<Row>, after: seq<string>)
    requires PlainRows(rows) && (after == [] || Contains(after[0], END))
    ensures ReadData(before + PrintRows(rows) + after, |before|) == Contents(rows)
    decreases |rows|
  {
    var lines := before + PrintRows(rows) + after;
    if rows == [] {
      if after != [] { assert lines[|before|] == after[0]; }
    } else {
      var first, rest := PrintRow(rows[0]), PrintRows(rows[1..]);
      FirstRow(before, rows[0], rest + after);
      DataRoundTrip(before + [first], rows[1..], after);
      SameLines(before, first, rest, after);
    }
  }

  lemma SameLines(before: seq<string>, first: string, rest: seq<string>, after: seq<string>)
    ensures before + ([first] + rest) + after == before + [first] + (rest + after) == before + [first] + rest + after
  {
  }

  // ---------------------------------------------------------------------------
  // Metadata
  // ---------------------------------------------------------------------------

  function Digit(n: nat): char
    requires n < 10
  {
    '0' + n as char
  }

  /** n in decimal. */
  function PrintNumber(n: nat): string {
    if n < 10 then [Digit(n)] else PrintNumber(n / 10) + [Digit(n % 10)]
  }

  lemma {:induction false} PrintedNumber(n: nat)
    ensures |PrintNumber(n)| > 0 && forall i :: 0 <= i < |PrintNumber(n)| ==> IsDigit(PrintNumber(n)[i])
  {
    if n >= 10 { PrintedNumber(n / 10); }
  }

  predicate AllDigits(s: string) {
    forall i :: 0 <= i < |s| ==> IsDigit(s[i])
  }

  lemma {:induction false} NumberAppend(s: string, c: char, rest: string, acc: nat)
    requires AllDigits(s) && IsDigit(c) && (rest == [] || !IsDigit(rest[0]))
    ensures LeadingNumber(s + [c] + rest, acc) == 10 * LeadingNumber(s, acc) + (c as nat - '0' as nat)
    decreases |s|
  {
    var t := s + [c] + rest;
    if s == [] {
      assert t[1..] == rest;
    } else {
      assert t[1..] == s[1..] + [c] + rest;
      NumberAppend(s[1..], c, rest, 10 * acc + (s[0] as nat - '0' as nat));
    }
  }

  lemma {:induction false} NumberRoundTrip(n: nat, rest: string)
    requires rest == [] || !IsDigit(rest[0])
    ensures LeadingNumber(PrintNumber(n) + rest, 0) == n
  {
    if n < 10 {
      assert (PrintNumber(n) + rest)[1..] == rest;
    } else {
      PrintedNumber(n / 10);
      NumberRoundTrip(n / 10, []);
      assert PrintNumber(n / 10) + [] == PrintNumber(n / 10);
      NumberAppend(PrintNumber(n / 10), Digit(n % 10), rest, 0);
    }
  }

  /** The comment lines that describe an array. */
  datatype HeaderLine =
    | CompressionLine(yes: bool)
    | SizeLine(n: nat)
    | CompressedSizeLine(n: nat)
    | OtherLine(line: string)

  const YES_LINE := "// " + COMPRESSION + "\n"
  const NO_LINE := "// " + NO_COMPRESSION + "\n"

  function PrintLine(h: HeaderLine): string {
    match h
    case CompressionLine(yes) => if yes then YES_LINE else NO_LINE
    case SizeLine(n) => "// " + DATA_SIZE + PrintNumber(n) + "\n"
    case CompressedSizeLine(n) => "// " + COMPRESSED_SIZE + PrintNumber(n) + "\n"
    case OtherLine(line) => line
  }

  /** What a line says. */
  function Meaning(m: Meta, h: HeaderLine): Meta {
    match h
    case CompressionLine(yes) => m.(compressed := Some(yes))
    case SizeLine(n) => m.(dataSize := Some(n))
    case CompressedSizeLine(n) => m.(compressedSize := Some(n))
    case OtherLine(_) => m
  }

  /** A line that says nothing about arrays. */
  predicate Silent(line: string) {
    && !Contains(line, COMPRESSION) && !Contains(line, NO_COMPRESSION)
    && FindNumber(line, DATA_SIZE).None? && FindNumber(line, COMPRESSED_SIZE).None?
  }

  /** A string with a letter is not part of one without it. */
  lemma Lacks(line: string, p: string, k: nat)
    requires k < |p| && p[k] !in line
    ensures !Contains(line, p)
  {
    forall i | 0 <= i <= |line| ensures !StartsWith(line[i..], p) {
      if |p| <= |line[i..]| { assert line[i..][..|p|][k] == line[i + k]; }
    }
  }

  lemma {:induction false} NoNumber(line: string, prefix: string)
    requires !Contains(line, prefix)
    ensures FindNumber(line, prefix).None?
    decreases |line|
  {
    assert line[0..] == line;
    if line != [] {
      forall i | 0 <= i <= |line[1..]| ensures !StartsWith(line[1..][i..], prefix) {
        assert line[1..][i..] == line[i + 1..];
      }
      NoNumber(line[1..], prefix);
    }
  }

  lemma NumbersHaveNoLetters(n: nat, c: char)
    requires !IsDigit(c)
    ensures c !in PrintNumber(n)
  {
    PrintedNumber(n);
  }

  lemma SkipChar(c: char, rest: string, prefix: string)
    requires |prefix| > 0 && c != prefix[0]
    ensures FindNumber([c] + rest, prefix) == FindNumber(rest, prefix)
  {
    assert ([c] + rest)[1..] == rest && ([c] + rest)[0] == c;
  }

  lemma NumberAtFront(prefix: string, n: nat)
    ensures FindNumber(prefix + (PrintNumber(n) + "\n"), prefix) == Some(n)
  {
    var s := prefix + (PrintNumber(n) + "\n");
    PrintedNumber(n);
    NumberRoundTrip(n, "\n");
    assert s[..|prefix|] == prefix && s[|prefix|..] == PrintNumber(n) + "\n";
  }

  lemma NumberIsFound(prefix: string, n: nat)
    requires |prefix| > 0 && prefix[0] != '/' && prefix[0] != ' '
    ensures FindNumber("// " + prefix + PrintNumber(n) + "\n", prefix) == Some(n)
  {
    var tail := prefix + (PrintNumber(n) + "\n");
    NumberAtFront(prefix, n);
    SkipChar(' ', tail, prefix);
    SkipChar('/', [' '] + tail, prefix);
    SkipChar('/', ['/'] + ([' '] + tail), prefix);
    Comment(prefix, PrintNumber(n));
  }

  lemma Comment(a: string, b: string)
    ensures "// " + a + b + "\n" == ['/'] + (['/'] + ([' '] + (a + (b + "\n"))))
  {
  }

  lemma SizeLineMeta(m: Meta, n: nat)
    ensures ReadMeta(m, PrintLine(SizeLine(n))) == Meaning(m, SizeLine(n))
  {
    var line := PrintLine(SizeLine(n));
    NumberIsFound(DATA_SIZE, n);
    NumbersHaveNoLetters(n, 'C');
    Lacks(line, COMPRESSION, 0);
    Lacks(line, NO_COMPRESSION, 0);
    Lacks(line, COMPRESSED_SIZE, 0);
    NoNumber(line, COMPRESSED_SIZE);
  }

  lemma CompressedSizeLetters(n: nat, c: char)
    requires c == 'Y' || c == 'N' || c == 'A'
    ensures c !in PrintLine(CompressedSizeLine(n))
  {
    NumbersHaveNoLetters(n, c);
    assert c !in "// " && c !in COMPRESSED_SIZE && c !in "\n";
  }

  /** A line without the letters Y and N says nothing about compression. */
  lemma SaysNoCompression(line: string)
    requires 'Y' !in line && 'N' !in line
    ensures !Contains(line, COMPRESSION) && !Contains(line, NO_COMPRESSION)
  {
    Lacks(line, COMPRESSION, 13);
    Lacks(line, NO_COMPRESSION, 10);
  }

  lemma SaysNoSize(line: string)
    requires 'A' !in line
    ensures FindNumber(line, DATA_SIZE).None?
  {
    Lacks(line, DATA_SIZE, 1);
    NoNumber(line, DATA_SIZE);
  }

  lemma CompressedSizeLineMeta(m: Meta, n: nat)
    ensures ReadMeta(m, PrintLine(CompressedSizeLine(n))) == Meaning(m, CompressedSizeLine(n))
  {
    NumberIsFound(COMPRESSED_SIZE, n);
    CompressedSizeLetters(n, 'Y');
    CompressedSizeLetters(n, 'N');
    CompressedSizeLetters(n, 'A');
    SaysNoCompression(PrintLine(CompressedSizeLine(n)));
    SaysNoSize(PrintLine(CompressedSizeLine(n)));
  }

  lemma Embedded(p: string)
    ensures Contains("// " + p + "\n", p)
  {
    var line := "// " + p + "\n";
    assert line[3..][..|p|] == p;
    assert StartsWith(line[3..], p);
  }

  lemma SaysNoCompressedSize(line: string)
    requires 'D' !in line
    ensures FindNumber(line, COMPRESSED_SIZE).None?
  {
    Lacks(line, COMPRESSED_SIZE, 9);
    NoNumber(line, COMPRESSED_SIZE);
  }

  lemma NoLineFacts()
    ensures Contains(NO_LINE, NO_COMPRESSION) && 'Y' !in NO_LINE && 'A' !in NO_LINE && 'D' !in NO_LINE
  {
    Embedded(NO_COMPRESSION);
    assert 'Y' !in NO_COMPRESSION && 'A' !in NO_COMPRESSION && 'D' !in NO_COMPRESSION;
  }

  lemma NoLineMeta(m: Meta)
    ensures ReadMeta(m, NO_LINE) == m.(compressed := Some(false))
  {
    NoLineFacts();
    Lacks(NO_LINE, COMPRESSION, 13);
    SaysNoSize(NO_LINE);
    SaysNoCompressedSize(NO_LINE);
  }

  lemma YesLineFacts()
    ensures Contains(YES_LINE, COMPRESSION) && 'A' !in YES_LINE && 'D' !in YES_LINE
  {
    Embedded(COMPRESSION);
    assert 'A' !in COMPRESSION && 'D' !in COMPRESSION;
  }

  lemma YesLineMeta(m: Meta)
    ensures ReadMeta(m, YES_LINE) == m.(compressed := Some(true))
  {
    YesLineFacts();
    SaysNoSize(YES_LINE);
    SaysNoCompressedSize(YES_LINE);
  }

  /** Reading a printed header line gives what it says. */
  lemma LineMeaning(m: Meta, h: HeaderLine)
    requires h.OtherLine? ==> Silent(h.line)
    ensures ReadMeta(m, PrintLine(h)) == Meaning(m, h)
  {
    match h
    case CompressionLine(yes) => if yes { YesLineMeta(m); } else { NoLineMeta(m); }
    case SizeLine(n) => SizeLineMeta(m, n);
    case CompressedSizeLine(n) => CompressedSizeLineMeta(m, n);
    case OtherLine(_) =>
  }

  // ---------------------------------------------------------------------------
  // Scanning a whole file
  // ---------------------------------------------------------------------------

  function ReadAll(m: Meta, lines: seq<string>): Meta
    decreases |lines|
  {
    if lines == [] then m else ReadAll(ReadMeta(m, lines[0]), lines[1..])
  }

  function MeaningAll(m: Meta, header: seq<HeaderLine>): Meta
    decreases |header|
  {
    if header == [] then m else MeaningAll(Meaning(m, header[0]), header[1..])
  }

  function PrintLines(header: seq<HeaderLine>): (lines: seq<string>)
    ensures |lines| == |header| && forall i :: 0 <= i < |header| ==> lines[i] == PrintLine(header[i])
  {
    if header == [] then [] else [PrintLine(header[0])] + PrintLines(header[1..])
  }

  predicate AllSilent(header: seq<HeaderLine>) {
    forall i :: 0 <= i < |header| && header[i].OtherLine? ==> Silent(header[i].line)
  }

  /** A printed header is read as what its lines say, in whatever order they come and
      whatever silent lines are between them. */
  lemma {:induction false} HeaderMeaning(m: Meta, header: seq<HeaderLine>)
    requires AllSilent(header)
    ensures ReadAll(m, PrintLines(header)) == MeaningAll(m, header)
    decreases |header|
  {
    if header != [] {
      LineMeaning(m, header[0]);
      HeaderMeaning(Meaning(m, header[0]), header[1..]);
      assert PrintLines(header)[1..] == PrintLines(header[1..]);
    }
  }

  lemma {:induction false} ReadAllConcat(m: Meta, a: seq<string>, b: seq<string>)
    ensures ReadAll(m, a + b) == ReadAll(ReadAll(m, a), b)
    decreases |a|
  {
    if a == [] {
      assert a + b == b;
    } else {
      assert (a + b)[1..] == a[1..] + b;
      ReadAllConcat(ReadMeta(m, a[0]), a[1..], b);
    }
  }

  ghost predicate Declares(lines: seq<string>, name: string) {
    exists i :: 0 <= i < |lines| && Contains(lines[i], DECLARATION + name)
  }

  /** Lines that do not declare the array only update the metadata. */
  lemma {:induction false} SkipLines(lines: seq<string>, name: string, i: nat, m: Meta, j: nat)
    requires i <= j <= |lines|
    requires forall k :: i <= k < j ==> !Contains(lines[k], DECLARATION + name)
    ensures FindArray(lines, name, i, m) == FindArray(lines, name, j, ReadAll(m, lines[i..j]))
    decreases j - i
  {
    if i < j {
      SkipLines(lines, name, i + 1, ReadMeta(m, lines[i]), j);
      assert lines[i..j][0] == lines[i] && lines[i..j][1..] == lines[i + 1..j];
    }
  }

  lemma Prefix(head: seq<string>, decl: string, rest: seq<string>)
    ensures var lines := head + [decl] + rest; lines[..|head|] == head && lines[|head|] == decl
  {
  }

  /** The scan stops at the first line that declares the array. */
  lemma FindInFile(head: seq<string>, decl: string, rest: seq<string>, name: string)
    requires !Declares(head, name) && Contains(decl, DECLARATION + name) && Silent(decl)
    ensures FindArray(head + [decl] + rest, name, 0, NO_META) == Some((ReadAll(NO_META, head), |head| + 1))
  {
    var lines := head + [decl] + rest;
    Prefix(head, decl, rest);
    forall k | 0 <= k < |head| ensures !Contains(lines[k], DECLARATION + name) {
      assert lines[k] == lines[..|head|][k];
    }
    SkipLines(lines, name, 0, NO_META, |head|);
    assert lines[0..|head|] == lines[..|head|];
    assert ReadMeta(ReadAll(NO_META, head), decl) == ReadAll(NO_META, head);
  }

  lemma Rejoin(a: seq<string>, b: seq<string>, c: seq<string>)
    ensures a + (b + c) == a + b + c
  {
  }

  /** What the scanner makes of a file that holds a printed array, whatever comes before
      and after it: the checks, on what the lines up to the declaration say and on the
      bytes that were printed. */
  lemma ScanIs(head: seq<string>, decl: string, rows: seq<Row>, after: seq<string>, name: string,
               gunzip: seq<Byte> -> Option<seq<Byte>>)
    requires !Declares(head, name) && Contains(decl, DECLARATION + name) && Silent(decl)
    requires PlainRows(rows) && (after == [] || Contains(after[0], END))
    ensures Extract(head + [decl] + PrintRows(rows) + after, name, gunzip) ==
              Finish(ReadAll(NO_META, head), Contents(rows), gunzip)
  {
    FindInFile(head, decl, PrintRows(rows) + after, name);
    Rejoin(head + [decl], PrintRows(rows), after);
    DataRoundTrip(head + [decl], rows, after);
  }

  lemma NoDeclaration(line: string, name: string)
    requires 'a' !in line
    ensures !Contains(line, DECLARATION + name)
  {
    assert (DECLARATION + name)[2] == 'a';
    Lacks(line, DECLARATION + name, 2);
  }

  lemma HeaderLetters(h: HeaderLine)
    requires !h.OtherLine?
    ensures 'a' !in PrintLine(h)
  {
    if !h.CompressionLine? { NumbersHaveNoLetters(h.n, 'a'); }
    assert 'a' !in "// " && 'a' !in "\n" && 'a' !in COMPRESSION && 'a' !in NO_COMPRESSION;
    assert 'a' !in DATA_SIZE && 'a' !in COMPRESSED_SIZE;
  }

  /** No header line declares an array; other lines have to be asked. */
  lemma HeaderDoesNotDeclare(h: HeaderLine, name: string)
    requires h.OtherLine? ==> !Contains(h.line, DECLARATION + name)
    ensures !Contains(PrintLine(h), DECLARATION + name)
  {
    if !h.OtherLine? {
      HeaderLetters(h);
      NoDeclaration(PrintLine(h), name);
    }
  }

  ghost predicate Undeclared(header: seq<HeaderLine>, name: string) {
    forall i :: 0 <= i < |header| && header[i].OtherLine? ==> !Contains(header[i].line, DECLARATION + name)
  }

  lemma HeadDoesNotDeclare(before: seq<string>, header: seq<HeaderLine>, name: string)
    requires !Declares(before, name) && Undeclared(header, name)
    ensures !Declares(before + PrintLines(header), name)
  {
    var head := before + PrintLines(header);
    forall i | 0 <= i < |head| ensures !Contains(head[i], DECLARATION + name) {
      if i < |before| {
        assert head[i] == before[i];
      } else {
        assert head[i] == PrintLine(header[i - |before|]);
        HeaderDoesNotDeclare(header[i - |before|], name);
      }
    }
  }

  /** The lines of a file in which header, declaration and rows follow each other. */
  function PrintFile(before: seq<string>, header: seq<HeaderLine>, decl: string, rows: seq<Row>, after: seq<string>): seq<string> {
    before + PrintLines(header) + [decl] + PrintRows(rows) + after
  }

  /** Scanning a file that holds a printed array: the result depends on what its header
      says (and, for what the header leaves open, the lines before it) and on its bytes,
      and on nothing else. */
  lemma ScanFile(before: seq<string>, header: seq<HeaderLine>, decl: string, rows: seq<Row>, after: seq<string>,
                 name: string, gunzip: seq<Byte> -> Option<seq<Byte>>)
    requires !Declares(before, name) && Undeclared(header, name) && AllSilent(header)
    requires Contains(decl, DECLARATION + name) && Silent(decl)
    requires PlainRows(rows) && (after == [] || Contains(after[0], END))
    ensures Extract(PrintFile(before, header, decl, rows, after), name, gunzip) ==
              Finish(MeaningAll(ReadAll(NO_META, before), header), Contents(rows), gunzip)
  {
    HeadDoesNotDeclare(before, header, name);
    ReadAllConcat(NO_META, before, PrintLines(header));
    HeaderMeaning(ReadAll(NO_META, before), header);
    ScanIs(before + PrintLines(header), decl, rows, after, name, gunzip);
  }

  /** The bytes that an array stands for: those printed, or what they decompress to. */
  function Decoded(compressed: bool, bytes: seq<Byte>, gunzip: seq<Byte> -> Option<seq<Byte>>): Option<seq<Byte>> {
    if compressed then gunzip(GZIP_HEADER + bytes) else Some(bytes)
  }

  /** A file whose header announces the array correctly gives back the array. */
  lemma ScanRoundTrip(before: seq<string>, header: seq<HeaderLine>, decl: string, rows: seq<Row>, after: seq<string>,
                      name: string, gunzip: seq<Byte> -> Option<seq<Byte>>, data: seq<Byte>)
    requires !Declares(before, name) && Undeclared(header, name) && AllSilent(header)
    requires Contains(decl, DECLARATION + name) && Silent(decl)
    requires PlainRows(rows) && (after == [] || Contains(after[0], END)) && Contents(rows) != []
    requires var m := MeaningAll(ReadAll(NO_META, before), header);
             && m.compressed.Some? && m.dataSize == Some(|data|)
             && (m.compressed.value ==> m.compressedSize == Some(|Contents(rows)|))
             && Decoded(m.compressed.value, Contents(rows), gunzip) == Some(data)
    ensures Extract(PrintFile(before, header, decl, rows, after), name, gunzip) == Ok(data)
  {
    ScanFile(before, header, decl, rows, after, name, gunzip);
  }

  // ---------------------------------------------------------------------------
  // The generated files
  // ---------------------------------------------------------------------------

  const STRUCT_LINE := "// COMPLEX_STRUCT: NO\n"
  const NO_SIZE_LINE := "// " + COMPRESSED_SIZE + "N/A\n"
  const SLASHES := "//\n"
  const BRACE := "{\n"

  /** The comment in front of an array: three lines that matter for it, or two, and
      others between and after them. */
  function PlainHeaderOf(size: nat, x: string, y: string, z: string): seq<HeaderLine> {
    [CompressionLine(false), OtherLine(x), SizeLine(size), OtherLine(y), OtherLine(z)]
  }

  function PackedHeaderOf(size: nat, compressedSize: nat, x: string, z: string): seq<HeaderLine> {
    [CompressionLine(true), OtherLine(x), SizeLine(size), CompressedSizeLine(compressedSize), OtherLine(z)]
  }

  function PlainHeader(size: nat): seq<HeaderLine> {
    PlainHeaderOf(size, STRUCT_LINE, NO_SIZE_LINE, SLASHES)
  }

  function PackedHeader(size: nat, compressedSize: nat): seq<HeaderLine> {
    PackedHeaderOf(size, compressedSize, STRUCT_LINE, SLASHES)
  }

  function DeclarationLine(name: string): string {
    DECLARATION + name + "[] = \n"
  }

  /** A line of bytes: indented, separated by commas, the last one ending the line. */
  function DataCells(bytes: seq<Byte>): seq<Cell> {
    if bytes == [] then []
    else [Cell(bytes[0], if |bytes| == 1 then ",\n" else ", ")] + DataCells(bytes[1..])
  }

  function DataRows(lines: seq<seq<Byte>>): seq<Row> {
    if lines == [] then [] else [Row("    ", DataCells(lines[0]))] + DataRows(lines[1..])
  }

  /** The initialiser with its opening brace. */
  function Initialiser(lines: seq<seq<Byte>>): seq<Row> {
    [Row(BRACE, [])] + DataRows(lines)
  }

  function Concat(lines: seq<seq<Byte>>): seq<Byte> {
    if lines == [] then [] else lines[0] + Concat(lines[1..])
  }

  lemma {:induction false} DataCellsSpec(bytes: seq<Byte>)
    ensures Values(DataCells(bytes)) == bytes && PlainCells(DataCells(bytes))
  {
    if bytes != [] {
      DataCellsSpec(bytes[1..]);
      var cells, rest := DataCells(bytes), DataCells(bytes[1..]);
      assert cells[1..] == rest;
      forall k | 0 <= k < |cells| ensures Plain(cells[k].separator, PrintCells(cells[k + 1..])) {
        if k == 0 {
          HarmlessIsPlain(cells[0].separator, PrintCells(cells[1..]));
        } else {
          assert cells[k] == rest[k - 1] && cells[k + 1..] == rest[k..];
        }
      }
    }
  }

  lemma {:induction false} DataRowsSpec(lines: seq<seq<Byte>>)
    ensures Contents(DataRows(lines)) == Concat(lines) && PlainRows(DataRows(lines))
  {
    if lines != [] {
      DataRowsSpec(lines[1..]);
      DataCellsSpec(lines[0]);
      var rest := DataRows(lines[1..]);
      assert DataRows(lines)[1..] == rest;
      HarmlessIsPlain("    ", PrintCells(DataCells(lines[0])));
      forall r | r in DataRows(lines) ensures PlainRow(r) {
        if r != DataRows(lines)[0] { assert r in rest; }
      }
    }
  }

  lemma InitialiserSpec(lines: seq<seq<Byte>>)
    ensures Contents(Initialiser(lines)) == Concat(lines) && PlainRows(Initialiser(lines))
  {
    DataRowsSpec(lines);
    assert Initialiser(lines)[1..] == DataRows(lines);
    HarmlessIsPlain(BRACE, PrintCells([]));
    forall r | r in Initialiser(lines) ensures PlainRow(r) {
      if r != Initialiser(lines)[0] { assert r in DataRows(lines); }
    }
  }

  /** Two letters in a row that the line does not have. */
  lemma LacksPair(line: string, p: string, k: nat)
    requires k + 1 < |p| && forall i :: 0 <= i < |line| - 1 ==> !(line[i] == p[k] && line[i + 1] == p[k + 1])
    ensures !Contains(line, p)
  {
    forall i | 0 <= i <= |line| ensures !StartsWith(line[i..], p) {
      if |p| <= |line[i..]| {
        assert line[i..][..|p|][k] == line[i + k] && line[i..][..|p|][k + 1] == line[i + k + 1];
      }
    }
  }

  lemma {:induction false} NoDigitsNoNumber(line: string, prefix: string)
    requires NoDigits(line)
    ensures FindNumber(line, prefix).None?
    decreases |line|
  {
    if line != [] { NoDigitsNoNumber(line[1..], prefix); }
  }

  lemma SaysNothing(line: string)
    requires 'I' !in line && 'A' !in line && 'D' !in line
    ensures Silent(line)
  {
    Lacks(line, COMPRESSION, 8);
    Lacks(line, NO_COMPRESSION, 8);
    SaysNoSize(line);
    SaysNoCompressedSize(line);
  }

  lemma StructLineLetters(c: char)
    requires c == 'I' || c == 'A' || c == 'D' || c == 'a'
    ensures c !in STRUCT_LINE
  {
  }

  lemma StructLineIsSilent()
    ensures Silent(STRUCT_LINE) && 'a' !in STRUCT_LINE
  {
    StructLineLetters('I');
    StructLineLetters('A');
    StructLineLetters('D');
    StructLineLetters('a');
    SaysNothing(STRUCT_LINE);
  }

  predicate NoDigits(s: string) {
    forall i :: 0 <= i < |s| ==> !IsDigit(s[i])
  }

  lemma CompressedSizeHasNoDigits()
    ensures NoDigits(COMPRESSED_SIZE)
  {
  }

  lemma NoSizeLineDigits()
    ensures NoDigits(NO_SIZE_LINE)
  {
    CompressedSizeHasNoDigits();
    assert NoDigits("// ") && NoDigits("N/A\n");
  }

  /** No O is followed by an N. */
  predicate NoOn(s: string) {
    forall i :: 0 <= i < |s| - 1 ==> !(s[i] == 'O' && s[i + 1] == 'N')
  }

  lemma CompressedSizeHasNoOn()
    ensures NoOn(COMPRESSED_SIZE) && COMPRESSED_SIZE[|COMPRESSED_SIZE| - 1] != 'O'
  {
  }

  lemma NoOnConcat(a: string, b: string)
    requires NoOn(a) && NoOn(b) && (a == [] || a[|a| - 1] != 'O')
    ensures NoOn(a + b)
  {
  }

  lemma NoSizeLineHasNoOn()
    ensures NoOn(NO_SIZE_LINE)
  {
    CompressedSizeHasNoOn();
    assert NoOn("// ") && NoOn("N/A\n");
    NoOnConcat("// ", COMPRESSED_SIZE);
    NoOnConcat("// " + COMPRESSED_SIZE, "N/A\n");
  }

  lemma NoSizeLineLetters(c: char)
    requires c == 'Y' || c == 'a'
    ensures c !in NO_SIZE_LINE
  {
    assert c !in "// " && c !in COMPRESSED_SIZE && c !in "N/A\n";
  }

  lemma SilentByPairs(line: string)
    requires NoOn(line) && NoDigits(line) && 'Y' !in line
    ensures Silent(line)
  {
    Lacks(line, COMPRESSION, 13);
    LacksPair(line, NO_COMPRESSION, 9);
    NoDigitsNoNumber(line, DATA_SIZE);
    NoDigitsNoNumber(line, COMPRESSED_SIZE);
  }

  lemma NoSizeLineIsSilent()
    ensures Silent(NO_SIZE_LINE) && 'a' !in NO_SIZE_LINE
  {
    NoSizeLineHasNoOn();
    NoSizeLineDigits();
    NoSizeLineLetters('Y');
    NoSizeLineLetters('a');
    SilentByPairs(NO_SIZE_LINE);
  }

  lemma NoColonIsSilent(line: string)
    requires ':' !in line
    ensures Silent(line)
  {
    Lacks(line, COMPRESSION, 11);
    Lacks(line, NO_COMPRESSION, 11);
    Lacks(line, DATA_SIZE, 17);
    Lacks(line, COMPRESSED_SIZE, 23);
    NoNumber(line, DATA_SIZE);
    NoNumber(line, COMPRESSED_SIZE);
  }

  lemma DeclarationLineSpec(name: string)
    requires ':' !in name
    ensures Contains(DeclarationLine(name), DECLARATION + name) && Silent(DeclarationLine(name))
  {
    var line := DeclarationLine(name);
    assert line[0..] == line && line[..|DECLARATION + name|] == DECLARATION + name;
    assert StartsWith(line[0..], DECLARATION + name);
    assert ':' !in DECLARATION && ':' !in "[] = \n";
    NoColonIsSilent(line);
  }

  /** A line that says nothing and does not declare the array. */
  ghost predicate Idle(line: string, name: string) {
    Silent(line) && !Contains(line, DECLARATION + name)
  }

  lemma StructLineIsIdle(name: string)
    ensures Idle(STRUCT_LINE, name)
  {
    StructLineIsSilent();
    NoDeclaration(STRUCT_LINE, name);
  }

  lemma NoSizeLineIsIdle(name: string)
    ensures Idle(NO_SIZE_LINE, name)
  {
    NoSizeLineIsSilent();
    NoDeclaration(NO_SIZE_LINE, name);
  }

  lemma SlashesAreIdle(name: string)
    ensures Idle(SLASHES, name)
  {
    NoColonIsSilent(SLASHES);
    NoDeclaration(SLASHES, name);
  }

  /** The lines between the announcements are silent and declare nothing. */
  lemma OtherLinesSpec(name: string)
    ensures Idle(STRUCT_LINE, name) && Idle(NO_SIZE_LINE, name) && Idle(SLASHES, name)
  {
    StructLineIsIdle(name);
    NoSizeLineIsIdle(name);
    SlashesAreIdle(name);
  }

  lemma PlainHeaderOfSpec(size: nat, x: string, y: string, z: string, name: string, m: Meta)
    requires Idle(x, name) && Idle(y, name) && Idle(z, name)
    ensures Undeclared(PlainHeaderOf(size, x, y, z), name) && AllSilent(PlainHeaderOf(size, x, y, z))
    ensures MeaningAll(m, PlainHeaderOf(size, x, y, z)) == Meta(Some(false), Some(size), m.compressedSize)
  {
    FiveLines(m, PlainHeaderOf(size, x, y, z));
  }

  lemma PackedHeaderOfSpec(size: nat, compressedSize: nat, x: string, z: string, name: string, m: Meta)
    requires Idle(x, name) && Idle(z, name)
    ensures Undeclared(PackedHeaderOf(size, compressedSize, x, z), name) && AllSilent(PackedHeaderOf(size, compressedSize, x, z))
    ensures MeaningAll(m, PackedHeaderOf(size, compressedSize, x, z)) == Meta(Some(true), Some(size), Some(compressedSize))
  {
    FiveLines(m, PackedHeaderOf(size, compressedSize, x, z));
  }

  lemma FiveLines(m: Meta, h: seq<HeaderLine>)
    requires |h| == 5
    ensures MeaningAll(m, h) == Meaning(Meaning(Meaning(Meaning(Meaning(m, h[0]), h[1]), h[2]), h[3]), h[4])
  {
    var m1 := Meaning(m, h[0]);
    var m2 := Meaning(m1, h[1]);
    var m3 := Meaning(m2, h[2]);
    var m4 := Meaning(m3, h[3]);
    assert h[1..][1..] == h[2..] && h[2..][1..] == h[3..] && h[3..][1..] == h[4..] && h[4..][1..] == [];
    assert MeaningAll(m, h) == MeaningAll(m1, h[1..]);
    assert MeaningAll(m1, h[1..]) == MeaningAll(m2, h[2..]);
    assert MeaningAll(m2, h[2..]) == MeaningAll(m3, h[3..]);
    assert MeaningAll(m3, h[3..]) == MeaningAll(m4, h[4..]);
    assert MeaningAll(m4, h[4..]) == MeaningAll(Meaning(m4, h[4]), []);
  }

  /** The file that the generator writes around an uncompressed array. */
  function PlainFile(before: seq<string>, name: string, size: nat, lines: seq<seq<Byte>>, after: seq<string>): seq<string> {
    PrintFile(before, PlainHeader(size), DeclarationLine(name), Initialiser(lines), after)
  }

  function PackedFile(before: seq<string>, name: string, size: nat, compressedSize: nat, lines: seq<seq<Byte>>,
                      after: seq<string>): seq<string>
  {
    PrintFile(before, PackedHeader(size, compressedSize), DeclarationLine(name), Initialiser(lines), after)
  }

  /** What the scanner makes of a generated file. */
  lemma PlainFileScan(before: seq<string>, name: string, size: nat, lines: seq<seq<Byte>>, after: seq<string>,
                      gunzip: seq<Byte> -> Option<seq<Byte>>)
    requires !Declares(before, name) && ':' !in name && (after == [] || Contains(after[0], END))
    ensures Extract(PlainFile(before, name, size, lines, after), name, gunzip) ==
              Finish(Meta(Some(false), Some(size), ReadAll(NO_META, before).compressedSize), Concat(lines), gunzip)
  {
    DeclarationLineSpec(name);
    InitialiserSpec(lines);
    OtherLinesSpec(name);
    PlainHeaderOfSpec(size, STRUCT_LINE, NO_SIZE_LINE, SLASHES, name, ReadAll(NO_META, before));
    ScanFile(before, PlainHeader(size), DeclarationLine(name), Initialiser(lines), after, name, gunzip);
  }

  lemma PackedFileScan(before: seq<string>, name: string, size: nat, compressedSize: nat, lines: seq<seq<Byte>>,
                       after: seq<string>, gunzip: seq<Byte> -> Option<seq<Byte>>)
    requires !Declares(before, name) && ':' !in name && (after == [] || Contains(after[0], END))
    ensures Extract(PackedFile(before, name, size, compressedSize, lines, after), name, gunzip) ==
              Finish(Meta(Some(true), Some(size), Some(compressedSize)), Concat(lines), gunzip)
  {
    DeclarationLineSpec(name);
    InitialiserSpec(lines);
    OtherLinesSpec(name);
    PackedHeaderOfSpec(size, compressedSize, STRUCT_LINE, SLASHES, name, ReadAll(NO_META, before));
    ScanFile(before, PackedHeader(size, compressedSize), DeclarationLine(name), Initialiser(lines), after, name, gunzip);
  }

  /** The layout of the generated files is an instance: an uncompressed array comes back
      as its bytes, a compressed one as what they decompress to. */
  lemma GeneratedFiles(before: seq<string>, name: string, lines: seq<seq<Byte>>, after: seq<string>,
                       gunzip: seq<Byte> -> Option<seq<Byte>>, data: seq<Byte>)
    requires !Declares(before, name) && ':' !in name && Concat(lines) != []
    requires after == [] || Contains(after[0], END)
    ensures Extract(PlainFile(before, name, |Concat(lines)|, lines, after), name, gunzip) == Ok(Concat(lines))
    ensures gunzip(GZIP_HEADER + Concat(lines)) == Some(data) ==>
              Extract(PackedFile(before, name, |data|, |Concat(lines)|, lines, after), name, gunzip) == Ok(data)
  {
    PlainFileScan(before, name, |Concat(lines)|, lines, after, gunzip);
    PackedFileScan(before, name, |data|, |Concat(lines)|, lines, after, gunzip);
  }

  /** The text itself: two hexadecimal digits for a byte, and the comment, declaration
      and rows as they stand in the generated files. */
  lemma ByteText(b: Byte)
    ensures PrintByte(b) == ['0', 'x', "0123456789abcdef"[b / 16], "0123456789abcdef"[b % 16]]
  {
    DigitText(b / 16);
    DigitText(b % 16);
  }

  lemma DigitText(n: nat)
    requires n < 16
    ensures HexDigit(n) == "0123456789abcdef"[n]
  {
  }

  /** What counts as a token, and its value: lower-case digits only. */
  lemma TokenText(s: string)
    ensures HexToken(s) <==> |s| >= 4 && s[..2] == "0x" && s[2] in "0123456789abcdef" && s[3] in "0123456789abcdef"
    ensures HexToken(s) ==> TokenValue(s) < 256 && s[..4] == PrintByte(TokenValue(s))
  {
    if |s| >= 4 {
      HexText(s[2]);
      HexText(s[3]);
      assert s[..2] == [s[0], s[1]];
    }
    if HexToken(s) {
      assert s[..4] == [s[0], s[1], s[2], s[3]];
    }
  }

  lemma HexText(c: char)
    ensures IsHex(c) <==> c in "0123456789abcdef"
    ensures IsHex(c) ==> HexValue(c) < 16 && HexDigit(HexValue(c)) == c
  {
    assert |"0123456789abcdef"| == 16;
    if IsHex(c) { assert "0123456789abcdef"[HexValue(c)] == c; }
  }

  lemma NumberText()
    ensures PrintNumber(36) == "36" && PrintNumber(27) == "27" && PrintNumber(1024) == "1024"
  {
    assert PrintNumber(3) == "3" && PrintNumber(2) == "2";
    assert PrintNumber(1) == "1";
    assert PrintNumber(10) == "10";
    assert PrintNumber(102) == "102";
  }

  lemma HeaderText(n: nat)
    ensures PrintLine(CompressionLine(true)) == "// " + "COMPRESSION: YES" + "\n"
    ensures PrintLine(CompressionLine(false)) == "// " + "COMPRESSION: NO" + "\n"
    ensures PrintLine(SizeLine(n)) == "// " + "DATA SIZE (bytes): " + PrintNumber(n) + "\n"
    ensures PrintLine(CompressedSizeLine(n)) == "// " + "COMPRESSED SIZE (bytes): " + PrintNumber(n) + "\n"
  {
  }

  lemma DeclarationText(name: string)
    ensures DeclarationLine(name) == "static BINDATA_CONST NvU8 " + name + "[] = \n"
  {
  }

  lemma RowText(a: Byte, b: Byte)
    ensures PrintRow(DataRows([[a, b]])[0]) == "    " + PrintByte(a) + ", " + PrintByte(b) + ",\n"
  {
    assert [a, b][1..] == [b] && [b][1..] == [];
    assert DataCells([b]) == [Cell(b, ",\n")] + DataCells([]);
    var cells := DataCells([a, b]);
    assert cells == [Cell(a, ", ")] + [Cell(b, ",\n")];
    assert cells[1..] == [Cell(b, ",\n")] && cells[1..][1..] == [];
    assert PrintCells(cells[1..]) == PrintByte(b) + ",\n";
  }

  // ---------------------------------------------------------------------------
  // Which files are accepted
  // ---------------------------------------------------------------------------

  lemma {:induction false} FoundIff(lines: seq<string>, name: string, i: nat, m: Meta)
    requires i <= |lines|
    ensures FindArray(lines, name, i, m).Some? <==>
              exists j :: i <= j < |lines| && Contains(lines[j], DECLARATION + name)
    decreases |lines| - i
  {
    if i < |lines| && !Contains(lines[i], DECLARATION + name) {
      FoundIff(lines, name, i + 1, ReadMeta(m, lines[i]));
    }
  }

  /** An array is accepted exactly if it is declared and has data, its size is the one
      announced, and, if it is compressed, so is its compressed size; everything else is
      an error, and a missing or empty array is one of its own kind. */
  lemma ExtractIff(lines: seq<string>, name: string, gunzip: seq<Byte> -> Option<seq<Byte>>, data: seq<Byte>)
    ensures Extract(lines, name, gunzip) == Err(NotFound) <==>
              forall j :: 0 <= j < |lines| ==> !Contains(lines[j], "static BINDATA_CONST NvU8 " + name)
    ensures var r := FindArray(lines, name, 0, NO_META);
            r.Some? ==>
              var (m, output) := (r.value.0, ReadData(lines, r.value.1));
              && (Extract(lines, name, gunzip) == Err(NoData) <==> output == [])
              && (Extract(lines, name, gunzip) == Ok(data) <==>
                    output != [] &&
                    (|| (m.compressed == Some(false) && m.dataSize == Some(|output|) && data == output)
                     || (m.compressed == Some(true) && m.compressedSize == Some(|output|) && m.dataSize == Some(|data|)
                         && gunzip([0x1f, 0x8b, 8, 0, 0, 0, 0, 0, 0, 3] + output) == Some(data))))
  {
    FoundIff(lines, name, 0, NO_META);
  }

  /** A compressed array of the wrong compressed size is refused as such, and so is one
      that decompresses to another size than announced. */
  lemma WrongPackedSize(before: seq<string>, name: string, size: nat, compressedSize: nat, lines: seq<seq<Byte>>,
                        after: seq<string>, gunzip: seq<Byte> -> Option<seq<Byte>>, data: seq<Byte>)
    requires !Declares(before, name) && ':' !in name && Concat(lines) != []
    requires after == [] || Contains(after[0], END)
    ensures compressedSize != |Concat(lines)| ==>
              Extract(PackedFile(before, name, size, compressedSize, lines, after), name, gunzip) == Err(WrongSize)
    ensures compressedSize == |Concat(lines)| && gunzip(GZIP_HEADER + Concat(lines)) == Some(data) && size != |data| ==>
              Extract(PackedFile(before, name, size, compressedSize, lines, after), name, gunzip) == Err(WrongSize)
  {
    PackedFileScan(before, name, size, compressedSize, lines, after, gunzip);
  }

  // ---------------------------------------------------------------------------
  // Variables that no line has set
  // ---------------------------------------------------------------------------

  /** The variables that the checks read, given what the lines say. */
  predicate ReadsUnset(m: Meta, output: seq<Byte>, gunzip: seq<Byte> -> Option<seq<Byte>>) {
    || m.compressed.None?
    || (m.compressed == Some(true) && m.compressedSize.None?)
    || (m.compressed == Some(true) && m.compressedSize == Some(|output|) && gunzip(GZIP_HEADER + output).Some? && m.dataSize.None?)
    || (m.compressed == Some(false) && m.dataSize.None?)
    || (m.compressed == Some(false) && m.dataSize != Some(|output|) && m.compressedSize.None?)
  }

  /** The scanner fails on an unset variable exactly if the array is declared and has
      data, and its checks read a variable that no line up to the declaration has set. */
  lemma UnboundIff(lines: seq<string>, name: string, gunzip: seq<Byte> -> Option<seq<Byte>>)
    ensures Extract(lines, name, gunzip) == Err(Unbound) <==>
              var r := FindArray(lines, name, 0, NO_META);
              && r.Some? && ReadData(lines, r.value.1) != []
              && ReadsUnset(r.value.0, ReadData(lines, r.value.1), gunzip)
  {
  }

  predicate GivesCompressedSize(line: string) {
    FindNumber(line, COMPRESSED_SIZE).Some?
  }

  /** A compressed size is known exactly if some line gives one. */
  lemma {:induction false} CompressedSizeKnown(m: Meta, lines: seq<string>)
    ensures ReadAll(m, lines).compressedSize.Some? <==>
              m.compressedSize.Some? || exists i :: 0 <= i < |lines| && GivesCompressedSize(lines[i])
    decreases |lines|
  {
    if lines != [] {
      var rest := lines[1..];
      CompressedSizeKnown(ReadMeta(m, lines[0]), rest);
      assert ReadMeta(m, lines[0]).compressedSize.Some? <==> m.compressedSize.Some? || GivesCompressedSize(lines[0]);
      if i :| 0 <= i < |rest| && GivesCompressedSize(rest[i]) {
        assert GivesCompressedSize(lines[i + 1]);
      }
      if i :| 0 <= i < |lines| && GivesCompressedSize(lines[i]) && i > 0 {
        assert GivesCompressedSize(rest[i - 1]);
      }
    }
  }

  /** In a generated file, an uncompressed array of the wrong size is reported as such
      if and only if an earlier line happens to give a compressed size; otherwise the
      report itself fails. */
  lemma WrongSizeReport(before: seq<string>, name: string, size: nat, lines: seq<seq<Byte>>, after: seq<string>,
                        gunzip: seq<Byte> -> Option<seq<Byte>>)
    requires !Declares(before, name) && ':' !in name && Concat(lines) != [] && size != |Concat(lines)|
    requires after == [] || Contains(after[0], END)
    ensures Extract(PlainFile(before, name, size, lines, after), name, gunzip) ==
              Err(if exists i :: 0 <= i < |before| && GivesCompressedSize(before[i]) then WrongSize else Unbound)
  {
    PlainFileScan(before, name, size, lines, after, gunzip);
    CompressedSizeKnown(NO_META, before);
  }

  /** For instance, a file that announces two bytes and holds one. */
  lemma WrongSizeIsUnbound(gunzip: seq<Byte> -> Option<seq<Byte>>)
    ensures Extract(PlainFile([], "image", 2, [[7]], []), "image", gunzip) == Err(Unbound)
  {
    assert Concat([[7]]) == [7];
    WrongSizeReport([], "image", 2, [[7]], [], gunzip);
  }

  // ---------------------------------------------------------------------------
  // Little-endian words
  // ---------------------------------------------------------------------------

  const WORD := 0x1_0000_0000

  function Pack(x: nat): seq<Byte>
    requires x < WORD
  {
    var y := x / 256;
    var z := y / 256;
    [x % 256, y % 256, z % 256, z / 256]
  }

  predicate Words(xs: seq<nat>) {
    forall i :: 0 <= i < |xs| ==> xs[i] < WORD
  }

  /** struct.pack("<nL", ...) */
  function PackAll(xs: seq<nat>): (r: seq<Byte>)
    requires Words(xs)
    ensures |r| == 4 * |xs|
  {
    if xs == [] then [] else Pack(xs[0]) + PackAll(xs[1..])
  }

  function Unpack(b: seq<Byte>): (x: nat)
    requires |b| == 4
    ensures x < WORD
  {
    var b0: nat, b1: nat, b2: nat, b3: nat := b[0], b[1], b[2], b[3];
    b0 + 256 * (b1 + 256 * (b2 + 256 * b3))
  }

  /** struct.unpack("<nL", ...) */
  function UnpackAll(b: seq<Byte>): (xs: seq<nat>)
    requires |b| % 4 == 0
    ensures Words(xs) && |xs| == |b| / 4
  {
    if b == [] then [] else [Unpack(b[..4])] + UnpackAll(b[4..])
  }

  lemma PackRoundTrip(x: nat)
    requires x < WORD
    ensures Unpack(Pack(x)) == x
  {
  }

  lemma {:induction false} WordsRoundTrip(xs: seq<nat>)
    requires Words(xs)
    ensures UnpackAll(PackAll(xs)) == xs
    decreases |xs|
  {
    if xs != [] {
      PackRoundTrip(xs[0]);
      WordsRoundTrip(xs[1..]);
      assert PackAll(xs)[..4] == Pack(xs[0]) && PackAll(xs)[4..] == PackAll(xs[1..]);
    }
  }

  lemma LowByte(a: nat, r: nat)
    requires a < 256
    ensures (a + 256 * r) % 256 == a && (a + 256 * r) / 256 == r
  {
  }

  lemma UnpackRoundTrip(b: seq<Byte>)
    requires |b| == 4
    ensures Pack(Unpack(b)) == b
  {
    var b0: nat, b1: nat, b2: nat, b3: nat := b[0], b[1], b[2], b[3];
    LowByte(b0, b1 + 256 * (b2 + 256 * b3));
    LowByte(b1, b2 + 256 * b3);
    LowByte(b2, b3);
  }

  lemma {:induction false} BytesRoundTrip(b: seq<Byte>)
    requires |b| % 4 == 0
    ensures PackAll(UnpackAll(b)) == b
    decreases |b|
  {
    if b != [] {
      UnpackRoundTrip(b[..4]);
      BytesRoundTrip(b[4..]);
      assert UnpackAll(b)[1..] == UnpackAll(b[4..]);
      assert b == b[..4] + b[4..];
    }
  }

  /** Byte i of a packed word is its i-th digit to base 256, the lowest first. */
  lemma PackedBytes(x: nat)
    requires x < WORD
    ensures |Pack(x)| == 4 && Pack(x)[0] == x % 256 && Pack(x)[1] == x / 256 % 256
    ensures Pack(x)[2] == x / 65536 % 256 && Pack(x)[3] == x / 16777216 % 256
  {
  }

  /** The word at an offset of the file is x, lowest byte first. */
  predicate WordIs(file: seq<Byte>, at: nat, x: nat) {
    && at + 4 <= |file|
    && var b0: nat, b1: nat, b2: nat, b3: nat := file[at], file[at + 1], file[at + 2], file[at + 3];
       b0 + 256 * b1 + 65536 * b2 + 16777216 * b3 == x
  }

  lemma {:induction false} PackedAt(xs: seq<nat>, j: nat)
    requires Words(xs) && j < |xs|
    ensures PackAll(xs)[4 * j..4 * j + 4] == Pack(xs[j])
    decreases j
  {
    if j > 0 {
      PackedAt(xs[1..], j - 1);
      assert PackAll(xs)[4 * j..4 * j + 4] == PackAll(xs[1..])[4 * (j - 1)..4 * (j - 1) + 4];
    }
  }

  /** A word of a file that holds packed words. */
  lemma WordInFile(before: seq<Byte>, xs: seq<nat>, after: seq<Byte>, j: nat)
    requires Words(xs) && j < |xs|
    ensures var file, at := before + PackAll(xs) + after, |before| + 4 * j;
            at + 4 <= |file| && file[at..at + 4] == Pack(xs[j]) && WordIs(file, at, xs[j])
  {
    PackedAt(xs, j);
    var file, at := before + PackAll(xs) + after, |before| + 4 * j;
    var b := file[at..at + 4];
    assert b == PackAll(xs)[4 * j..4 * j + 4];
    PackRoundTrip(xs[j]);
    assert b[0] == file[at] && b[1] == file[at + 1] && b[2] == file[at + 2] && b[3] == file[at + 3];
  }

  /** round_up_to_base */
  function RoundUp(x: int, base: int): int
    requires base > 0
  {
    x + (base - x) % base
  }

  /** The least multiple of base that is not below x. */
  lemma RoundUpIsLeast(x: int, base: int, y: int)
    requires base > 0
    ensures x <= RoundUp(x, base) < x + base && RoundUp(x, base) % base == 0
    ensures x <= y && y % base == 0 ==> RoundUp(x, base) <= y
  {
    var n := 1 - (base - x) / base;
    assert RoundUp(x, base) == base * n;
    MultipleOf(n, base);
    if x <= y <= base * n && y % base == 0 {
      SmallMultiple(n - y / base, base);
    }
  }

  lemma LargeMultiple(d: int, base: int)
    requires base > 0 && d != 0
    ensures base * d < 0 || base * d >= base
  {
    if d > 0 {
      AtLeastOnce(base, d);
    } else {
      AtLeastOnce(base, -d);
      assert base * d == -(base * -d);
    }
  }

  lemma {:induction false} AtLeastOnce(base: int, d: int)
    requires base > 0 && d > 0
    ensures base * d >= base
    decreases d
  {
    if d > 1 {
      AtLeastOnce(base, d - 1);
      assert base * d == base * (d - 1) + base;
    }
  }

  lemma SmallMultiple(d: int, base: int)
    requires base > 0 && 0 <= base * d < base
    ensures d == 0
  {
    if d != 0 { LargeMultiple(d, base); }
  }

  lemma MultipleOf(n: int, base: int)
    requires base > 0
    ensures (base * n) % base == 0
  {
    var q := base * n / base;
    assert base * (n - q) == base * n % base;
    SmallMultiple(n - q, base);
  }

  // ---------------------------------------------------------------------------
  // The layouts
  // ---------------------------------------------------------------------------

  const VENDOR := 0x10de

  /** bootloader: header, descriptor, image. */
  function Bootloader(firmware: seq<Byte>, descriptor: seq<Byte>): Result<seq<Byte>> {
    var total := RoundUp(24 + |firmware| + |descriptor|, 256);
    var header := [VENDOR, 1, total, 24, 24 + |descriptor|, |firmware|];
    RoundUpIsLeast(24 + |firmware| + |descriptor|, 256, 0);
    if total >= WORD then Err(StructError)
    else Ok(PackAll(header) + descriptor + firmware)
  }

  /** The arrays that a booter or scrubber image is made of. */
  datatype Parts = Parts(firmware: seq<Byte>, signatures: seq<Byte>, patchLoc: seq<Byte>, patchMeta: seq<Byte>,
                         descriptor: seq<Byte>)

  function BinHeader(p: Parts): seq<nat> {
    var sigs, total := |p.signatures|, RoundUp(120 + |p.signatures| + |p.firmware|, 256);
    RoundUpIsLeast(120 + |p.signatures| + |p.firmware|, 256, 0);
    [VENDOR, 1, total, 24, 120 + sigs, |p.firmware|]
  }

  function HsHeader(p: Parts): seq<nat> {
    var sigs := |p.signatures|;
    var patchLoc := 60 + sigs;
    var patchSig := patchLoc + 4;
    var metaData := patchSig + 4;
    var numSig := metaData + 12;
    [60, sigs, patchLoc, patchSig, metaData, 12, numSig, numSig + 4, 36]
  }

  /** Why the writer refuses the arrays, if it does. */
  function Refusal(p: Parts, sigsize: nat): Option<Error>
    requires sigsize > 0
  {
    if |p.signatures| % sigsize != 0 || |p.signatures| / sigsize < 1 then Some(BadSignatures)
    else if !Words(BinHeader(p)) || !Words(HsHeader(p)) then Some(StructError)
    else if |p.patchLoc| != 4 || |p.patchMeta| != 12 then Some(StructError)
    else None
  }

  function PatchWords(p: Parts, sigsize: nat): seq<nat>
    requires sigsize > 0 && Refusal(p, sigsize).None?
  {
    UnpackAll(p.patchLoc) + [0] + UnpackAll(p.patchMeta) + [|p.signatures| / sigsize]
  }

  lemma NumSigsFit(p: Parts, sigsize: nat)
    requires sigsize > 0 && Refusal(p, sigsize).None?
    ensures Words(PatchWords(p, sigsize)) && |PatchWords(p, sigsize)| == 6
  {
    assert HsHeader(p)[1] < WORD;
    DivShrinks(|p.signatures|, sigsize);
  }

  lemma DivShrinks(n: nat, d: nat)
    requires d > 0
    ensures n / d <= n
  {
    var q := n / d;
    assert n == q * d + n % d;
    if q > 0 { AtLeastOnce(q, d); }
  }

  /** booter and scrubber: headers, signatures, patch words, descriptor, image. */
  function Booter(p: Parts, sigsize: nat): Result<seq<Byte>>
    requires sigsize > 0
  {
    var e := Refusal(p, sigsize);
    if e.Some? then Err(e.value)
    else
      NumSigsFit(p, sigsize);
      Ok(PackAll(BinHeader(p)) + PackAll(HsHeader(p)) + p.signatures + PackAll(PatchWords(p, sigsize))
         + p.descriptor + p.firmware)
  }

  // ---------------------------------------------------------------------------
  // A reader that follows the stored offsets
  // ---------------------------------------------------------------------------

  function Slice(file: seq<Byte>, offset: nat, size: nat): Option<seq<Byte>> {
    if offset + size <= |file| then Some(file[offset..offset + size]) else None
  }

  function WordsAt(file: seq<Byte>, offset: nat, n: nat): (r: Option<seq<nat>>)
    ensures r.Some? ==> |r.value| == n
  {
    var b := Slice(file, offset, 4 * n);
    if b.None? then None else Some(UnpackAll(b.value))
  }

  datatype Image = Image(firmware: seq<Byte>, signatures: seq<Byte>, patchLoc: seq<nat>, patchSig: seq<nat>,
                         meta: seq<nat>, numSigs: seq<nat>, descriptor: seq<Byte>)

  /** Reads an image, knowing only where the first header is and what its words and
      those of the second header mean. */
  function ReadBooter(file: seq<Byte>): Option<Image> {
    var h := WordsAt(file, 0, 6);
    if h.None? || h.value[0] != VENDOR || h.value[1] != 1 then None
    else
      var hs := WordsAt(file, h.value[3], 9);
      if hs.None? then None else ReadParts(file, h.value, hs.value)
  }

  function ReadParts(file: seq<Byte>, h: seq<nat>, hs: seq<nat>): Option<Image>
    requires |h| == 6 && |hs| == 9
  {
    var firmware := Slice(file, h[4], h[5]);
    var signatures := Slice(file, hs[0], hs[1]);
    var patchLoc := WordsAt(file, hs[2], 1);
    var patchSig := WordsAt(file, hs[3], 1);
    var meta := WordsAt(file, hs[4], hs[5] / 4);
    var numSigs := WordsAt(file, hs[6], 1);
    var descriptor := Slice(file, hs[7], hs[8]);
    if firmware.None? || signatures.None? || patchLoc.None? || patchSig.None? || meta.None? || numSigs.None?
       || descriptor.None? then None
    else Some(Image(firmware.value, signatures.value, patchLoc.value, patchSig.value, meta.value, numSigs.value,
                    descriptor.value))
  }

  /** What a reader should get out of an image made of p. */
  function Expected(p: Parts, sigsize: nat): Image
    requires sigsize > 0 && Refusal(p, sigsize).None?
  {
    Image(p.firmware, p.signatures, UnpackAll(p.patchLoc), [0], UnpackAll(p.patchMeta), [|p.signatures| / sigsize],
          p.descriptor)
  }

  lemma PieceAt(before: seq<Byte>, piece: seq<Byte>, after: seq<Byte>)
    ensures Slice(before + piece + after, |before|, |piece|) == Some(piece)
  {
    assert (before + piece + after)[|before|..|before| + |piece|] == piece;
  }

  lemma WordsPieceAt(before: seq<Byte>, xs: seq<nat>, after: seq<Byte>)
    requires Words(xs)
    ensures WordsAt(before + PackAll(xs) + after, |before|, |xs|) == Some(xs)
  {
    PieceAt(before, PackAll(xs), after);
    WordsRoundTrip(xs);
  }

  lemma {:induction false} UnpackDrop(b: seq<Byte>, k: nat)
    requires |b| % 4 == 0 && k <= |b| / 4
    ensures UnpackAll(b[4 * k..]) == UnpackAll(b)[k..]
    decreases k
  {
    if k > 0 {
      UnpackDrop(b[4..], k - 1);
      assert b[4..][4 * (k - 1)..] == b[4 * k..];
      assert UnpackAll(b)[k..] == UnpackAll(b[4..])[k - 1..];
    }
  }

  lemma {:induction false} UnpackTake(b: seq<Byte>, n: nat)
    requires |b| % 4 == 0 && n <= |b| / 4
    ensures UnpackAll(b[..4 * n]) == UnpackAll(b)[..n]
    decreases n
  {
    if n > 0 {
      UnpackTake(b[4..], n - 1);
      var c := b[..4 * n];
      assert c[..4] == b[..4] && c[4..] == b[4..][..4 * (n - 1)];
      assert UnpackAll(b)[..n] == [Unpack(b[..4])] + UnpackAll(b[4..])[..n - 1];
    }
  }

  lemma SliceOfSlice(file: seq<Byte>, offset: nat, n: nat, lo: nat, size: nat)
    requires offset + n <= |file| && lo + size <= n
    ensures file[offset..offset + n][lo..][..size] == file[offset + lo..offset + lo + size]
  {
  }

  /** Words within a run of words. */
  lemma SubWords(file: seq<Byte>, offset: nat, xs: seq<nat>, k: nat, n: nat)
    requires WordsAt(file, offset, |xs|) == Some(xs) && k + n <= |xs|
    ensures WordsAt(file, offset + 4 * k, n) == Some(xs[k..k + n])
  {
    var b := file[offset..offset + 4 * |xs|];
    var lo, size := 4 * k, 4 * n;
    UnpackDrop(b, k);
    UnpackTake(b[lo..], n);
    SliceOfSlice(file, offset, 4 * |xs|, lo, size);
    assert xs[k..][..n] == xs[k..k + n];
  }

  /** The file, piece by piece. */
  lemma BooterPieces(p: Parts, sigsize: nat)
    requires sigsize > 0 && Refusal(p, sigsize).None?
    ensures var file, sigs := Booter(p, sigsize).value, |p.signatures|;
            && |file| == 84 + sigs + |p.descriptor| + |p.firmware|
            && WordsAt(file, 0, 6) == Some(BinHeader(p))
            && WordsAt(file, 24, 9) == Some(HsHeader(p))
            && Slice(file, 60, sigs) == Some(p.signatures)
            && WordsAt(file, 60 + sigs, 6) == Some(PatchWords(p, sigsize))
            && Slice(file, 84 + sigs, |p.descriptor|) == Some(p.descriptor)
            && Slice(file, 84 + sigs + |p.descriptor|, |p.firmware|) == Some(p.firmware)
  {
    NumSigsFit(p, sigsize);
    var a, b, c := PackAll(BinHeader(p)), PackAll(HsHeader(p)), PackAll(PatchWords(p, sigsize));
    CutSix(a, b, p.signatures, c, p.descriptor, p.firmware);
    WordsRoundTrip(BinHeader(p));
    WordsRoundTrip(HsHeader(p));
    WordsRoundTrip(PatchWords(p, sigsize));
  }

  lemma CutThree(before: seq<Byte>, a: seq<Byte>, b: seq<Byte>, c: seq<Byte>)
    ensures var file := before + a + b + c;
            && Slice(file, |before|, |a|) == Some(a)
            && Slice(file, |before| + |a|, |b|) == Some(b)
            && Slice(file, |before| + |a| + |b|, |c|) == Some(c)
  {
    var file := before + a + b + c;
    PieceAt(before, a, b + c);
    assert before + a + (b + c) == file;
    PieceAt(before + a, b, c);
    PieceAt(before + a + b, c, []);
    assert before + a + b + c + [] == file;
  }

  lemma CutSix(a: seq<Byte>, b: seq<Byte>, c: seq<Byte>, d: seq<Byte>, e: seq<Byte>, f: seq<Byte>)
    ensures var file := a + b + c + d + e + f;
            && Slice(file, 0, |a|) == Some(a)
            && Slice(file, |a|, |b|) == Some(b)
            && Slice(file, |a| + |b|, |c|) == Some(c)
            && Slice(file, |a| + |b| + |c|, |d|) == Some(d)
            && Slice(file, |a| + |b| + |c| + |d|, |e|) == Some(e)
            && Slice(file, |a| + |b| + |c| + |d| + |e|, |f|) == Some(f)
  {
    CutThree(a + b + c, d, e, f);
    CutThree([], a, b, c);
    assert [] + a + b + c == a + b + c;
    SliceOfPrefix(a + b + c, d + e + f, 0, |a|);
    SliceOfPrefix(a + b + c, d + e + f, |a|, |b|);
    SliceOfPrefix(a + b + c, d + e + f, |a| + |b|, |c|);
    assert a + b + c + (d + e + f) == a + b + c + d + e + f;
  }

  lemma SliceOfPrefix(file: seq<Byte>, after: seq<Byte>, offset: nat, size: nat)
    requires offset + size <= |file|
    ensures Slice(file + after, offset, size) == Slice(file, offset, size)
  {
    assert (file + after)[offset..offset + size] == file[offset..offset + size];
  }

  /** The words between signatures and descriptor, one by one. */
  lemma PatchPieces(p: Parts, sigsize: nat)
    requires sigsize > 0 && Refusal(p, sigsize).None?
    ensures var file, at := Booter(p, sigsize).value, 60 + |p.signatures|;
            && WordsAt(file, at, 1) == Some(UnpackAll(p.patchLoc))
            && WordsAt(file, at + 4, 1) == Some([0])
            && WordsAt(file, at + 8, 3) == Some(UnpackAll(p.patchMeta))
            && WordsAt(file, at + 20, 1) == Some([|p.signatures| / sigsize])
  {
    BooterPieces(p, sigsize);
    var file, at, xs := Booter(p, sigsize).value, 60 + |p.signatures|, PatchWords(p, sigsize);
    SubWords(file, at, xs, 0, 1);
    SubWords(file, at, xs, 1, 1);
    SubWords(file, at, xs, 2, 3);
    SubWords(file, at, xs, 5, 1);
    assert xs[0..1] == UnpackAll(p.patchLoc) && xs[1..2] == [0] && xs[2..5] == UnpackAll(p.patchMeta);
    assert xs[5..6] == [|p.signatures| / sigsize];
  }

  /** Following the stored offsets gives back every array, exactly if the descriptor
      has the 36 bytes that the headers say it has. */
  lemma BooterRoundTrip(p: Parts, sigsize: nat)
    requires sigsize > 0 && Refusal(p, sigsize).None?
    ensures ReadBooter(Booter(p, sigsize).value) == Some(Expected(p, sigsize)) <==> |p.descriptor| == 36
  {
    BooterPieces(p, sigsize);
    PatchPieces(p, sigsize);
    var file := Booter(p, sigsize).value;
    assert ReadBooter(file) == ReadParts(file, BinHeader(p), HsHeader(p));
  }

  /** The writer fails exactly on uneven or missing signatures, on patch arrays of the
      wrong length, and on images whose rounded size needs more than 32 bits. */
  lemma BooterAccepts(p: Parts, sigsize: nat)
    requires sigsize > 0
    ensures Booter(p, sigsize).Ok? <==>
              && |p.signatures| > 0 && |p.signatures| % sigsize == 0
              && RoundUp(120 + |p.signatures| + |p.firmware|, 256) < WORD
              && |p.patchLoc| == 4 && |p.patchMeta| == 12
  {
    RoundUpIsLeast(120 + |p.signatures| + |p.firmware|, 256, 0);
    var n := |p.signatures|;
    if n % sigsize == 0 {
      assert n == (n / sigsize) * sigsize;
    }
    assert BinHeader(p)[2] == RoundUp(120 + |p.signatures| + |p.firmware|, 256);
  }

  predicate IsMultiple(y: int) {
    y % 256 == 0
  }

  /** total is the least multiple of 256 that covers n bytes. */
  ghost predicate LeastCover(total: nat, n: nat) {
    n <= total && IsMultiple(total) && forall y: nat :: n <= y && IsMultiple(y) ==> total <= y
  }

  /** The bytes between the end of an image with a 36-byte descriptor and its rounded
      size. */
  function Slack(p: Parts): nat {
    (256 - (120 + |p.signatures| + |p.firmware|)) % 256
  }

  lemma LeastCoverIff(total: nat, n: nat)
    requires IsMultiple(total)
    ensures LeastCover(total, n) <==> total - 256 < n <= total
  {
    if n + 256 <= total { assert IsMultiple(total - 256); }
  }

  /** The stored total size covers the file exactly if the descriptor is not longer than
      36 bytes and the slack; it is the least multiple of 256 that does exactly if the
      descriptor is not so short either that a smaller one would do. */
  lemma BooterTotal(p: Parts, sigsize: nat)
    requires sigsize > 0 && Refusal(p, sigsize).None?
    ensures var file := Booter(p, sigsize).value;
            && WordsAt(file, 0, 6).Some?
            && (var total := WordsAt(file, 0, 6).value[2];
                && (|file| <= total <==> |p.descriptor| <= 36 + Slack(p))
                && (LeastCover(total, |file|) <==> Slack(p) < |p.descriptor| + 220 <= 256 + Slack(p)))
  {
    BooterPieces(p, sigsize);
    RoundUpIsLeast(120 + |p.signatures| + |p.firmware|, 256, 0);
    LeastCoverIff(BinHeader(p)[2], |Booter(p, sigsize).value|);
  }

  lemma TruncatedIsUnreadable(p: Parts)
    requires Words(BinHeader(p)) && Words(HsHeader(p))
    ensures ReadBooter(PackAll(BinHeader(p)) + PackAll(HsHeader(p)) + p.signatures).None?
  {
    var a, b := PackAll(BinHeader(p)), PackAll(HsHeader(p));
    var file := a + b + p.signatures;
    WordsPieceAt([], BinHeader(p), b + p.signatures);
    assert [] + a + (b + p.signatures) == file;
    WordsPieceAt(a, HsHeader(p), p.signatures);
    assert ReadBooter(file) == ReadParts(file, BinHeader(p), HsHeader(p));
  }

  /** booter and scrubber as sequences of writes.  When one of them fails, what is in
      the file by then is not a readable image. */
  method WriteBooter(p: Parts, sigsize: nat) returns (file: seq<Byte>, error: Option<Error>)
    requires sigsize > 0
    ensures error.None? ==> Booter(p, sigsize) == Ok(file)
    ensures error.Some? ==> Booter(p, sigsize) == Err(error.value) && ReadBooter(file).None?
  {
    file := [];
    if |p.signatures| % sigsize != 0 {
      return file, Some(BadSignatures);
    }
    var numSigs := |p.signatures| / sigsize;
    if numSigs < 1 {
      return file, Some(BadSignatures);
    }
    if !Words(BinHeader(p)) {
      return file, Some(StructError);
    }
    file := file + PackAll(BinHeader(p));
    HsHeaderFits(p);
    file := file + PackAll(HsHeader(p));
    file := file + p.signatures;
    assert file == PackAll(BinHeader(p)) + PackAll(HsHeader(p)) + p.signatures;
    TruncatedIsUnreadable(p);
    if |p.patchLoc| != 4 || |p.patchMeta| != 12 {
      return file, Some(StructError);
    }
    NumSigsFit(p, sigsize);
    file := file + PackAll(UnpackAll(p.patchLoc) + [0] + UnpackAll(p.patchMeta) + [numSigs]);
    file := file + p.descriptor;
    file := file + p.firmware;
    error := None;
  }

  lemma HsHeaderFits(p: Parts)
    requires Words(BinHeader(p))
    ensures Words(HsHeader(p))
  {
    assert BinHeader(p)[4] < WORD;
  }

  /** The bootloader's reader: the descriptor lies between the header and the image. */
  function ReadBootloader(file: seq<Byte>): Option<(seq<Byte>, seq<Byte>)> {
    var h := WordsAt(file, 0, 6);
    if h.None? || h.value[0] != VENDOR || h.value[1] != 1 || h.value[4] < h.value[3] then None
    else
      var descriptor, firmware := Slice(file, h.value[3], h.value[4] - h.value[3]), Slice(file, h.value[4], h.value[5]);
      if descriptor.None? || firmware.None? then None else Some((firmware.value, descriptor.value))
  }

  /** The bootloader is written unless its rounded size needs more than 32 bits; both
      arrays come back, and the total size is the least multiple of 256 that covers
      the file. */
  lemma BootloaderRoundTrip(firmware: seq<Byte>, descriptor: seq<Byte>, y: int)
    ensures Bootloader(firmware, descriptor).Err? <==> RoundUp(24 + |firmware| + |descriptor|, 256) >= WORD
    ensures Bootloader(firmware, descriptor).Ok? ==>
              var file := Bootloader(firmware, descriptor).value;
              && ReadBootloader(file) == Some((firmware, descriptor))
              && |file| <= WordsAt(file, 0, 6).value[2] && WordsAt(file, 0, 6).value[2] % 256 == 0
              && (|file| <= y && y % 256 == 0 ==> WordsAt(file, 0, 6).value[2] <= y)
  {
    var total := RoundUp(24 + |firmware| + |descriptor|, 256);
    RoundUpIsLeast(24 + |firmware| + |descriptor|, 256, y);
    if total < WORD {
      var header := [VENDOR, 1, total, 24, 24 + |descriptor|, |firmware|];
      var file := PackAll(header) + descriptor + firmware;
      WordsPieceAt([], header, descriptor + firmware);
      assert [] + PackAll(header) + (descriptor + firmware) == file;
      PieceAt(PackAll(header), descriptor, firmware);
      PieceAt(PackAll(header) + descriptor, firmware, []);
      assert PackAll(header) + descriptor + firmware + [] == file;
    }
  }

  // ---------------------------------------------------------------------------
  // The files, byte by byte
  // ---------------------------------------------------------------------------

  /** The file starts with the vendor and the version. */
  predicate StartsRight(file: seq<Byte>) {
    |file| >= 24 && file[..8] == [0xde, 0x10, 0, 0, 1, 0, 0, 0]
  }

  lemma HeaderBytes(header: seq<nat>, after: seq<Byte>)
    requires Words(header) && |header| == 6 && header[0] == 0x10de && header[1] == 1
    ensures var file := PackAll(header) + after;
            StartsRight(file) && forall j :: 2 <= j < 6 ==> WordIs(file, 4 * j, header[j])
  {
    var file := PackAll(header) + after;
    assert [] + PackAll(header) + after == file;
    forall j | 0 <= j < 6 ensures WordIs(file, 4 * j, header[j]) && file[4 * j..4 * j + 4] == Pack(header[j]) {
      WordInFile([], header, after, j);
    }
    assert file[..8] == file[0..4] + file[4..8];
    assert Pack(0x10de) == [0xde, 0x10, 0, 0] && Pack(1) == [1, 0, 0, 0];
  }

  /** A bootloader file: vendor, version, the least total size, the offset of the
      descriptor, offset and size of the image, the descriptor and the image. */
  lemma BootloaderBytes(firmware: seq<Byte>, descriptor: seq<Byte>)
    requires Bootloader(firmware, descriptor).Ok?
    ensures var file := Bootloader(firmware, descriptor).value;
            && StartsRight(file)
            && (exists total: nat :: WordIs(file, 8, total) && LeastCover(total, |file|))
            && WordIs(file, 12, 24) && WordIs(file, 16, 24 + |descriptor|) && WordIs(file, 20, |firmware|)
            && file[24..] == descriptor + firmware
  {
    var n := 24 + |firmware| + |descriptor|;
    var total := RoundUp(n, 256);
    RoundUpIsLeast(n, 256, 0);
    LeastCoverIff(total, n);
    var header := [VENDOR, 1, total, 24, 24 + |descriptor|, |firmware|];
    HeaderBytes(header, descriptor + firmware);
    var file := Bootloader(firmware, descriptor).value;
    assert file == PackAll(header) + (descriptor + firmware);
    assert WordIs(file, 4 * 2, header[2]) && WordIs(file, 4 * 3, header[3]);
    assert WordIs(file, 4 * 4, header[4]) && WordIs(file, 4 * 5, header[5]);
    assert WordIs(file, 8, total);
  }

  /** The words of the second header of a booter file. */
  lemma HsBytes(p: Parts, sigsize: nat)
    requires sigsize > 0 && Refusal(p, sigsize).None?
    ensures var file, sigs := Booter(p, sigsize).value, |p.signatures|;
            && WordIs(file, 24, 60) && WordIs(file, 28, sigs) && WordIs(file, 32, 60 + sigs)
            && WordIs(file, 36, 64 + sigs) && WordIs(file, 40, 68 + sigs) && WordIs(file, 44, 12)
            && WordIs(file, 48, 80 + sigs) && WordIs(file, 52, 84 + sigs) && WordIs(file, 56, 36)
  {
    NumSigsFit(p, sigsize);
    var a, hs, file := PackAll(BinHeader(p)), HsHeader(p), Booter(p, sigsize).value;
    var rest := p.signatures + PackAll(PatchWords(p, sigsize)) + p.descriptor + p.firmware;
    assert file == a + PackAll(hs) + rest;
    forall j | 0 <= j < 9 ensures WordIs(file, 24 + 4 * j, hs[j]) { WordInFile(a, hs, rest, j); }
    assert WordIs(file, 24 + 4 * 0, hs[0]) && WordIs(file, 24 + 4 * 1, hs[1]) && WordIs(file, 24 + 4 * 2, hs[2]);
    assert WordIs(file, 24 + 4 * 3, hs[3]) && WordIs(file, 24 + 4 * 4, hs[4]) && WordIs(file, 24 + 4 * 5, hs[5]);
    assert WordIs(file, 24 + 4 * 6, hs[6]) && WordIs(file, 24 + 4 * 7, hs[7]) && WordIs(file, 24 + 4 * 8, hs[8]);
  }

  lemma BinBytes(p: Parts, sigsize: nat)
    requires sigsize > 0 && Refusal(p, sigsize).None?
    ensures var file, sigs := Booter(p, sigsize).value, |p.signatures|;
            && StartsRight(file)
            && (exists total: nat :: WordIs(file, 8, total) && LeastCover(total, 120 + sigs + |p.firmware|))
            && WordIs(file, 12, 24) && WordIs(file, 16, 120 + sigs) && WordIs(file, 20, |p.firmware|)
  {
    NumSigsFit(p, sigsize);
    var header, file := BinHeader(p), Booter(p, sigsize).value;
    var rest := PackAll(HsHeader(p)) + p.signatures + PackAll(PatchWords(p, sigsize)) + p.descriptor + p.firmware;
    assert file == PackAll(header) + rest;
    HeaderBytes(header, rest);
    RoundUpIsLeast(120 + |p.signatures| + |p.firmware|, 256, 0);
    LeastCoverIff(header[2], 120 + |p.signatures| + |p.firmware|);
    assert WordIs(file, 4 * 2, header[2]) && WordIs(file, 4 * 3, header[3]);
    assert WordIs(file, 4 * 4, header[4]) && WordIs(file, 4 * 5, header[5]);
    assert WordIs(file, 8, header[2]);
  }

  lemma PatchBytes(p: Parts, sigsize: nat)
    requires sigsize > 0 && Refusal(p, sigsize).None?
    ensures Words(PatchWords(p, sigsize)) && |p.signatures| / sigsize < WORD
    ensures PackAll(PatchWords(p, sigsize)) ==
              p.patchLoc + [0, 0, 0, 0] + p.patchMeta + Pack(|p.signatures| / sigsize)
  {
    NumSigsFit(p, sigsize);
    var n := |p.signatures| / sigsize;
    assert PatchWords(p, sigsize)[5] == n;
    var loc, meta := UnpackAll(p.patchLoc), UnpackAll(p.patchMeta);
    PackConcat(loc, [0]);
    PackConcat(loc + [0], meta);
    PackConcat(loc + [0] + meta, [n]);
    BytesRoundTrip(p.patchLoc);
    BytesRoundTrip(p.patchMeta);
    assert PackAll([0]) == [0, 0, 0, 0] && PackAll([n]) == Pack(n);
  }

  lemma {:induction false} PackConcat(a: seq<nat>, b: seq<nat>)
    requires Words(a) && Words(b)
    ensures Words(a + b) && PackAll(a + b) == PackAll(a) + PackAll(b)
    decreases |a|
  {
    if a == [] {
      assert a + b == b;
    } else {
      PackConcat(a[1..], b);
      assert (a + b)[1..] == a[1..] + b;
    }
  }

  /** A booter file, behind its headers: the signatures, the patch location, four zero
      bytes, the metadata, the number of signatures, the descriptor and the image. */
  lemma BooterBytes(p: Parts, sigsize: nat)
    requires sigsize > 0 && Refusal(p, sigsize).None?
    ensures var file, sigs := Booter(p, sigsize).value, |p.signatures|;
            && |file| == 84 + sigs + |p.descriptor| + |p.firmware|
            && file[60..80 + sigs] == p.signatures + p.patchLoc + [0, 0, 0, 0] + p.patchMeta
            && WordIs(file, 80 + sigs, sigs / sigsize)
            && file[84 + sigs..] == p.descriptor + p.firmware
  {
    PatchBytes(p, sigsize);
    var n, file := |p.signatures| / sigsize, Booter(p, sigsize).value;
    var head := PackAll(BinHeader(p)) + PackAll(HsHeader(p));
    var mid := p.signatures + p.patchLoc + [0, 0, 0, 0] + p.patchMeta;
    var tail := p.descriptor + p.firmware;
    assert PackAll([n]) == Pack(n);
    assert file == head + mid + PackAll([n]) + tail;
    WordInFile(head + mid, [n], tail, 0);
  }
}
