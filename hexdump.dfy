/**
 * The diagnostic hex/ASCII dump of a frame that could not be decoded.
 *
 * Two implementations exist. The C test tool's `hexDump` walks the buffer
 * by line index and is well behaved. The C++ gateway and test tool share a
 * second one that counts down the bytes still to show; as written, its
 * per-line count is `remaining - perLine` rather than the smaller of the
 * two, and the loop can never bring `remaining` to zero. Both are modelled
 * here: the C version and a corrected C++ version as methods proved equal
 * to one chunking specification, and the C++ version as written, run for a
 * bounded number of passes, with the lemmas that show it never ends.
 */
module HexDump {
  import opened Common
  import opened Printf

  /** `Max_Data_Vals_Per_Line` / `MAX_BLOC`: the widest line allowed. */
  const MaxPerLine: nat := 16

  const UpperDigits: string := "0123456789ABCDEF"
  const LowerDigits: string := "0123456789abcdef"

  /** How a dump is drawn: the digit table, whether a space byte is shown
      as itself, whether lines are labelled by byte offset (the C tool) or
      by line number (the C++ tools), and what is printed after the label
      and after the hex column (`"%04x %s %s"` in C, `"%04x: %s   %s"` in
      C++). */
  datatype Style = Style(upper: bool, spaceShown: bool, labelByOffset: bool, afterLabel: string, afterHex: string)

  const CStyle: Style := Style(false, false, true, " ", " ")
  const CppStyle: Style := Style(true, true, false, ": ", "   ")

  function Digits(style: Style): (t: string)
    ensures |t| == 16
  {
    if style.upper then UpperDigits else LowerDigits
  }

  /** The ASCII column's rendering of one byte: printable bytes as
      themselves, every other byte as `.`. */
  function AsciiChar(style: Style, b: byte): char
  {
    if (if style.spaceShown then 0x20 <= b else 0x20 < b) && b < 0x7F then b as char else '.'
  }

  /** Two hex digits and a space per byte. */
  function HexCells(style: Style, bs: seq<byte>): (s: string)
    ensures |s| == 3 * |bs|
  {
    if bs == [] then ""
    else var b := bs[|bs| - 1];
      HexCells(style, bs[..|bs| - 1]) + [Digits(style)[b / 16], Digits(style)[b % 16], ' ']
  }

  function AsciiCells(style: Style, bs: seq<byte>): (s: string)
    ensures |s| == |bs|
  {
    if bs == [] then "" else AsciiCells(style, bs[..|bs| - 1]) + [AsciiChar(style, bs[|bs| - 1])]
  }

  function Spaces(n: nat): (s: string)
    ensures |s| == n && forall i :: 0 <= i < n ==> s[i] == ' '
  {
    seq(n, _ => ' ')
  }

  /** One line of a dump: the number printed first, the hex column padded
      to the full width, and the ASCII column. */
  datatype DumpLine = DumpLine(address: nat, hex: string, ascii: string)

  /** The text `LOG` prints for a line: the label as `%04x`, the first
      separator, the hex column, the second separator, the ASCII column and
      a newline. */
  function LineText(style: Style, line: DumpLine): string
  {
    FormatHex4(line.address) + style.afterLabel + line.hex + style.afterHex + line.ascii + "\n"
  }

  /** A printed line splits back into its parts: a label of hexadecimal
      digits that reads back as the line's number (four of them below
      0x10000) and is ended by the separator, the hex column after the
      separator, and the ASCII column just before the newline. */
  lemma LineTextReadsBack(style: Style, line: DumpLine)
    requires style == CStyle || style == CppStyle
    ensures var text := LineText(style, line);
      var k := |FormatHex4(line.address)|;
      var h := k + |style.afterLabel|;
      && 4 <= k < |text| && AllHexDigits(text[..k]) && HexValue(text[..k]) == line.address
      && !IsHexDigit(text[k])
      && (line.address < 0x1_0000 ==> k == 4)
      && h + |line.hex| <= |text| && text[h..h + |line.hex|] == line.hex
      && text[|text| - 1 - |line.ascii|..|text| - 1] == line.ascii && text[|text| - 1] == '\n'
  {
    var numeral := FormatHex4(line.address);
    var text := LineText(style, line);
    FormatHex4RoundTrip(line.address);
    assert text == numeral + (style.afterLabel + line.hex + style.afterHex + line.ascii + "\n");
    assert text[..|numeral|] == numeral;
    var h := |numeral| + |style.afterLabel|;
    assert text == (numeral + style.afterLabel) + line.hex + (style.afterHex + line.ascii + "\n");
    assert text == (numeral + style.afterLabel + line.hex + style.afterHex) + line.ascii + "\n";
  }

  /** The line that shows `chunk` under `address` in a dump `b` wide. */
  function LineOf(style: Style, chunk: seq<byte>, address: nat, b: nat): (line: DumpLine)
    ensures line.address == address && |line.ascii| == |chunk|
    ensures |chunk| <= b ==> |line.hex| == 3 * b
  {
    DumpLine(address, HexCells(style, chunk) + Spaces(if |chunk| < b then 3 * (b - |chunk|) else 0),
             AsciiCells(style, chunk))
  }

  /** The hex column spells each byte of the line with the style's digit
      table, high nibble first, each pair followed by a space. */
  lemma {:induction false} HexCellsAt(style: Style, bs: seq<byte>, i: nat)
    requires i < |bs|
    ensures HexCells(style, bs)[3 * i] == Digits(style)[bs[i] / 16]
    ensures HexCells(style, bs)[3 * i + 1] == Digits(style)[bs[i] % 16]
    ensures HexCells(style, bs)[3 * i + 2] == ' '
  {
    if i < |bs| - 1 {
      HexCellsAt(style, bs[..|bs| - 1], i);
    }
  }

  /** The ASCII column shows byte `i` of the line in position `i`. */
  lemma {:induction false} AsciiCellsAt(style: Style, bs: seq<byte>, i: nat)
    requires i < |bs|
    ensures AsciiCells(style, bs)[i] == AsciiChar(style, bs[i])
  {
    if i < |bs| - 1 {
      AsciiCellsAt(style, bs[..|bs| - 1], i);
    }
  }

  // ---------------------------------------------------------------------
  // The specification: a dump is one line per piece of `b` bytes.

  /** The consecutive pieces of `b` bytes that make up `rest`, the last one
      possibly shorter; none for no data. */
  function Chunks(rest: seq<byte>, b: nat): (cs: seq<seq<byte>>)
    requires b > 0
    ensures forall j :: 0 <= j < |cs| ==> 0 < |cs[j]| <= b
    decreases |rest|
  {
    if |rest| == 0 then []
    else if |rest| <= b then [rest]
    else [rest[..b]] + Chunks(rest[b..], b)
  }

  function Concat(ps: seq<seq<byte>>): seq<byte>
  {
    if ps == [] then [] else ps[0] + Concat(ps[1..])
  }

  /** The pieces, in order, are the data: nothing is skipped, repeated or
      reordered. */
  lemma {:induction false} ChunksCoverData(rest: seq<byte>, b: nat)
    requires b > 0
    ensures Concat(Chunks(rest, b)) == rest
    decreases |rest|
  {
    if |rest| > b {
      ChunksCoverData(rest[b..], b);
      assert Chunks(rest, b)[1..] == Chunks(rest[b..], b);
    }
  }

  /** The number of lines a dump of `len` bytes takes. */
  function LineCount(len: nat, b: nat): nat
    requires b > 0
    decreases len
  {
    if len == 0 then 0 else if len <= b then 1 else 1 + LineCount(len - b, b)
  }

  lemma MulSucc(j: nat, b: nat)
    ensures (j + 1) * b == j * b + b
  {
  }

  /** The line count is `len/b` rounded up: `n` lines of `b` bytes hold the
      data, and `n - 1` lines do not. */
  lemma {:induction false} LineCountIsCeiling(len: nat, b: nat)
    requires b > 0
    ensures var n := LineCount(len, b); (len == 0 && n == 0) || (n - 1) * b < len <= n * b
    decreases len
  {
    if len > b {
      LineCountIsCeiling(len - b, b);
      MulSucc(LineCount(len - b, b), b);
    }
  }

  /** Bytes `j*b` up to `(j+1)*b` of `data`, cut short at its end. */
  function Piece(data: seq<byte>, b: nat, j: nat): (p: seq<byte>)
    requires j * b < |data|
    ensures |p| <= b
  {
    data[j * b .. if |data| - j * b < b then |data| else j * b + b]
  }

  /** There are as many pieces as the line count. */
  lemma {:induction false} ChunksCount(rest: seq<byte>, b: nat)
    requires b > 0
    ensures |Chunks(rest, b)| == LineCount(|rest|, b)
    decreases |rest|
  {
    if |rest| > b {
      ChunksCount(rest[b..], b);
    }
  }

  /** Piece `j - 1` of what follows the first piece is piece `j`. */
  lemma PieceOfTail(rest: seq<byte>, b: nat, j: nat)
    requires 0 < b < |rest| && 0 < j && (j - 1) * b < |rest| - b
    ensures j * b < |rest| && Piece(rest[b..], b, j - 1) == Piece(rest, b, j)
  {
    MulSucc(j - 1, b);
  }

  /** Piece `j` is bytes `j*b` up to `(j+1)*b`, cut at the end of the data. */
  lemma {:induction false} ChunksAt(rest: seq<byte>, b: nat, j: nat)
    requires b > 0 && j < |Chunks(rest, b)|
    ensures j * b < |rest| && Chunks(rest, b)[j] == Piece(rest, b, j)
    decreases |rest|
  {
    if j > 0 {
      var tail := rest[b..];
      assert Chunks(rest, b)[j] == Chunks(tail, b)[j - 1];
      ChunksAt(tail, b, j - 1);
      PieceOfTail(rest, b, j);
    }
  }

  /** Where a line of a dump starts and the bytes it shows. */
  datatype Slot = Slot(address: nat, bytes: seq<byte>)

  /** The line a slot is printed as. */
  function Render(style: Style, s: Slot, b: nat): (line: DumpLine)
    ensures line.address == s.address && |line.ascii| == |s.bytes|
    ensures |s.bytes| <= b ==> |line.hex| == 3 * b
  {
    LineOf(style, s.bytes, s.address, b)
  }

  /** The slots of the bytes `rest`, the first of them at byte `start` of
      the frame and on line number `k`. */
  function SlotsFrom(style: Style, rest: seq<byte>, b: nat, k: nat, start: nat): (ss: seq<Slot>)
    requires b > 0
    decreases |rest|
  {
    if |rest| == 0 then []
    else
      var n := if |rest| < b then |rest| else b;
      [Slot(if style.labelByOffset then start else k, rest[..n])] + SlotsFrom(style, rest[n..], b, k + 1, start + b)
  }

  function Slots(style: Style, data: seq<byte>, b: nat): (ss: seq<Slot>)
    requires b > 0
  {
    SlotsFrom(style, data, b, 0, 0)
  }

  /** The reference dump of a frame, `b` bytes per line: every slot
      rendered, in order. */
  function Dump(style: Style, data: seq<byte>, b: nat): (lines: seq<DumpLine>)
    requires b > 0
    ensures |lines| == |Slots(style, data, b)|
  {
    var ss := Slots(style, data, b);
    seq(|ss|, j requires 0 <= j < |ss| => Render(style, ss[j], b))
  }

  /** There is one slot per piece. */
  lemma {:induction false} SlotsFromCount(style: Style, rest: seq<byte>, b: nat, k: nat, start: nat)
    requires b > 0
    ensures |SlotsFrom(style, rest, b, k, start)| == |Chunks(rest, b)|
    decreases |rest|
  {
    if |rest| > 0 {
      var n := if |rest| < b then |rest| else b;
      SlotsFromCount(style, rest[n..], b, k + 1, start + b);
    }
  }

  /** Slot `j` holds piece `j`, labelled by its line number or by the offset
      of its first byte. */
  lemma {:induction false} SlotsFromAt(style: Style, rest: seq<byte>, b: nat, k: nat, start: nat, j: nat)
    requires b > 0 && j < |Chunks(rest, b)|
    ensures j < |SlotsFrom(style, rest, b, k, start)|
    ensures SlotsFrom(style, rest, b, k, start)[j]
        == Slot(if style.labelByOffset then start + j * b else k + j, Chunks(rest, b)[j])
    decreases |rest|
  {
    SlotsFromCount(style, rest, b, k, start);
    if j > 0 {
      var n := if |rest| < b then |rest| else b;
      assert n == b;
      SlotsFromAt(style, rest[n..], b, k + 1, start + b, j - 1);
      MulSucc(j - 1, b);
    }
  }

  /** The shape of every dump: len/b rounded up lines (none for no data);
      line `j` labelled by its line number or byte offset `j*b`, showing
      bytes `j*b` up to `(j+1)*b` in both columns, its hex column `3*b`
      wide. */
  lemma DumpShape(style: Style, data: seq<byte>, b: nat, j: nat)
    requires b > 0
    ensures |Dump(style, data, b)| == LineCount(|data|, b)
    ensures j < |Dump(style, data, b)| ==>
      && j * b < |data|
      && Dump(style, data, b)[j] == LineOf(style, Piece(data, b, j), if style.labelByOffset then j * b else j, b)
      && |Dump(style, data, b)[j].hex| == 3 * b
  {
    SlotsFromCount(style, data, b, 0, 0);
    ChunksCount(data, b);
    if j < |Chunks(data, b)| {
      SlotsFromAt(style, data, b, 0, 0, j);
      ChunksAt(data, b, j);
    }
  }

  /** One line of a dump loop: the slot for the bytes at `pos` comes first,
      then the slots of what follows. */
  lemma SlotsStep(style: Style, data: seq<byte>, b: nat, k: nat, pos: nat)
    requires b > 0 && pos < |data|
    ensures var next := if |data| - pos < b then |data| else pos + b;
      SlotsFrom(style, data[pos..], b, k, pos)
        == [Slot(if style.labelByOffset then pos else k, data[pos..next])]
           + SlotsFrom(style, data[next..], b, k + 1, pos + b)
  {
    var next := if |data| - pos < b then |data| else pos + b;
    assert data[pos..][..next - pos] == data[pos..next];
    assert data[pos..][next - pos..] == data[next..];
  }

  /** The state of a dump loop that has printed `lines`, `k` of them, and
      whose next line starts at byte `offset`: the lines printed are the
      first `k` slots rendered, and the slots left are those of the bytes
      from `offset` on. */
  predicate Progress(style: Style, data: seq<byte>, b: nat, lines: seq<DumpLine>, k: nat, offset: nat)
    requires b > 0
  {
    var slots := Slots(style, data, b);
    && |lines| == k && k <= |slots|
    && (forall j :: 0 <= j < k ==> lines[j] == Render(style, slots[j], b))
    && (offset < |data| ==> slots[k..] == SlotsFrom(style, data[offset..], b, k, offset))
    && (offset >= |data| ==> k == |slots|)
  }

  lemma ProgressStart(style: Style, data: seq<byte>, b: nat)
    requires b > 0
    ensures Progress(style, data, b, [], 0, 0)
  {
  }

  /** Printing the line for the bytes at `offset` keeps the loop's state
      in step with the specification. */
  lemma ProgressStep(style: Style, data: seq<byte>, b: nat, lines: seq<DumpLine>, k: nat, offset: nat, text: DumpLine)
    requires b > 0 && offset < |data| && Progress(style, data, b, lines, k, offset)
    requires var next := if |data| - offset < b then |data| else offset + b;
      text == LineOf(style, data[offset..next], if style.labelByOffset then offset else k, b)
    ensures var next := if |data| - offset < b then |data| else offset + b;
      Progress(style, data, b, lines + [text], k + 1, offset + b)
      && Progress(style, data, b, lines + [text], k + 1, next)
  {
    var slots := Slots(style, data, b);
    SlotsStep(style, data, b, k, offset);
    assert slots[k..][1..] == slots[k + 1..];
  }

  lemma ProgressDone(style: Style, data: seq<byte>, b: nat, lines: seq<DumpLine>, k: nat, offset: nat)
    requires b > 0 && offset >= |data| && Progress(style, data, b, lines, k, offset)
    ensures lines == Dump(style, data, b)
  {
  }

  // ---------------------------------------------------------------------
  // The C tool's dump and the corrected C++ dump.

  /** One pass of the C `hexDump` loop: the hex and ASCII buffers for the
      bytes at `pc`, the hex part padded to `bloc` columns. */
  method HexDumpCLine(chunk: seq<byte>, address: nat, bloc: nat) returns (text: DumpLine)
    requires |chunk| <= bloc
    ensures text == LineOf(CStyle, chunk, address, bloc)
  {
    var hex, asc := "", "";
    var i := 0;
    while i < |chunk|
      invariant 0 <= i <= |chunk|
      invariant hex == HexCells(CStyle, chunk[..i]) && asc == AsciiCells(CStyle, chunk[..i])
    {
      var ch := chunk[i];
      assert chunk[..i + 1][..i] == chunk[..i];
      hex := hex + [LowerDigits[ch / 16], LowerDigits[ch % 16], ' '];
      asc := asc + [if 0x20 < ch < 0x7F then ch as char else '.'];
      i := i + 1;
    }
    assert chunk[..i] == chunk;
    var cells := hex;
    while i < bloc
      invariant |chunk| <= i <= bloc
      invariant hex == cells + Spaces(3 * (i - |chunk|))
    {
      hex := hex + "   ";
      i := i + 1;
    }
    text := DumpLine(address, hex, asc);
  }

  /** The C test tool's `hexDump(desc, addr, len, bloc)`: one line per
      `bloc` bytes (at most `MaxPerLine`), labelled by byte offset. */
  method HexDumpC(data: seq<byte>, bloc: int) returns (lines: seq<DumpLine>)
    requires bloc > 0
    ensures lines == Dump(CStyle, data, if bloc > MaxPerLine then MaxPerLine else bloc)
  {
    lines := [];
    if |data| == 0 {
      return;
    }
    var b: nat := if bloc > MaxPerLine then MaxPerLine else bloc;
    var len := |data|;
    var line: nat := 0;
    var offset: nat := 0;  // `line * bloc`: where `pc` points and the label printed
    ProgressStart(CStyle, data, b);
    // `do { ... } while (line * bloc < len)`: the first test, 0 < len, holds.
    while offset < len
      invariant Progress(CStyle, data, b, lines, line, offset)
      decreases len - offset
    {
      var l := len - offset;
      if l > b {
        l := b;
      }
      var text := HexDumpCLine(data[offset..offset + l], offset, b);
      ProgressStep(CStyle, data, b, lines, line, offset, text);
      lines := lines + [text];
      line := line + 1;
      offset := offset + b;
    }
    ProgressDone(CStyle, data, b, lines, line, offset);
  }

  /** One pass of the C++ `hexDump` loop once its count is chosen: the hex
      and ASCII buffers for the bytes shown, the hex part padded with single
      spaces to `perLine` columns, labelled by line number. */
  method HexDumpCppLine(chunk: seq<byte>, numLines: nat, perLine: nat) returns (text: DumpLine)
    requires |chunk| <= perLine
    ensures text == LineOf(CppStyle, chunk, numLines, perLine)
  {
    var padding := (perLine - |chunk|) * 3;
    var hex, asc := "", "";
    var i := 0;
    while i < |chunk|
      invariant 0 <= i <= |chunk|
      invariant hex == HexCells(CppStyle, chunk[..i]) && asc == AsciiCells(CppStyle, chunk[..i])
    {
      var v := chunk[i];
      assert chunk[..i + 1][..i] == chunk[..i];
      hex := hex + [UpperDigits[v / 16], UpperDigits[v % 16], ' '];
      asc := asc + [if 0x1F < v < 0x7F then v as char else '.'];
      i := i + 1;
    }
    assert chunk[..i] == chunk;
    var cells := hex;
    while padding > 0
      invariant 0 <= padding <= (perLine - |chunk|) * 3
      invariant hex == cells + Spaces((perLine - |chunk|) * 3 - padding)
    {
      hex := hex + " ";
      padding := padding - 1;
    }
    text := DumpLine(numLines, hex, asc);
  }

  /** The C++ `hexDump` with its per-line count corrected to the smaller of
      the bytes remaining and the line width: one line per `width` bytes (at
      most `MaxPerLine`), labelled by line number. */
  method HexDumpFixed(data: seq<byte>, width: nat) returns (lines: seq<DumpLine>)
    requires width > 0
    ensures lines == Dump(CppStyle, data, if width > MaxPerLine then MaxPerLine else width)
  {
    lines := [];
    if |data| == 0 {
      return;
    }
    var perLine: nat := if width > MaxPerLine then MaxPerLine else width;
    var remaining: nat := |data|;
    var pos: nat := 0;
    var numLines: nat := 0;
    ProgressStart(CppStyle, data, perLine);
    while remaining > 0
      invariant pos + remaining == |data|
      invariant Progress(CppStyle, data, perLine, lines, numLines, pos)
      decreases remaining
    {
      var thisLine := if remaining < perLine then remaining else perLine;
      remaining := remaining - thisLine;
      var text := HexDumpCppLine(data[pos..pos + thisLine], numLines, perLine);
      ProgressStep(CppStyle, data, perLine, lines, numLines, pos, text);
      lines := lines + [text];
      numLines := numLines + 1;
      pos := pos + thisLine;
    }
    ProgressDone(CppStyle, data, perLine, lines, numLines, pos);
  }

  // ---------------------------------------------------------------------
  // The C++ `hexDump` as written.

  /** The per-line count as written: `remaining - perLine` in unsigned
      arithmetic, clamped to `perLine`. */
  function AsWrittenCount(remaining: u32, perLine: u32): (n: u32)
    ensures n <= perLine
  {
    var d := SubU32(remaining, perLine);
    if d > perLine then perLine else d
  }

  /** The `n` bytes at `pos` and after in the memory the pointer walks. */
  function Read(memory: nat -> byte, pos: nat, n: nat): (bs: seq<byte>)
    ensures |bs| == n
  {
    seq(n, i requires 0 <= i < n => memory(pos + i))
  }

  /** The slots some passes of the do-while print, and whether it ended. */
  datatype Run = Run(slots: seq<Slot>, finished: bool)

  /** At most `fuel` passes of the do-while from a state with `remaining`
      bytes left, the pointer at `pos` and `numLines` lines printed. */
  function AsWrittenRun(memory: nat -> byte, remaining: u32, perLine: u32, pos: nat, numLines: nat, fuel: nat)
    : (r: Run)
    decreases fuel
  {
    if fuel == 0 then Run([], false)
    else
      var n := AsWrittenCount(remaining, perLine);
      var left := SubU32(remaining, n);
      var slot := Slot(numLines, Read(memory, pos, n));
      if left == 0 then Run([slot], true)
      else
        var rest := AsWrittenRun(memory, left, perLine, pos + n, numLines + 1, fuel - 1);
        Run([slot] + rest.slots, rest.finished)
  }

  /** The C++ `hexDump` as written, stopped after `fuel` passes of its
      do-while: `memory` is what lies at the data pointer and beyond (the
      frame's bytes first), `finished` whether the loop ended by itself.
      The lines printed are the rendered slots of `AsWrittenRun`. */
  method HexDumpAsWritten(memory: nat -> byte, len: u32, width: u32, fuel: nat)
    returns (lines: seq<DumpLine>, finished: bool)
    ensures len == 0 ==> lines == [] && finished
    ensures len > 0 ==>
      var run := AsWrittenRun(memory, len, if width > 16 then 16 else width, 0, 0, fuel);
      && finished == run.finished && |lines| == |run.slots|
      && forall k :: 0 <= k < |lines| ==> lines[k] == Render(CppStyle, run.slots[k], if width > 16 then 16 else width)
  {
    lines, finished := [], true;
    if len == 0 {
      return;
    }
    finished := false;
    var perLine: u32 := if width > 16 then 16 else width;
    var remaining: u32 := len;
    var pos: nat := 0;
    var numLines: nat := 0;
    assert RunProgress(memory, len, perLine, fuel, lines, numLines, remaining, pos, finished);
    while numLines < fuel && !finished
      invariant numLines <= fuel
      invariant RunProgress(memory, len, perLine, fuel, lines, numLines, remaining, pos, finished)
    {
      var thisLine := AsWrittenCount(remaining, perLine);
      var text := HexDumpCppLine(Read(memory, pos, thisLine), numLines, perLine);
      RunStep(memory, len, perLine, fuel, lines, numLines, remaining, pos, text);
      remaining := SubU32(remaining, thisLine);
      lines := lines + [text];
      numLines := numLines + 1;
      pos := pos + thisLine;
      finished := remaining == 0;
    }
    RunDone(memory, len, perLine, fuel, lines, numLines, remaining, pos, finished);
  }

  /** The state of the loop as written after `k` passes: the lines printed
      are the first `k` slots of the whole run rendered, and either the
      loop has ended with them or the rest of the run starts from the
      current count and pointer. */
  predicate RunProgress(memory: nat -> byte, len: u32, perLine: u32, fuel: nat,
                        lines: seq<DumpLine>, k: nat, remaining: u32, pos: nat, finished: bool)
  {
    var run := AsWrittenRun(memory, len, perLine, 0, 0, fuel);
    && k <= fuel && |lines| == k && k <= |run.slots|
    && (forall j :: 0 <= j < k ==> lines[j] == Render(CppStyle, run.slots[j], perLine))
    && (!finished ==>
          var rest := AsWrittenRun(memory, remaining, perLine, pos, k, fuel - k);
          run.slots[k..] == rest.slots && run.finished == rest.finished)
    && (finished ==> run.finished && k == |run.slots|)
  }

  lemma RunStep(memory: nat -> byte, len: u32, perLine: u32, fuel: nat,
                lines: seq<DumpLine>, k: nat, remaining: u32, pos: nat, text: DumpLine)
    requires k < fuel && RunProgress(memory, len, perLine, fuel, lines, k, remaining, pos, false)
    requires text == LineOf(CppStyle, Read(memory, pos, AsWrittenCount(remaining, perLine)), k, perLine)
    ensures var n := AsWrittenCount(remaining, perLine);
      var left := SubU32(remaining, n);
      RunProgress(memory, len, perLine, fuel, lines + [text], k + 1, left, pos + n, left == 0)
  {
    var run := AsWrittenRun(memory, len, perLine, 0, 0, fuel);
    assert run.slots[k..][1..] == run.slots[k + 1..];
  }

  lemma RunDone(memory: nat -> byte, len: u32, perLine: u32, fuel: nat,
                lines: seq<DumpLine>, k: nat, remaining: u32, pos: nat, finished: bool)
    requires RunProgress(memory, len, perLine, fuel, lines, k, remaining, pos, finished)
    requires finished || k == fuel
    ensures var run := AsWrittenRun(memory, len, perLine, 0, 0, fuel);
      && finished == run.finished && |lines| == |run.slots|
      && forall j :: 0 <= j < |lines| ==> lines[j] == Render(CppStyle, run.slots[j], perLine)
  {
  }

  /** The defect: from any non-zero count of bytes left and any width the
      code allows, one pass never leaves zero bytes left. */
  lemma AsWrittenNeverDrains(remaining: u32, perLine: u32)
    requires remaining != 0 && perLine <= MaxPerLine
    ensures SubU32(remaining, AsWrittenCount(remaining, perLine)) != 0
  {
  }

  /** With exactly a line's worth left, a pass shows no byte and changes
      nothing: a frame of 16 bytes dumped 16 per line loops at once. */
  lemma AsWrittenStuckAtWidth(perLine: u32)
    ensures AsWrittenCount(perLine, perLine) == 0
    ensures SubU32(perLine, AsWrittenCount(perLine, perLine)) == perLine
  {
  }

  /** A frame shorter than a line is shown as a full line: the first pass
      reads `perLine` bytes, past the end of the frame. */
  lemma AsWrittenOverreads(len: u32, perLine: u32)
    requires 0 < len < perLine <= MaxPerLine
    ensures AsWrittenCount(len, perLine) == perLine > len
  {
  }

  /** Whatever the data, width and number of passes allowed, the loop as
      written never ends for a non-empty frame: it prints a line on every
      pass, each numbered in order. */
  lemma {:induction false} AsWrittenNeverFinishes(memory: nat -> byte, remaining: u32, perLine: u32,
                                                  pos: nat, numLines: nat, fuel: nat)
    requires remaining != 0 && perLine <= MaxPerLine
    ensures var run := AsWrittenRun(memory, remaining, perLine, pos, numLines, fuel);
      && !run.finished && |run.slots| == fuel
      && forall k :: 0 <= k < fuel ==> run.slots[k].address == numLines + k
    decreases fuel
  {
    if fuel > 0 {
      var n := AsWrittenCount(remaining, perLine);
      AsWrittenNeverDrains(remaining, perLine);
      AsWrittenNeverFinishes(memory, SubU32(remaining, n), perLine, pos + n, numLines + 1, fuel - 1);
    }
  }
}
