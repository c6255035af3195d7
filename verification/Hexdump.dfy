/**
 The hexdump tool: the writer of `hexdump`, `print_offset`, `print_data` and `print_ascii`, and a
 reader for what it writes, which recovers the bytes and the offsets from the text alone.
 */
module Hexdump {
  import opened Common

  datatype Options = Options(
    width: nat, grouping: nat, showOffset: bool, showAscii: bool, decimalOffset: bool, binary: bool)

  /** The ranges parse_arguments enforces. */
  predicate ValidOptions(o: Options) {
    1 <= o.width <= 255 && o.grouping in {1, 2, 4, 8}
  }

  // -------------------------------------------------------------------- numerals

  function DigitChar(d: nat): (c: char)
    requires d < 16
    ensures c != ' ' && c != '\n' && c != ':'
  {
    "0123456789ABCDEF"[d]
  }

  function DigitValue(c: char): nat {
    if '0' <= c <= '9' then c as int - '0' as int
    else if 'A' <= c <= 'F' then c as int - 'A' as int + 10
    else 0
  }

  lemma DigitRoundTrip(d: nat)
    requires d < 16
    ensures DigitValue(DigitChar(d)) == d
  {
  }

  /** The bases in use: binary and hexadecimal data, decimal and hexadecimal offsets. */
  datatype Base = Binary | Decimal | Hexadecimal

  function Times(v: nat, base: Base): nat {
    match base
    case Binary => 2 * v
    case Decimal => 10 * v
    case Hexadecimal => 16 * v
  }

  function Rest(v: nat, base: Base): (q: nat)
    ensures q <= v && (v > 0 ==> q < v)
  {
    match base
    case Binary => v / 2
    case Decimal => v / 10
    case Hexadecimal => v / 16
  }

  function Last(v: nat, base: Base): (d: nat)
    ensures d < 16 && Times(Rest(v, base), base) + d == v
  {
    match base
    case Binary => v % 2
    case Decimal => v % 10
    case Hexadecimal => v % 16
  }

  /** The value a numeral denotes, most significant digit first. */
  function Value(s: string, base: Base): nat {
    if s == "" then 0 else Times(Value(s[..|s| - 1], base), base) + DigitValue(s[|s| - 1])
  }

  /** v shifted right by n digits. */
  function Shift(v: nat, base: Base, n: nat): nat
  {
    if n == 0 then v else Shift(Rest(v, base), base, n - 1)
  }

  /** The last n digits of v. */
  function Digits(v: nat, base: Base, n: nat): (s: string)
    ensures |s| == n
  {
    if n == 0 then "" else Digits(Rest(v, base), base, n - 1) + [DigitChar(Last(v, base))]
  }

  /** Made of digits only, so without blanks, newlines and colons. */
  ghost predicate Plain(s: string) {
    forall i :: 0 <= i < |s| ==> s[i] != ' ' && s[i] != '\n' && s[i] != ':'
  }

  lemma {:induction false} DigitsPlain(v: nat, base: Base, n: nat)
    ensures Plain(Digits(v, base, n))
  {
    if n > 0 {
      DigitsPlain(Rest(v, base), base, n - 1);
    }
  }

  /** A numeral with one more digit. */
  lemma ValueSnoc(s: string, d: nat, base: Base)
    requires d < 16
    ensures Value(s + [DigitChar(d)], base) == Times(Value(s, base), base) + d
  {
    DigitRoundTrip(d);
    assert (s + [DigitChar(d)])[..|s|] == s;
  }

  lemma {:induction false} DigitsValue(v: nat, base: Base, n: nat)
    requires Shift(v, base, n) == 0
    ensures Value(Digits(v, base, n), base) == v
  {
    if n > 0 {
      DigitsValue(Rest(v, base), base, n - 1);
      ValueSnoc(Digits(Rest(v, base), base, n - 1), Last(v, base), base);
    }
  }

  lemma {:induction false} ShiftNext(v: nat, base: Base, n: nat)
    ensures Shift(v, base, n + 1) == Rest(Shift(v, base, n), base)
  {
    if n > 0 {
      ShiftNext(Rest(v, base), base, n - 1);
    }
  }

  /** All digits of v, without leading zeros. */
  function Numeral(v: nat, base: Base): (s: string)
    ensures |s| >= 1
  {
    if Rest(v, base) == 0 then [DigitChar(Last(v, base))] else Numeral(Rest(v, base), base) + [DigitChar(Last(v, base))]
  }

  /** printf's %08: leading zeros up to 8 places, more places when the number needs them. */
  function ZeroPad(s: string): (r: string)
    ensures |r| >= 8
    decreases 8 - |s|
  {
    if |s| >= 8 then s else ZeroPad("0" + s)
  }

  lemma {:induction false} NumeralValue(v: nat, base: Base)
    ensures Value(Numeral(v, base), base) == v
  {
    if Rest(v, base) == 0 {
      ValueSnoc("", Last(v, base), base);
    } else {
      NumeralValue(Rest(v, base), base);
      ValueSnoc(Numeral(Rest(v, base), base), Last(v, base), base);
    }
  }

  lemma {:induction false} NumeralPlain(v: nat, base: Base)
    ensures Plain(Numeral(v, base))
  {
    if Rest(v, base) != 0 {
      NumeralPlain(Rest(v, base), base);
    }
  }

  lemma {:induction false} ZeroPadPlain(s: string)
    requires Plain(s)
    ensures Plain(ZeroPad(s))
    decreases 8 - |s|
  {
    if |s| < 8 {
      ZeroPadPlain("0" + s);
    }
  }

  lemma {:induction false} LeadingZero(s: string, base: Base)
    ensures Value("0" + s, base) == Value(s, base)
  {
    var t := "0" + s;
    if s == "" {
      assert t[..0] == "";
    } else {
      LeadingZero(s[..|s| - 1], base);
      assert t[..|t| - 1] == "0" + s[..|s| - 1];
    }
  }

  lemma {:induction false} ZeroPadValue(s: string, base: Base)
    ensures Value(ZeroPad(s), base) == Value(s, base)
    decreases 8 - |s|
  {
    if |s| < 8 {
      LeadingZero(s, base);
      ZeroPadValue("0" + s, base);
    }
  }

  // ------------------------------------------------------------------ the writer

  function OffsetBase(o: Options): Base {
    if o.decimalOffset then Decimal else Hexadecimal
  }

  function DataBase(o: Options): Base {
    if o.binary then Binary else Hexadecimal
  }

  /** Characters per byte. */
  function Places(o: Options): nat {
    if o.binary then 8 else 2
  }

  function OffsetText(o: Options, offset: nat): string {
    ZeroPad(Numeral(offset, OffsetBase(o)))
  }

  function ByteText(o: Options, b: byte): string {
    Digits(b, DataBase(o), Places(o))
  }

  function Blank(o: Options): string {
    if o.binary then "        " else "  "
  }

  function Gap(o: Options, i: nat): string
    requires o.grouping > 0
  {
    if i > 0 && i % o.grouping == 0 then "  " else ""
  }

  function Cell(o: Options, line: seq<byte>, i: nat): string
    requires o.grouping > 0
  {
    Gap(o, i) + (if i < |line| then ByteText(o, line[i]) else Blank(o))
  }

  /** The data column from cell i to the end of the line. */
  function Column(o: Options, line: seq<byte>, i: nat): string
    requires o.grouping > 0
    decreases o.width - i
  {
    if i >= o.width then "" else Cell(o, line, i) + Column(o, line, i + 1)
  }

  function AsciiChar(b: byte): (c: char)
    ensures c != '\n'
  {
    if 32 <= b <= 126 then b as char else '.'
  }

  function AsciiText(line: seq<byte>): string {
    if line == [] then "" else [AsciiChar(line[0])] + AsciiText(line[1..])
  }

  function Prefix(o: Options, offset: nat): string {
    if o.showOffset then OffsetText(o, offset) + ":  " else ""
  }

  function Suffix(o: Options, line: seq<byte>): string {
    if o.showAscii then "  " + AsciiText(line) else ""
  }

  function Line(o: Options, line: seq<byte>, offset: nat): string
    requires o.grouping > 0
  {
    Prefix(o, offset) + Column(o, line, 0) + Suffix(o, line)
  }

  /** The lines of a dump. */
  function Lines(o: Options, data: seq<byte>, offset: nat): seq<string>
    requires ValidOptions(o)
    decreases |data|
  {
    if data == [] then []
    else
      var n := Min(o.width, |data|);
      [Line(o, data[..n], offset)] + Lines(o, data[n..], offset + n)
  }

  /** Each line followed by a newline. */
  function Join(lines: seq<string>): string {
    if lines == [] then "" else lines[0] + "\n" + Join(lines[1..])
  }

  function Dump(o: Options, data: seq<byte>, offset: nat): string
    requires ValidOptions(o)
  {
    Join(Lines(o, data, offset))
  }

  // --------------------------------------------------------------- the C functions

  /** The bit loop of print_data: bits 7 down to 0. */
  method PrintBits(b: byte) returns (out: string)
    ensures out == Digits(b, Binary, 8)
  {
    out := "";
    var j := 8;
    while j > 0
      invariant 0 <= j <= 8
      invariant out == Digits(Shift(b, Binary, j), Binary, 8 - j)
    {
      j := j - 1;
      ShiftNext(b, Binary, j);
      var bit := Shift(b, Binary, j) % 2;
      out := out + [DigitChar(bit)];
    }
  }

  method PrintByte(o: Options, b: byte) returns (out: string)
    ensures out == ByteText(o, b)
  {
    if o.binary {
      out := PrintBits(b);
    } else {
      out := Digits(b, Hexadecimal, 2);
    }
  }

  lemma Assoc(a: string, b: string, c: string)
    ensures (a + b) + c == a + (b + c)
  {
  }

  /** The column is its first cell and the column of the cells after it. */
  lemma ColumnNext(o: Options, line: seq<byte>, i: nat, out: string)
    requires ValidOptions(o) && i < o.width
    ensures Column(o, line, i) == Cell(o, line, i) + Column(o, line, i + 1)
    ensures out + Column(o, line, i) == (out + Cell(o, line, i)) + Column(o, line, i + 1)
  {
    Assoc(out, Cell(o, line, i), Column(o, line, i + 1));
  }

  lemma ColumnEnd(o: Options, line: seq<byte>)
    requires ValidOptions(o)
    ensures Column(o, line, o.width) == ""
  {
  }

  /** A cell as it is printed: the gap, if one is due, and then the text of the byte or blanks. */
  lemma CellAfter(o: Options, line: seq<byte>, i: nat, out: string)
    requires ValidOptions(o)
    ensures var text := if i < |line| then ByteText(o, line[i]) else Blank(o);
            out + Cell(o, line, i) == (if i > 0 && i % o.grouping == 0 then out + "  " else out) + text
  {
    hide ByteText, Blank;
    Assoc(out, Gap(o, i), if i < |line| then ByteText(o, line[i]) else Blank(o));
  }

  /** The first loop of print_data: the bytes of the line, with the gaps between groups. */
  method PrintBytes(o: Options, buffer: array<byte>, n: nat) returns (out: string)
    requires ValidOptions(o) && n <= o.width && n <= buffer.Length
    ensures out + Column(o, buffer[..n], n) == Column(o, buffer[..n], 0)
  {
    hide Column, Cell, ByteText;
    ghost var line := buffer[..n];
    out := "";
    for i := 0 to n
      invariant out + Column(o, line, i) == Column(o, line, 0)
    {
      ColumnNext(o, line, i, out);
      CellAfter(o, line, i, out);
      if i > 0 && i % o.grouping == 0 {
        out := out + "  ";
      }
      var text := PrintByte(o, buffer[i]);
      out := out + text;
    }
  }

  /** The second loop: blanks so that the columns of an incomplete line stay aligned. */
  method PrintPadding(o: Options, n: nat, ghost line: seq<byte>) returns (out: string)
    requires ValidOptions(o) && n <= o.width && |line| == n
    ensures out == Column(o, line, n)
  {
    hide Column, Cell, Blank;
    out := "";
    for k := 0 to o.width - n
      invariant out + Column(o, line, n + k) == Column(o, line, n)
    {
      ColumnNext(o, line, n + k, out);
      CellAfter(o, line, n + k, out);
      if n + k > 0 && (n + k) % o.grouping == 0 {
        out := out + "  ";
      }
      out := out + Blank(o);
    }
    ColumnEnd(o, line);
  }

  method PrintData(o: Options, buffer: array<byte>, n: nat) returns (out: string)
    requires ValidOptions(o) && n <= o.width && n <= buffer.Length
    ensures out == Column(o, buffer[..n], 0)
  {
    hide Column;
    out := PrintBytes(o, buffer, n);
    if n != o.width {
      var padding := PrintPadding(o, n, buffer[..n]);
      out := out + padding;
    } else {
      ColumnEnd(o, buffer[..n]);
    }
  }

  method PrintAscii(buffer: array<byte>, n: nat) returns (out: string)
    requires n <= buffer.Length
    ensures out == "  " + AsciiText(buffer[..n])
  {
    out := "  ";
    ghost var line := buffer[..n];
    for i := 0 to n
      invariant out + AsciiText(line[i..]) == "  " + AsciiText(line)
    {
      assert line[i..][1..] == line[i + 1..];
      out := out + [AsciiChar(buffer[i])];
    }
  }

  lemma JoinCons(out: string, line: string, lines: seq<string>)
    ensures out + Join([line] + lines) == (out + (line + "\n")) + Join(lines)
  {
    assert ([line] + lines)[1..] == lines;
    Assoc(out, line + "\n", Join(lines));
  }

  lemma LinesCons(o: Options, data: seq<byte>, offset: nat)
    requires ValidOptions(o) && offset < |data|
    ensures var n := Min(o.width, |data| - offset);
            Lines(o, data[offset..], offset) ==
            [Line(o, data[offset..offset + n], offset)] + Lines(o, data[offset + n..], offset + n)
  {
    hide Line;
    var n, rest := Min(o.width, |data| - offset), data[offset..];
    assert rest[..n] == data[offset..offset + n] && rest[n..] == data[offset + n..];
  }

  /** The body of the loop in `hexdump`. */
  method PrintLine(o: Options, buffer: array<byte>, n: nat, offset: nat) returns (out: string)
    requires ValidOptions(o) && n <= o.width && n <= buffer.Length
    ensures out == Line(o, buffer[..n], offset) + "\n"
  {
    out := "";
    if o.showOffset {
      out := out + OffsetText(o, offset) + ":  ";
    }
    assert out == Prefix(o, offset);
    var column := PrintData(o, buffer, n);
    out := out + column;
    if o.showAscii {
      var ascii := PrintAscii(buffer, n);
      out := out + ascii;
    }
    assert out == Line(o, buffer[..n], offset);
    out := out + "\n";
  }

  /** fread: the next n bytes of the file into the buffer. */
  method Fread(buffer: array<byte>, data: seq<byte>, offset: nat, n: nat)
    requires n <= buffer.Length && offset + n <= |data|
    modifies buffer
    ensures buffer[..n] == data[offset..offset + n]
  {
    for i := 0 to n
      invariant buffer[..i] == data[offset..offset + i]
    {
      buffer[i] := data[offset + i];
    }
  }

  lemma NothingLeft(o: Options, data: seq<byte>)
    requires ValidOptions(o)
    ensures Join(Lines(o, data[|data|..], |data|)) == ""
  {
  }

  /** The loop of `hexdump`: fread fills the buffer with a line, or with what is left. */
  method Run(o: Options, data: seq<byte>) returns (out: string)
    requires ValidOptions(o)
    ensures out == Dump(o, data, 0)
  {
    hide Line, Lines, Join;
    var buffer := new byte[256];
    var offset := 0;
    out := "";
    assert data[0..] == data;
    while offset < |data|
      invariant offset <= |data|
      invariant out + Join(Lines(o, data[offset..], offset)) == Dump(o, data, 0)
    {
      var n := Min(o.width, |data| - offset);
      Fread(buffer, data, offset, n);
      var line := PrintLine(o, buffer, n, offset);
      LinesCons(o, data, offset);
      JoinCons(out, Line(o, buffer[..n], offset), Lines(o, data[offset + n..], offset + n));
      out := out + line;
      offset := offset + n;
    }
    NothingLeft(o, data);
  }

  // ------------------------------------------------------------------ the reader

  /** The first position of c, or the length. */
  function Find(s: string, c: char): (k: nat)
    ensures k <= |s|
    ensures k < |s| ==> s[k] == c
    ensures forall i :: 0 <= i < k ==> s[i] != c
  {
    if s == "" || s[0] == c then 0 else 1 + Find(s[1..], c)
  }

  /** Reads cells from cell i on; a blank cell or the end of the line stops it. */
  function ReadCells(o: Options, s: string, i: nat): seq<int>
    requires o.grouping > 0
    decreases o.width - i
  {
    if i >= o.width then []
    else
      var gap := |Gap(o, i)|;
      if |s| < gap + Places(o) || s[gap] == ' ' then []
      else
        [Value(s[gap..gap + Places(o)], DataBase(o))] + ReadCells(o, s[gap + Places(o)..], i + 1)
  }

  /** Where the data column starts: after the colon and two spaces, if there is an offset. */
  function ColumnStart(o: Options, line: string): (k: nat)
    ensures k <= |line|
  {
    if o.showOffset then Min(Find(line, ':') + 3, |line|) else 0
  }

  function ReadLine(o: Options, line: string): seq<int>
    requires o.grouping > 0
  {
    ReadCells(o, line[ColumnStart(o, line)..], 0)
  }

  function ReadOffset(o: Options, line: string): nat {
    Value(line[..Find(line, ':')], OffsetBase(o))
  }

  function SplitLines(text: string): seq<string>
    decreases |text|
  {
    if text == "" then []
    else
      var k := Find(text, '\n');
      [text[..k]] + (if k < |text| then SplitLines(text[k + 1..]) else [])
  }

  /** The bytes of a dump. */
  function ReadLines(o: Options, lines: seq<string>): seq<int>
    requires o.grouping > 0
  {
    if lines == [] then [] else ReadLine(o, lines[0]) + ReadLines(o, lines[1..])
  }

  function ReadDump(o: Options, text: string): seq<int>
    requires o.grouping > 0
  {
    ReadLines(o, SplitLines(text))
  }

  // ------------------------------------------------------------------ round trips

  /** The ASCII column shows, byte for byte, the printable ones and a dot for the others. */
  lemma {:induction false} AsciiShows(line: seq<byte>, i: nat)
    requires i < |line|
    ensures |AsciiText(line)| == |line|
    ensures AsciiText(line)[i] == if 32 <= line[i] <= 126 then line[i] as char else '.'
  {
    if i > 0 {
      AsciiShows(line[1..], i - 1);
    } else if |line| > 1 {
      AsciiShows(line[1..], 0);
    }
  }

  lemma ByteRoundTrip(o: Options, b: byte)
    ensures Value(ByteText(o, b), DataBase(o)) == b
  {
    if o.binary {
      ShiftNext(b, Binary, 0);
      ShiftNext(b, Binary, 1);
      ShiftNext(b, Binary, 2);
      ShiftNext(b, Binary, 3);
      ShiftNext(b, Binary, 4);
      ShiftNext(b, Binary, 5);
      ShiftNext(b, Binary, 6);
      ShiftNext(b, Binary, 7);
    } else {
      ShiftNext(b, Hexadecimal, 0);
      ShiftNext(b, Hexadecimal, 1);
    }
    DigitsValue(b, DataBase(o), Places(o));
  }

  /** Reading one full cell. */
  lemma ReadCell(o: Options, line: seq<byte>, i: nat, rest: string)
    requires ValidOptions(o) && i < |line| <= o.width
    ensures ReadCells(o, Cell(o, line, i) + rest, i) == [line[i] as int] + ReadCells(o, rest, i + 1)
  {
    var s := Cell(o, line, i) + rest;
    var gap, text := Gap(o, i), ByteText(o, line[i]);
    assert s == gap + text + rest;
    assert s[|gap|..|gap| + Places(o)] == text;
    assert s[|gap| + Places(o)..] == rest;
    assert s[|gap|] == text[0];
    DigitsPlain(line[i], DataBase(o), Places(o));
    ByteRoundTrip(o, line[i]);
  }

  lemma ReadBlank(o: Options, line: seq<byte>, i: nat, rest: string)
    requires ValidOptions(o) && |line| <= i < o.width
    ensures ReadCells(o, Cell(o, line, i) + rest, i) == []
  {
    var s := Cell(o, line, i) + rest;
    var gap := Gap(o, i);
    assert s == gap + Blank(o) + rest;
    assert s[|gap|] == ' ';
  }

  /** Reading the first cell of a data column, whatever follows the column. */
  lemma ReadFirstCell(o: Options, line: seq<byte>, i: nat, tail: string)
    requires ValidOptions(o) && |line| <= o.width && i < o.width
    ensures ReadCells(o, Column(o, line, i) + tail, i) ==
            if i < |line| then [line[i] as int] + ReadCells(o, Column(o, line, i + 1) + tail, i + 1) else []
  {
    hide Column, Cell, ReadCells;
    ColumnNext(o, line, i, "");
    Assoc(Cell(o, line, i), Column(o, line, i + 1), tail);
    if i < |line| {
      ReadCell(o, line, i, Column(o, line, i + 1) + tail);
    } else {
      ReadBlank(o, line, i, Column(o, line, i + 1) + tail);
    }
  }

  /** The data column, whatever follows it, reads back as the bytes of the line. */
  lemma {:induction false} ReadColumn(o: Options, line: seq<byte>, i: nat, tail: string)
    requires ValidOptions(o) && i <= |line| <= o.width
    ensures ReadCells(o, Column(o, line, i) + tail, i) == line[i..]
    decreases o.width - i
  {
    hide Column;
    if i < o.width {
      ReadFirstCell(o, line, i, tail);
      if i < |line| {
        ReadColumn(o, line, i + 1, tail);
      }
    }
  }

  ghost predicate Without(s: string, c: char) {
    forall i :: 0 <= i < |s| ==> s[i] != c
  }

  lemma CellHasNoNewline(o: Options, line: seq<byte>, i: nat)
    requires ValidOptions(o)
    ensures Without(Cell(o, line, i), '\n')
  {
    if i < |line| {
      DigitsPlain(line[i], DataBase(o), Places(o));
    }
  }

  lemma {:induction false} ColumnHasNoNewline(o: Options, line: seq<byte>, i: nat)
    requires ValidOptions(o)
    ensures Without(Column(o, line, i), '\n')
    decreases o.width - i
  {
    if i < o.width {
      hide Column, Cell;
      ColumnNext(o, line, i, "");
      CellHasNoNewline(o, line, i);
      ColumnHasNoNewline(o, line, i + 1);
    }
  }

  lemma {:induction false} AsciiHasNoNewline(line: seq<byte>)
    ensures Without(AsciiText(line), '\n')
  {
    if line != [] {
      AsciiHasNoNewline(line[1..]);
    }
  }

  lemma OffsetPlain(o: Options, offset: nat)
    ensures Plain(OffsetText(o, offset))
  {
    NumeralPlain(offset, OffsetBase(o));
    ZeroPadPlain(Numeral(offset, OffsetBase(o)));
  }

  lemma PrefixHasNoNewline(o: Options, offset: nat)
    ensures Without(Prefix(o, offset), '\n')
  {
    OffsetPlain(o, offset);
  }

  lemma WithoutAppend(a: string, b: string, c: char)
    requires Without(a, c) && Without(b, c)
    ensures Without(a + b, c)
  {
  }

  lemma LineHasNoNewline(o: Options, line: seq<byte>, offset: nat)
    requires ValidOptions(o)
    ensures Without(Line(o, line, offset), '\n')
  {
    PrefixHasNoNewline(o, offset);
    ColumnHasNoNewline(o, line, 0);
    AsciiHasNoNewline(line);
    WithoutAppend("  ", AsciiText(line), '\n');
    WithoutAppend(Prefix(o, offset), Column(o, line, 0), '\n');
    WithoutAppend(Prefix(o, offset) + Column(o, line, 0), Suffix(o, line), '\n');
  }

  lemma {:induction false} FindAfter(a: string, c: char, b: string)
    requires Without(a, c)
    ensures Find(a + [c] + b, c) == |a|
  {
    var s := a + [c] + b;
    assert s[|a|] == c;
    assert forall i :: 0 <= i < |a| ==> s[i] != c;
  }

  /** Where the parts of a line are. */
  lemma LineParts(o: Options, line: seq<byte>, offset: nat)
    requires ValidOptions(o)
    ensures var text := Line(o, line, offset);
            && text[ColumnStart(o, text)..] == Column(o, line, 0) + Suffix(o, line)
            && (o.showOffset ==> text[..Find(text, ':')] == OffsetText(o, offset))
  {
    hide Column, Suffix, OffsetText;
    var text := Line(o, line, offset);
    var body := Column(o, line, 0) + Suffix(o, line);
    Assoc(Prefix(o, offset), Column(o, line, 0), Suffix(o, line));
    if o.showOffset {
      var num := OffsetText(o, offset);
      assert text == num + [':'] + ("  " + body);
      OffsetPlain(o, offset);
      FindAfter(num, ':', "  " + body);
    } else {
      assert text == body;
    }
  }

  /** A line reads back as its offset and its bytes. */
  lemma ReadLineRoundTrip(o: Options, line: seq<byte>, offset: nat)
    requires ValidOptions(o) && |line| <= o.width
    ensures ReadLine(o, Line(o, line, offset)) == line
    ensures o.showOffset ==> ReadOffset(o, Line(o, line, offset)) == offset
  {
    LineParts(o, line, offset);
    ReadColumn(o, line, 0, Suffix(o, line));
    NumeralValue(offset, OffsetBase(o));
    ZeroPadValue(Numeral(offset, OffsetBase(o)), OffsetBase(o));
  }

  lemma SplitFirst(line: string, rest: string)
    requires Without(line, '\n')
    ensures SplitLines(line + "\n" + rest) == [line] + SplitLines(rest)
  {
    var text := line + "\n" + rest;
    FindAfter(line, '\n', rest);
    assert text[..|line|] == line && text[|line| + 1..] == rest;
  }

  /** Lines without newlines, joined, split again into the same lines. */
  lemma {:induction false} SplitJoin(lines: seq<string>)
    requires forall k :: 0 <= k < |lines| ==> Without(lines[k], '\n')
    ensures SplitLines(Join(lines)) == lines
  {
    if lines != [] {
      SplitJoin(lines[1..]);
      SplitFirst(lines[0], Join(lines[1..]));
    }
  }

  lemma LinesStep(o: Options, data: seq<byte>, offset: nat, k: nat)
    requires ValidOptions(o) && 0 < k < |Lines(o, data, offset)|
    ensures var n := Min(o.width, |data|);
            && k - 1 < |Lines(o, data[n..], offset + n)|
            && Lines(o, data, offset)[k] == Lines(o, data[n..], offset + n)[k - 1]
  {
    hide Line;
  }

  lemma {:induction false} LinesHaveNoNewline(o: Options, data: seq<byte>, offset: nat, k: nat)
    requires ValidOptions(o) && k < |Lines(o, data, offset)|
    ensures Without(Lines(o, data, offset)[k], '\n')
    decreases k
  {
    hide Line;
    var n := Min(o.width, |data|);
    if k == 0 {
      LineHasNoNewline(o, data[..n], offset);
    } else {
      LinesStep(o, data, offset, k);
      LinesHaveNoNewline(o, data[n..], offset + n, k - 1);
    }
  }

  lemma SplitDump(o: Options, data: seq<byte>, offset: nat)
    requires ValidOptions(o)
    ensures SplitLines(Dump(o, data, offset)) == Lines(o, data, offset)
  {
    hide Line;
    forall k | 0 <= k < |Lines(o, data, offset)| ensures Without(Lines(o, data, offset)[k], '\n') {
      LinesHaveNoNewline(o, data, offset, k);
    }
    SplitJoin(Lines(o, data, offset));
  }

  lemma ReadLinesCons(o: Options, line: string, lines: seq<string>)
    requires o.grouping > 0
    ensures ReadLines(o, [line] + lines) == ReadLine(o, line) + ReadLines(o, lines)
  {
    assert ([line] + lines)[1..] == lines;
  }

  lemma {:induction false} ReadLinesRoundTrip(o: Options, data: seq<byte>, offset: nat)
    requires ValidOptions(o)
    ensures ReadLines(o, Lines(o, data, offset)) == data
    decreases |data|
  {
    hide Line;
    if data != [] {
      var n := Min(o.width, |data|);
      ReadLinesRoundTrip(o, data[n..], offset + n);
      ReadLineRoundTrip(o, data[..n], offset);
      ReadLinesCons(o, Line(o, data[..n], offset), Lines(o, data[n..], offset + n));
      assert data == data[..n] + data[n..];
    }
  }

  /** For every file and all options, the dump reads back as the file. */
  lemma DumpRoundTrip(o: Options, data: seq<byte>)
    requires ValidOptions(o)
    ensures ReadDump(o, Dump(o, data, 0)) == data
  {
    SplitDump(o, data, 0);
    ReadLinesRoundTrip(o, data, 0);
  }

  /** Only the last line can be incomplete. */
  lemma FullWhenMoreFollow(o: Options, data: seq<byte>, offset: nat)
    requires ValidOptions(o) && |Lines(o, data, offset)| > 1
    ensures Min(o.width, |data|) == o.width && o.width <= |data|
  {
  }

  lemma Successor(k: nat, w: nat)
    requires k > 0
    ensures w + (k - 1) * w == k * w
  {
  }

  /** Characters in the gaps before cell i. */
  function GapsBefore(o: Options, i: nat): nat
    requires o.grouping > 0
  {
    if i == 0 then 0 else GapsBefore(o, i - 1) + |Gap(o, i - 1)|
  }

  lemma NextGap(i: nat, g: nat)
    requires i > 0 && g in {1, 2, 4, 8}
    ensures i / g == (i - 1) / g + (if i % g == 0 then 1 else 0)
  {
    if g == 1 {
    } else if g == 2 {
    } else if g == 4 {
    } else {
      assert g == 8;
    }
  }

  /** A gap before every group but the first. */
  lemma {:induction false} GapsCounted(o: Options, i: nat)
    requires ValidOptions(o) && i > 0
    ensures GapsBefore(o, i) == 2 * ((i - 1) / o.grouping)
  {
    if i > 1 {
      GapsCounted(o, i - 1);
      NextGap(i - 1, o.grouping);
    } else {
      assert GapsBefore(o, 1) == GapsBefore(o, 0) + |Gap(o, 0)|;
    }
  }

  /** Characters of n bytes. */
  function Room(o: Options, n: nat): nat {
    if o.binary then 8 * n else 2 * n
  }

  lemma {:induction false} ColumnLengthFrom(o: Options, line: seq<byte>, i: nat)
    requires ValidOptions(o) && i <= o.width
    ensures |Column(o, line, i)| + GapsBefore(o, i) + Room(o, i) == GapsBefore(o, o.width) + Room(o, o.width)
    decreases o.width - i
  {
    if i < o.width {
      ColumnLengthFrom(o, line, i + 1);
    }
  }

  /** Every data column is equally long, the padded one of an incomplete line included. */
  lemma ColumnsAlign(o: Options, line: seq<byte>)
    requires ValidOptions(o)
    ensures |Column(o, line, 0)| == (if o.binary then 8 * o.width else 2 * o.width) + 2 * ((o.width - 1) / o.grouping)
  {
    ColumnLengthFrom(o, line, 0);
    GapsCounted(o, o.width);
  }

  // ------------------------------------------------------- what the dump looks like

  const DIGITS: string := "0123456789ABCDEF"

  /** The number s denotes when it is read with the given radix. */
  function Reads(s: string, radix: nat): nat {
    if s == "" then 0 else radix * Reads(s[..|s| - 1], radix) + DigitValue(s[|s| - 1])
  }

  /** Only digits of that radix, in upper case. */
  ghost predicate IsNumeral(s: string, radix: nat)
    requires radix <= 16
  {
    forall i :: 0 <= i < |s| ==> s[i] in DIGITS[..radix]
  }

  function Radix(base: Base): (r: nat)
    ensures r <= 16
  {
    match base
    case Binary => 2
    case Decimal => 10
    case Hexadecimal => 16
  }

  lemma {:induction false} ValueIsRead(s: string, base: Base)
    ensures Value(s, base) == Reads(s, Radix(base))
  {
    if s != "" {
      ValueIsRead(s[..|s| - 1], base);
      match base {
        case Binary =>
        case Decimal =>
        case Hexadecimal =>
      }
    }
  }

  lemma DigitIsNumeral(v: nat, base: Base)
    ensures IsNumeral([DigitChar(Last(v, base))], Radix(base))
  {
    var d := Last(v, base);
    assert d < Radix(base);
    assert DIGITS[..Radix(base)][d] == DigitChar(d);
  }

  lemma {:induction false} DigitsAreNumeral(v: nat, base: Base, n: nat)
    ensures IsNumeral(Digits(v, base, n), Radix(base))
  {
    if n > 0 {
      DigitsAreNumeral(Rest(v, base), base, n - 1);
      DigitIsNumeral(v, base);
    }
  }

  lemma {:induction false} NumeralIsNumeral(v: nat, base: Base)
    ensures IsNumeral(Numeral(v, base), Radix(base))
    ensures v > 0 ==> Numeral(v, base)[0] != '0'
  {
    DigitIsNumeral(v, base);
    if Rest(v, base) != 0 {
      NumeralIsNumeral(Rest(v, base), base);
    }
  }

  /** %08: eight places, or as many as the number needs without a leading zero. */
  lemma {:induction false} ZeroPadIs(s: string, base: Base)
    requires IsNumeral(s, Radix(base))
    ensures IsNumeral(ZeroPad(s), Radix(base))
    ensures if |s| <= 8 then |ZeroPad(s)| == 8 else ZeroPad(s) == s
    decreases 8 - |s|
  {
    if |s| < 8 {
      assert DIGITS[..Radix(base)][0] == '0';
      ZeroPadIs("0" + s, base);
    }
  }

  /** The offset as printf's %08zX or %08zu shows it. */
  ghost predicate ShowsOffset(num: string, decimal: bool, offset: nat) {
    var radix := if decimal then 10 else 16;
    && |num| >= 8 && IsNumeral(num, radix) && Reads(num, radix) == offset
    && (|num| > 8 ==> num[0] != '0')
  }

  lemma OffsetShows(o: Options, offset: nat)
    ensures ShowsOffset(OffsetText(o, offset), o.decimalOffset, offset)
  {
    var base := OffsetBase(o);
    NumeralIsNumeral(offset, base);
    ZeroPadIs(Numeral(offset, base), base);
    NumeralValue(offset, base);
    ZeroPadValue(Numeral(offset, base), base);
    ValueIsRead(OffsetText(o, offset), base);
  }

  /** A byte as two hexadecimal or eight binary digits. */
  ghost predicate ShowsByte(text: string, binary: bool, b: byte) {
    if binary then |text| == 8 && IsNumeral(text, 2) && Reads(text, 2) == b
    else |text| == 2 && IsNumeral(text, 16) && Reads(text, 16) == b
  }

  lemma ByteShows(o: Options, b: byte)
    ensures ShowsByte(ByteText(o, b), o.binary, b)
  {
    DigitsAreNumeral(b, DataBase(o), Places(o));
    ByteRoundTrip(o, b);
    ValueIsRead(ByteText(o, b), DataBase(o));
  }

  /** Where the digits of cell i begin. */
  function CellAt(binary: bool, grouping: nat, i: nat): nat
    requires grouping > 0
  {
    (if binary then 8 else 2) * i + 2 * (i / grouping)
  }

  ghost predicate Blanks(s: string) {
    forall i :: 0 <= i < |s| ==> s[i] == ' '
  }

  ghost predicate ShowsCell(column: string, o: Options, line: seq<byte>, i: nat, at: nat, places: nat)
    requires ValidOptions(o)
  {
    && at + places <= |column|
    && (if i < |line| then ShowsByte(column[at..at + places], o.binary, line[i]) else Blanks(column[at..at + places]))
    && (i > 0 && i % o.grouping == 0 ==> at >= 2 && Blanks(column[at - 2..at]))
  }

  /**
   The data column of a line: every byte in its cell, blanks in the cells of an incomplete line, and two
   blanks before every group but the first.
   */
  ghost predicate ShowsData(column: string, o: Options, line: seq<byte>)
    requires ValidOptions(o)
  {
    var places := if o.binary then 8 else 2;
    && |column| == CellAt(o.binary, o.grouping, o.width - 1) + places
    && forall i :: 0 <= i < o.width ==> ShowsCell(column, o, line, i, CellAt(o.binary, o.grouping, i), places)
  }

  lemma CellLength(o: Options, line: seq<byte>, i: nat)
    requires ValidOptions(o)
    ensures |Cell(o, line, i)| == |Gap(o, i)| + if o.binary then 8 else 2
  {
  }

  lemma {:induction false} ColumnSplit(o: Options, line: seq<byte>, i: nat) returns (before: string)
    requires ValidOptions(o) && i <= o.width
    ensures Column(o, line, 0) == before + Column(o, line, i)
    ensures |before| == Room(o, i) + GapsBefore(o, i)
  {
    if i == 0 {
      before := "";
    } else {
      hide Column, Cell;
      before := ColumnSplit(o, line, i - 1);
      ColumnNext(o, line, i - 1, before);
      CellLength(o, line, i - 1);
      before := before + Cell(o, line, i - 1);
    }
  }

  /** Where the parts of a concatenation are. */
  lemma PlaceCell(whole: string, before: string, gap: string, text: string, rest: string)
    requires whole == before + (gap + text) + rest
    ensures var at := |before| + |gap|; whole[at..at + |text|] == text && whole[|before|..at] == gap
  {
  }

  lemma CellPlace(o: Options, i: nat)
    requires ValidOptions(o)
    ensures Room(o, i) + GapsBefore(o, i) + |Gap(o, i)| == CellAt(o.binary, o.grouping, i)
  {
    GapsCounted(o, i + 1);
  }

  lemma CellText(o: Options, line: seq<byte>, i: nat) returns (text: string)
    requires ValidOptions(o)
    ensures Cell(o, line, i) == Gap(o, i) + text && |text| == if o.binary then 8 else 2
    ensures if i < |line| then ShowsByte(text, o.binary, line[i]) else Blanks(text)
  {
    if i < |line| {
      text := ByteText(o, line[i]);
      ByteShows(o, line[i]);
    } else {
      text := Blank(o);
    }
  }

  lemma CellShows(o: Options, line: seq<byte>, i: nat)
    requires ValidOptions(o) && i < o.width
    ensures ShowsCell(Column(o, line, 0), o, line, i, CellAt(o.binary, o.grouping, i), if o.binary then 8 else 2)
  {
    hide Column, Cell, ShowsByte, CellAt, Room, GapsBefore;
    var before := ColumnSplit(o, line, i);
    var text := CellText(o, line, i);
    ColumnNext(o, line, i, before);
    PlaceCell(Column(o, line, 0), before, Gap(o, i), text, Column(o, line, i + 1));
    CellPlace(o, i);
  }

  lemma DataShows(o: Options, line: seq<byte>)
    requires ValidOptions(o)
    ensures ShowsData(Column(o, line, 0), o, line)
  {
    hide ShowsCell;
    ColumnsAlign(o, line);
    forall i | 0 <= i < o.width
      ensures ShowsCell(Column(o, line, 0), o, line, i, CellAt(o.binary, o.grouping, i), if o.binary then 8 else 2)
    {
      CellShows(o, line, i);
    }
  }

  /** The ASCII column, two blanks after the data. */
  ghost predicate ShowsAscii(text: string, line: seq<byte>) {
    && |text| == 2 + |line| && text[0] == text[1] == ' '
    && forall i :: 0 <= i < |line| ==> text[2 + i] == if 32 <= line[i] <= 126 then line[i] as char else '.'
  }

  /** A line of the dump, part by part. */
  ghost predicate ShowsLine(text: string, o: Options, line: seq<byte>, offset: nat, num: string, column: string, ascii: string)
    requires ValidOptions(o)
  {
    && text == (if o.showOffset then num + ":  " else "") + column + ascii
    && (o.showOffset ==> ShowsOffset(num, o.decimalOffset, offset))
    && ShowsData(column, o, line)
    && (if o.showAscii then ShowsAscii(ascii, line) else ascii == "")
  }

  lemma {:induction false} AsciiLength(line: seq<byte>)
    ensures |AsciiText(line)| == |line|
  {
    if line != [] {
      AsciiLength(line[1..]);
    }
  }

  lemma LineShows(o: Options, line: seq<byte>, offset: nat)
    requires ValidOptions(o)
    ensures ShowsLine(Line(o, line, offset), o, line, offset, OffsetText(o, offset), Column(o, line, 0), Suffix(o, line))
  {
    hide Column, ShowsData, ShowsOffset;
    OffsetShows(o, offset);
    DataShows(o, line);
    AsciiLength(line);
    forall i | 0 <= i < |line|
      ensures AsciiText(line)[i] == if 32 <= line[i] <= 126 then line[i] as char else '.'
    {
      AsciiShows(line, i);
    }
  }

  /** The bytes of the line that starts at `at`. */
  function LineBytes(width: nat, data: seq<byte>, at: nat): seq<byte> {
    data[Min(at, |data|)..Min(at + width, |data|)]
  }

  lemma NextLineBytes(width: nat, data: seq<byte>, at: nat)
    requires width <= |data| && width <= at
    ensures LineBytes(width, data[width..], at - width) == LineBytes(width, data, at)
  {
  }

  /** Where line k starts. */
  function Start(width: nat, k: nat): nat {
    if k == 0 then 0 else Start(width, k - 1) + width
  }

  lemma {:induction false} StartIs(width: nat, k: nat)
    ensures Start(width, k) == k * width
  {
    if k > 0 {
      StartIs(width, k - 1);
      Successor(k, width);
    }
  }

  lemma StartNext(width: nat, k: nat)
    requires k > 0
    ensures Start(width, k) == Start(width, k - 1) + width
  {
  }

  lemma FirstLine(o: Options, data: seq<byte>, offset: nat)
    requires ValidOptions(o) && |Lines(o, data, offset)| > 0
    ensures Start(o.width, 0) == 0 < |data|
    ensures Lines(o, data, offset)[0] == Line(o, LineBytes(o.width, data, 0), offset)
  {
    hide Line;
    assert LineBytes(o.width, data, 0) == data[..Min(o.width, |data|)];
  }

  lemma {:induction false} LineIs(o: Options, data: seq<byte>, offset: nat, k: nat)
    requires ValidOptions(o) && k < |Lines(o, data, offset)|
    ensures Start(o.width, k) < |data|
    ensures Lines(o, data, offset)[k] ==
            Line(o, LineBytes(o.width, data, Start(o.width, k)), offset + Start(o.width, k))
    decreases k
  {
    hide Line, Lines, LineBytes, Start;
    if k == 0 {
      FirstLine(o, data, offset);
    } else {
      var n := o.width;
      FullWhenMoreFollow(o, data, offset);
      LinesStep(o, data, offset, k);
      LineIs(o, data[n..], offset + n, k - 1);
      StartNext(n, k);
      NextLineBytes(n, data, Start(n, k));
    }
  }

  /** n lines of the given width hold `size` bytes, and fewer do not. */
  predicate Enough(n: nat, width: nat, size: nat) {
    n * width >= size && (n > 0 ==> (n - 1) * width < size)
  }

  lemma NoneNeeded(width: nat)
    ensures Enough(0, width, 0)
  {
  }

  lemma OneMore(n: nat, width: nat, size: nat)
    requires width > 0 && size > 0 && Enough(n, width, size - Min(width, size))
    ensures Enough(n + 1, width, size)
  {
    Successor(n + 1, width);
    if n > 0 {
      Successor(n, width);
    }
  }

  lemma {:induction false} LinesCounted(o: Options, data: seq<byte>, offset: nat)
    requires ValidOptions(o)
    ensures Enough(|Lines(o, data, offset)|, o.width, |data|)
    decreases |data|
  {
    hide Line, Enough;
    if data == [] {
      NoneNeeded(o.width);
    } else {
      var n := Min(o.width, |data|);
      LinesCounted(o, data[n..], offset + n);
      OneMore(|Lines(o, data[n..], offset + n)|, o.width, |data|);
    }
  }

  /** Every line is closed by a newline. */
  lemma {:induction false} JoinEnds(lines: seq<string>)
    ensures Join(lines) != "" ==> Join(lines)[|Join(lines)| - 1] == '\n'
  {
    if lines != [] {
      JoinEnds(lines[1..]);
    }
  }

  ghost predicate ShowsLineAt(text: string, o: Options, data: seq<byte>, at: nat)
    requires ValidOptions(o)
  {
    && at < |data|
    && exists num, column, ascii :: ShowsLine(text, o, LineBytes(o.width, data, at), at, num, column, ascii)
  }

  /**
   The text of a dump: as many lines as there are groups of `width` bytes, each closed by a newline;
   line k shows the offset k * width, the bytes from there on, and their characters.
   */
  ghost predicate ShowsDump(text: string, o: Options, data: seq<byte>)
    requires ValidOptions(o)
  {
    var lines := SplitLines(text);
    && Enough(|lines|, o.width, |data|)
    && (text != "" ==> text[|text| - 1] == '\n')
    && forall k :: 0 <= k < |lines| ==> ShowsLineAt(lines[k], o, data, k * o.width)
  }

  lemma LineShowsAt(o: Options, data: seq<byte>, k: nat, at: nat)
    requires ValidOptions(o) && k < |Lines(o, data, 0)| && at == k * o.width
    ensures ShowsLineAt(Lines(o, data, 0)[k], o, data, at)
  {
    hide Line, Lines, Column, ShowsLine;
    StartIs(o.width, k);
    LineIs(o, data, 0, k);
    LineShows(o, LineBytes(o.width, data, at), at);
  }

  /** For every file and all options, the dump is as described. */
  lemma DumpShows(o: Options, data: seq<byte>)
    requires ValidOptions(o)
    ensures ShowsDump(Dump(o, data, 0), o, data)
  {
    hide Line, Lines, Join, SplitLines, ShowsLineAt, Enough;
    var lines := Lines(o, data, 0);
    SplitDump(o, data, 0);
    LinesCounted(o, data, 0);
    JoinEnds(lines);
    forall k | 0 <= k < |lines| ensures ShowsLineAt(lines[k], o, data, k * o.width) {
      LineShowsAt(o, data, k, k * o.width);
    }
  }

  lemma OffsetFound(o: Options, line: seq<byte>, at: nat)
    requires ValidOptions(o) && o.showOffset
    ensures var text := Line(o, line, at); ShowsOffset(text[..Find(text, ':')], o.decimalOffset, at)
  {
    hide Line, Find, ShowsOffset;
    LineParts(o, line, at);
    OffsetShows(o, at);
  }

  ghost predicate OffsetBeforeColon(text: string, decimal: bool, offset: nat) {
    ShowsOffset(text[..Find(text, ':')], decimal, offset)
  }

  /** What line k of the dump shows before its colon is k * width, in hexadecimal or in decimal. */
  lemma OffsetsAreMultiples(o: Options, data: seq<byte>, lines: seq<string>, k: nat)
    requires ValidOptions(o) && o.showOffset
    requires lines == SplitLines(Dump(o, data, 0)) && k < |lines|
    ensures OffsetBeforeColon(lines[k], o.decimalOffset, k * o.width)
  {
    hide Line, Lines, Find, SplitLines, ShowsOffset;
    SplitDump(o, data, 0);
    StartIs(o.width, k);
    LineIs(o, data, 0, k);
    OffsetFound(o, LineBytes(o.width, data, k * o.width), k * o.width);
  }
}
