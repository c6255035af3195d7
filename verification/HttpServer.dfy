/**
 The HTTP server's percent decoder and its response builder, as they fill buffers the caller or
 they themselves have allocated.
 */
module HttpServer {
  import opened Common

  const BUFFER_SIZE: nat := 52428800

  // ---------------------------------------------------------- sscanf(p, "%2x", &hex)

  predicate IsHex(c: byte) {
    0x30 <= c <= 0x39 || 0x41 <= c <= 0x46 || 0x61 <= c <= 0x66
  }

  /** The value of a hexadecimal digit, of either case. */
  function HexValue(c: byte): (v: nat)
    requires IsHex(c)
    ensures v < 16
  {
    if c <= 0x39 then c - 0x30 else if c <= 0x46 then c - 0x41 + 10 else c - 0x61 + 10
  }

  const PLUS: byte := 0x2B
  const MINUS: byte := 0x2D
  const ZERO: byte := 0x30

  /** isspace in the C locale. */
  predicate IsBlank(c: byte) {
    c == 0x20 || 0x09 <= c <= 0x0D
  }

  predicate IsX(c: byte) {
    c == 0x58 || c == 0x78
  }

  predicate IsSign(c: byte) {
    c == PLUS || c == MINUS
  }

  /** What is left after leading white space. */
  function Trimmed(u: seq<byte>): seq<byte> {
    if u != [] && IsBlank(u[0]) then Trimmed(u[1..]) else u
  }

  /** The number found at the start of u, within two characters. */
  function Scan(u: seq<byte>): Option<int> {
    if u == [] then None
    else if IsHex(u[0]) then
      if |u| >= 2 && IsHex(u[1]) then Some(16 * HexValue(u[0]) + HexValue(u[1]))
      else if |u| >= 2 && u[0] == ZERO && IsX(u[1]) then None
      else Some(HexValue(u[0]))
    else if IsSign(u[0]) && |u| >= 2 && IsHex(u[1]) then
      Some(if u[0] == MINUS then 0 - HexValue(u[1]) else HexValue(u[1]))
    else None
  }

  /** The number sscanf stores when it is given the text from i on, if it stores one. */
  function Scanned(text: seq<byte>, i: nat): Option<int>
    requires i <= |text|
  {
    Scan(Trimmed(text[i..]))
  }

  /** At least one digit and nothing else. */
  predicate IsDigits(w: seq<byte>) {
    w != [] && forall k :: 0 <= k < |w| ==> IsHex(w[k])
  }

  function Number(w: seq<byte>): nat
    requires forall k :: 0 <= k < |w| ==> IsHex(w[k])
  {
    if w == [] then 0 else 16 * Number(w[..|w| - 1]) + HexValue(w[|w| - 1])
  }

  /** What follows an optional sign. */
  function Unsigned(w: seq<byte>): seq<byte> {
    if w != [] && (w[0] == 0x2B || w[0] == 0x2D) then w[1..] else w
  }

  /** An optional 0x or 0X. */
  predicate HasPrefix(w: seq<byte>) {
    |w| >= 2 && w[0] == 0x30 && (w[1] == 0x78 || w[1] == 0x58)
  }

  /** The subject sequences of strtoul in base 16 (section 7.22.1.4 of C11). */
  predicate IsSubject(w: seq<byte>) {
    var u := Unsigned(w);
    IsDigits(u) || (HasPrefix(u) && IsDigits(u[2..]))
  }

  function SubjectValue(w: seq<byte>): int
    requires IsSubject(w)
  {
    var u := Unsigned(w);
    var n := Number(if IsDigits(u) then u else u[2..]);
    if w[0] == 0x2D then 0 - n else n
  }

  ghost predicate StartsSubject(w: seq<byte>) {
    exists z: seq<byte> :: IsSubject(w + z)
  }

  /** The input item: the longest start of u, of at most two characters, that starts a subject sequence. */
  ghost predicate IsItem(u: seq<byte>, k: nat) {
    && k <= 2 && k <= |u| && StartsSubject(u[..k])
    && forall m :: k < m <= 2 && m <= |u| ==> !StartsSubject(u[..m])
  }

  lemma SubjectStarts(w: seq<byte>, z: seq<byte>)
    requires IsSubject(w + z)
    ensures StartsSubject(w)
  {
  }

  lemma SingleDigit(c: byte)
    requires IsHex(c)
    ensures IsSubject([c]) && SubjectValue([c]) == HexValue(c) && StartsSubject([c])
  {
    assert Unsigned([c]) == [c] && [c][..0] == [];
    assert Number([c]) == 16 * Number([]) + HexValue(c);
    assert [c] + [] == [c];
    SubjectStarts([c], []);
  }

  lemma TwoDigits(c: byte, d: byte)
    requires IsHex(c) && IsHex(d)
    ensures IsSubject([c, d]) && SubjectValue([c, d]) == 16 * HexValue(c) + HexValue(d)
    ensures StartsSubject([c, d])
  {
    SingleDigit(c);
    assert [c, d][..1] == [c];
    SubjectStarts([c, d], []);
  }

  lemma SignedDigit(c: byte, d: byte)
    requires IsSign(c) && IsHex(d)
    ensures IsSubject([c, d]) && StartsSubject([c, d])
    ensures SubjectValue([c, d]) == if c == MINUS then 0 - HexValue(d) else HexValue(d)
  {
    assert Unsigned([c, d]) == [d];
    SingleDigit(d);
    SubjectStarts([c, d], []);
  }

  /** Neither 0x nor a sign is a number yet, but both start one. */
  lemma Unfinished(w: seq<byte>)
    requires (|w| == 2 && HasPrefix(w)) || (|w| == 1 && IsSign(w[0])) || w == []
    ensures StartsSubject(w) && !IsSubject(w)
  {
    var z := [ZERO];
    if w != [] && IsSign(w[0]) {
      assert Unsigned(w + z) == z;
    } else if w != [] {
      assert (w + z)[2..] == z;
    }
    SubjectStarts(w, z);
  }

  /** A character that is no digit, and no x after a zero, cannot be part of a number. */
  lemma Ends(w: seq<byte>, m: nat)
    requires m < |w| && !IsHex(w[m]) && !IsSign(w[0]) && !HasPrefix(w)
    requires m <= 1
    ensures !StartsSubject(w)
  {
    forall z: seq<byte> ensures !IsSubject(w + z) {
      assert (w + z)[m] == w[m] && (w + z)[0] == w[0];
    }
  }

  lemma EndsAfterSign(w: seq<byte>)
    requires |w| == 2 && IsSign(w[0]) && !IsHex(w[1])
    ensures !StartsSubject(w)
  {
    forall z: seq<byte> ensures !IsSubject(w + z) {
      assert Unsigned(w + z)[0] == w[1];
    }
  }

  /** u starts with a digit; the item is two characters unless the second cannot belong to it. */
  lemma DigitFirst(u: seq<byte>, k: nat)
    requires u != [] && IsHex(u[0]) && IsItem(u, k)
    ensures Scan(u) == if IsSubject(u[..k]) then Some(SubjectValue(u[..k])) else None
  {
    hide IsSubject, SubjectValue, StartsSubject, HexValue;
    SingleDigit(u[0]);
    assert u[..1] == [u[0]];
    if |u| >= 2 {
      assert u[..2] == [u[0], u[1]];
      if IsHex(u[1]) {
        TwoDigits(u[0], u[1]);
      } else if HasPrefix(u) {
        Unfinished(u[..2]);
      } else {
        Ends(u[..2], 1);
      }
    }
  }

  lemma SignFirst(u: seq<byte>, k: nat)
    requires u != [] && IsSign(u[0]) && IsItem(u, k)
    ensures Scan(u) == if IsSubject(u[..k]) then Some(SubjectValue(u[..k])) else None
  {
    hide IsSubject, SubjectValue, StartsSubject, HexValue;
    assert u[..1] == [u[0]];
    Unfinished(u[..1]);
    if |u| >= 2 {
      assert u[..2] == [u[0], u[1]];
      if IsHex(u[1]) {
        SignedDigit(u[0], u[1]);
      } else {
        EndsAfterSign(u[..2]);
      }
    }
  }

  lemma ItemExists(u: seq<byte>) returns (k: nat)
    ensures IsItem(u, k)
  {
    Unfinished([]);
    assert u[..0] == [];
    k := if |u| >= 2 && StartsSubject(u[..2]) then 2 else if |u| >= 1 && StartsSubject(u[..1]) then 1 else 0;
  }

  /**
   The scan is the one section 7.21.6.2 of C11 describes: the input item is converted if it is a
   subject sequence, and otherwise there is no match and nothing is stored.
   */
  lemma ScanIsStandard(u: seq<byte>, k: nat)
    requires IsItem(u, k)
    ensures Scan(u) == if IsSubject(u[..k]) then Some(SubjectValue(u[..k])) else None
  {
    hide IsSubject, SubjectValue, StartsSubject, HexValue;
    assert u[..0] == [];
    Unfinished([]);
    if u != [] && IsHex(u[0]) {
      DigitFirst(u, k);
    } else if u != [] && IsSign(u[0]) {
      SignFirst(u, k);
    } else if u != [] {
      Ends(u[..1], 0);
      if |u| >= 2 {
        Ends(u[..2], 0);
      }
    }
  }

  /** White space is skipped, all of it and nothing else. */
  lemma {:induction false} TrimmedIs(u: seq<byte>) returns (n: nat)
    ensures n <= |u| && Trimmed(u) == u[n..]
    ensures forall k :: 0 <= k < n ==> u[k] in {0x20, 0x09, 0x0A, 0x0B, 0x0C, 0x0D}
    ensures n < |u| ==> u[n] !in {0x20, 0x09, 0x0A, 0x0B, 0x0C, 0x0D}
  {
    n := 0;
    if u != [] && IsBlank(u[0]) {
      var m := TrimmedIs(u[1..]);
      n := m + 1;
    }
  }

  // ------------------------------------------------------------- percent decoding

  const PERCENT: byte := 0x25

  /** An escape is taken at i when two characters follow; a '%' nearer the end stands for itself. */
  predicate TakesEscape(text: seq<byte>, i: nat)
    requires i < |text|
  {
    text[i] == PERCENT && i + 2 < |text|
  }

  /** Where the loop goes on after position i. */
  function Next(text: seq<byte>, i: nat): (n: nat)
    requires i < |text|
    ensures i < n <= |text|
  {
    if TakesEscape(text, i) then i + 3 else i + 1
  }

  /** If an escape is taken at i, sscanf finds a number behind the '%'. */
  predicate ScansAt(text: seq<byte>, i: nat)
    requires i < |text|
  {
    TakesEscape(text, i) ==> Scanned(text, i + 1).Some?
  }

  /** So it does in every escape the decoder takes from i on. */
  predicate Scannable(text: seq<byte>, i: nat)
    requires i <= |text|
    decreases |text| - i
  {
    i == |text| || (ScansAt(text, i) && Scannable(text, Next(text, i)))
  }

  /**
   The byte written for position i. For an escape it is the number sscanf finds, converted to a char;
   if it finds none, `hex` has never been set and can be anything, given by `other`.
   */
  function Decoded(text: seq<byte>, i: nat, other: nat -> byte): byte
    requires i < |text|
  {
    if !TakesEscape(text, i) then text[i]
    else
      var hex := Scanned(text, i + 1);
      if hex.Some? then hex.value % 256 else other(i)
  }

  function DecodeFrom(text: seq<byte>, i: nat, other: nat -> byte): seq<byte>
    requires i <= |text|
    decreases |text| - i
  {
    if i == |text| then [] else [Decoded(text, i, other)] + DecodeFrom(text, Next(text, i), other)
  }

  /** The number of escapes taken from i on. */
  function EscapesFrom(text: seq<byte>, i: nat): nat
    requires i <= |text|
    decreases |text| - i
  {
    if i == |text| then 0
    else (if TakesEscape(text, i) then 1 else 0) + EscapesFrom(text, Next(text, i))
  }

  /** Each escape taken shortens the text by two. */
  lemma {:induction false} DecodedLength(text: seq<byte>, i: nat, other: nat -> byte)
    requires i <= |text|
    ensures |DecodeFrom(text, i, other)| == |text| - i - 2 * EscapesFrom(text, i)
    decreases |text| - i
  {
    if i < |text| {
      DecodedLength(text, Next(text, i), other);
    }
  }

  /** The text alone decides the result exactly when sscanf finds a number in every escape taken. */
  lemma {:induction false} DecidedIffScannable(text: seq<byte>, i: nat, f: nat -> byte, g: nat -> byte)
    requires i <= |text|
    ensures Scannable(text, i) ==> DecodeFrom(text, i, f) == DecodeFrom(text, i, g)
    ensures DecodeFrom(text, i, f) == DecodeFrom(text, i, g) && (forall k: nat :: f(k) != g(k)) ==>
              Scannable(text, i)
    decreases |text| - i
  {
    if i < |text| {
      var n := Next(text, i);
      DecidedIffScannable(text, n, f, g);
      assert DecodeFrom(text, i, f)[1..] == DecodeFrom(text, n, f);
      assert DecodeFrom(text, i, g)[1..] == DecodeFrom(text, n, g);
      assert DecodeFrom(text, i, f)[0] == Decoded(text, i, f);
      assert DecodeFrom(text, i, g)[0] == Decoded(text, i, g);
    }
  }

  /** An escape with one digit is decided too: "%4g" is the byte 4. */
  lemma OneDigitEscape(other: nat -> byte)
    ensures Scannable([PERCENT, 0x34, 0x67], 0)
    ensures DecodeFrom([PERCENT, 0x34, 0x67], 0, other) == [4]
  {
    var text: seq<byte> := [PERCENT, 0x34, 0x67];
    assert text[1..] == [0x34, 0x67];
    assert Trimmed(text[1..]) == text[1..];
    assert DecodeFrom(text, 3, other) == [];
  }

  lemma DecodeStep(text: seq<byte>, i: nat, other: nat -> byte, done: seq<byte>)
    requires i < |text|
    ensures done + DecodeFrom(text, i, other) ==
            (done + [Decoded(text, i, other)]) + DecodeFrom(text, Next(text, i), other)
  {
  }

  lemma PlainIsItself(text: seq<byte>, i: nat, other: nat -> byte)
    requires i < |text| && !TakesEscape(text, i)
    ensures Decoded(text, i, other) == text[i]
  {
  }

  lemma DecodeEnd(text: seq<byte>, other: nat -> byte)
    ensures DecodeFrom(text, |text|, other) == []
  {
  }

  /** char *get_filename(char *file): all writes stay inside the len + 1 bytes allocated. */
  method GetFilename(text: seq<byte>, other: nat -> byte) returns (result: array<byte>, n: nat)
    ensures fresh(result) && result.Length == |text| + 1
    ensures n <= |text| && result[..n] == DecodeFrom(text, 0, other) && result[n] == 0
    ensures n == |text| - 2 * EscapesFrom(text, 0)
  {
    hide DecodeFrom, Decoded;
    var len := |text|;
    result := new byte[len + 1];
    n := 0;
    var i := 0;
    while i < len
      invariant n <= i <= len
      invariant result[..n] + DecodeFrom(text, i, other) == DecodeFrom(text, 0, other)
    {
      ghost var before := result[..n];
      DecodeStep(text, i, other, before);
      if text[i] == PERCENT && i + 2 < len {
        result[n] := Decoded(text, i, other);
        i := i + 2;
      } else {
        PlainIsItself(text, i, other);
        result[n] := text[i];
      }
      assert result[..n + 1] == before + [result[n]];
      n := n + 1;
      i := i + 1;
    }
    DecodedLength(text, 0, other);
    DecodeEnd(text, other);
    result[n] := 0;
  }

  // ------------------------------------------------------------- percent encoding

  function HexChar(v: nat, upper: bool): (c: byte)
    requires v < 16
    ensures IsHex(c) && HexValue(c) == v
  {
    (if upper then "0123456789ABCDEF"[v] else "0123456789abcdef"[v]) as int
  }

  /** The hexadecimal digits are those sixteen, in either case. */
  lemma HexDigitsAre(c: byte)
    ensures IsHex(c) <==> exists v: nat, upper :: v < 16 && c == HexChar(v, upper)
  {
    if IsHex(c) {
      var v := HexValue(c);
      assert c == HexChar(v, true) || c == HexChar(v, false);
    }
  }

  /** How an encoder writes one byte: as itself or escaped, with digits of either case. */
  datatype Choice = Choice(escape: bool, upperHigh: bool, upperLow: bool)

  /** A '%' is always escaped, and so is a NUL, which would end the C string. */
  function EncodeByte(b: byte, c: Choice): seq<byte> {
    if c.escape || b == 0x25 || b == 0
    then [0x25, HexChar(b / 16, c.upperHigh), HexChar(b % 16, c.upperLow)]
    else [b]
  }

  function Encode(bytes: seq<byte>, choices: seq<Choice>): seq<byte>
    requires |choices| == |bytes|
  {
    if bytes == [] then [] else EncodeByte(bytes[0], choices[0]) + Encode(bytes[1..], choices[1..])
  }

  /** `t` is `text` with `k` characters in front of it. */
  ghost predicate EndsWith(t: seq<byte>, k: nat, text: seq<byte>) {
    k <= |t| && t[k..] == text
  }

  lemma SameAt(t: seq<byte>, k: nat, text: seq<byte>, i: nat, other: nat -> byte)
    requires EndsWith(t, k, text) && i < |text| && ScansAt(text, i)
    ensures k + i < |t| && Next(t, k + i) == k + Next(text, i) && ScansAt(t, k + i)
    ensures Decoded(t, k + i, other) == Decoded(text, i, other)
  {
    hide Scan, Trimmed;
    assert t[k + i] == t[k..][i];
    if i + 2 < |text| {
      assert t[k + i + 1..] == t[k..][i + 1..];
    }
  }

  /** The decoder looks only at what is ahead of it. */
  lemma {:induction false} DecodeSuffix(t: seq<byte>, k: nat, text: seq<byte>, i: nat, other: nat -> byte)
    requires EndsWith(t, k, text) && i <= |text| && Scannable(text, i)
    ensures k + i <= |t| && Scannable(t, k + i)
    ensures DecodeFrom(t, k + i, other) == DecodeFrom(text, i, other)
    decreases |text| - i
  {
    hide Decoded, ScansAt, Next;
    if i < |text| {
      SameAt(t, k, text, i, other);
      DecodeSuffix(t, k, text, Next(text, i), other);
    }
  }

  /** Two hexadecimal digits behind the '%' are read as their value. */
  lemma ScanEscape(text: seq<byte>, high: byte, low: byte)
    requires |text| >= 3 && text[1] == high && text[2] == low && IsHex(high) && IsHex(low)
    ensures Scanned(text, 1) == Some(16 * HexValue(high) + HexValue(low))
  {
    var u := text[1..];
    assert u[0] == high && u[1] == low;
    assert Trimmed(u) == u;
  }

  /** The decoder takes what an encoder wrote for one byte as that byte. */
  lemma TakeEncodedByte(b: byte, c: Choice, rest: seq<byte>, other: nat -> byte)
    ensures var text := EncodeByte(b, c) + rest;
            && Next(text, 0) == |EncodeByte(b, c)| && ScansAt(text, 0) && Decoded(text, 0, other) == b
  {
    hide Scanned, HexChar, HexValue, IsHex;
    var head := EncodeByte(b, c);
    var text := head + rest;
    assert text[0] == head[0];
    if |head| == 3 {
      ScanEscape(text, head[1], head[2]);
    }
  }

  lemma DecodeEncodedByte(b: byte, c: Choice, rest: seq<byte>, other: nat -> byte)
    requires Scannable(rest, 0)
    ensures Scannable(EncodeByte(b, c) + rest, 0)
    ensures DecodeFrom(EncodeByte(b, c) + rest, 0, other) == [b] + DecodeFrom(rest, 0, other)
  {
    hide Next, ScansAt, Decoded, EncodeByte;
    var head := EncodeByte(b, c);
    TakeEncodedByte(b, c, rest, other);
    assert EndsWith(head + rest, |head|, rest);
    DecodeSuffix(head + rest, |head|, rest, 0, other);
  }

  /**
   Section 2.1 of RFC 3986: decoding inverts every encoder that escapes each '%' and writes two
   hexadecimal digits, of either case, per escape.
   */
  lemma {:induction false} DecodeInvertsEncode(bytes: seq<byte>, choices: seq<Choice>, other: nat -> byte)
    requires |choices| == |bytes|
    ensures Scannable(Encode(bytes, choices), 0)
    ensures DecodeFrom(Encode(bytes, choices), 0, other) == bytes
  {
    if bytes != [] {
      DecodeInvertsEncode(bytes[1..], choices[1..], other);
      DecodeEncodedByte(bytes[0], choices[0], Encode(bytes[1..], choices[1..]), other);
    }
  }

  // ------------------------------------------------------------------ the response

  function ToBytes(s: string): (r: seq<byte>)
    ensures |r| == |s|
  {
    seq(|s|, i requires 0 <= i < |s| => (s[i] as int) % 256)
  }

  const NOT_FOUND: string :=
    "HTTP/1.1 404 Not Found\r\nContent-Type: text/plain\r\n\r\n404 Not Found"

  /** snprintf into BUFFER_SIZE bytes: what fits with the terminating NUL. */
  function Header(mime: string): (r: seq<byte>)
    ensures |r| < BUFFER_SIZE
  {
    var text := ToBytes("HTTP/1.1 200 OK\r\nContent-Type: " + mime + "\r\n\r\n");
    text[..Min(|text|, BUFFER_SIZE - 1)]
  }

  /** The status line, the type and an empty line, unless the type alone fills the buffer. */
  lemma HeaderIs(mime: string)
    requires |mime| < 52428750
    ensures Header(mime) == ToBytes("HTTP/1.1 200 OK\r\nContent-Type: " + mime + "\r\n\r\n")
  {
    assert |"HTTP/1.1 200 OK\r\nContent-Type: "| == 31;
  }

  /** What the operating system makes of one read: an error, or at most `n` bytes but at least one. */
  datatype Read = Error | Upto(n: nat)

  /** The number of bytes a read returns when `room` are asked for and `left` are there. */
  function ReadCount(r: Read, room: nat, left: nat): int {
    if room == 0 then 0
    else if r.Error? then -1
    else if left == 0 then 0
    else Min(Min(if r.n == 0 then 1 else r.n, room), left)
  }

  /** A read stays within what is asked for and what is there, and without an error ends only there. */
  lemma ReadCountIs(r: Read, room: nat, left: nat)
    ensures ReadCount(r, room, left) <= room && ReadCount(r, room, left) <= left
    ensures !r.Error? ==> (ReadCount(r, room, left) <= 0 <==> room == 0 || left == 0)
  {
  }

  /** Reading `red` more bytes after a prefix of the file gives a longer prefix. */
  lemma JoinPrefix(now: seq<byte>, header: seq<byte>, file: seq<byte>, len: nat, got: nat, red: nat)
    requires |now| == len + red && got + red <= |file| && len == |header| + got
    requires now[..len] == header + file[..got] && now[len..] == file[got..got + red]
    ensures now == header + file[..got + red]
  {
    assert now == now[..len] + now[len..];
    assert file[..got + red] == file[..got] + file[got..got + red];
  }

  /** memcpy and the copying part of read. */
  method Copy(response: array<byte>, at: nat, bytes: seq<byte>)
    requires at + |bytes| <= response.Length
    modifies response
    ensures response[..at] == old(response[..at])
    ensures response[at..at + |bytes|] == bytes
  {
    for i := 0 to |bytes|
      invariant response[..at] == old(response[..at])
      invariant response[at..at + i] == bytes[..i]
    {
      response[at + i] := bytes[i];
    }
  }

  /** The read loop of build_http. */
  method ReadFile(response: array<byte>, header: seq<byte>, file: seq<byte>, schedule: nat -> Read)
    returns (len: nat)
    requires response.Length == 2 * BUFFER_SIZE && |header| < BUFFER_SIZE
    requires response[..|header|] == header
    modifies response
    ensures |header| <= len <= |header| + |file| && len <= BUFFER_SIZE
    ensures response[..len] == header + file[..len - |header|]
    ensures (forall k :: !schedule(k).Error?) ==> len - |header| == Min(|file|, BUFFER_SIZE - |header|)
  {
    hide ReadCount;
    len := |header|;
    var got, k := 0, 0;
    var red := ReadCount(schedule(0), BUFFER_SIZE - len, |file|);
    assert response[..len] == header + file[..0];
    while red > 0
      invariant len == |header| + got && got <= |file| && len <= BUFFER_SIZE
      invariant response[..len] == header + file[..got]
      invariant red == ReadCount(schedule(k), BUFFER_SIZE - len, |file| - got)
      decreases |file| - got
    {
      ReadCountIs(schedule(k), BUFFER_SIZE - len, |file| - got);
      Copy(response, len, file[got..got + red]);
      JoinPrefix(response[..len + red], header, file, len, got, red);
      len, got, k := len + red, got + red, k + 1;
      red := ReadCount(schedule(k), BUFFER_SIZE - len, |file| - got);
    }
    ReadCountIs(schedule(k), BUFFER_SIZE - len, |file| - got);
  }

  /**
   void build_http(...): `schedule` is what the k-th read does, for any k. Whatever it is, the
   response is the header and a prefix of the file and never exceeds BUFFER_SIZE; without a read
   error it is as much of the file as fits, however the reads were chunked.
   */
  method BuildHttp(response: array<byte>, mime: string, file: Option<seq<byte>>, schedule: nat -> Read)
    returns (len: nat)
    requires response.Length == 2 * BUFFER_SIZE
    modifies response
    ensures len <= 52428800
    ensures file.None? ==>
              response[..len] ==
              ToBytes("HTTP/1.1 404 Not Found\r\nContent-Type: text/plain\r\n\r\n404 Not Found")
    ensures file.Some? ==>
              && |Header(mime)| <= len <= |Header(mime)| + |file.value|
              && response[..len] == Header(mime) + file.value[..len - |Header(mime)|]
    ensures file.Some? && (forall k :: !schedule(k).Error?) ==>
              len - |Header(mime)| == Min(|file.value|, 52428800 - |Header(mime)|)
  {
    if file.None? {
      Copy(response, 0, ToBytes(NOT_FOUND));
      len := |NOT_FOUND|;
      return;
    }
    hide Header;
    var header := Header(mime);
    Copy(response, 0, header);
    assert response[..|header|] == header;
    len := ReadFile(response, header, file.value, schedule);
  }
}
