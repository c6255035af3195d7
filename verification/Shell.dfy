/**
 The mini shell: reading a line into a growing buffer, cutting it into words in place, and the
 read, parse, execute loop.

 Standard input is a text and a position in it; at its end `getchar` keeps returning EOF.
 */
module Shell {
  import opened Common

  const BUFFER_SIZE: nat := 1024
  const NUL: char := '\0'

  predicate IsDelim(c: char) {
    c == ' ' || c == '\t' || c == '\r' || c == '\n'
  }

  // ---------------------------------------------------------------------- readline

  /** Where the line that starts at `pos` ends: at a newline or at end of file. */
  function LineEnd(input: string, pos: nat): (e: nat)
    requires pos <= |input|
    ensures pos <= e <= |input|
    ensures e < |input| ==> input[e] == '\n'
    ensures forall i :: pos <= i < e ==> input[i] != '\n'
    decreases |input| - pos
  {
    if pos == |input| || input[pos] == '\n' then pos else LineEnd(input, pos + 1)
  }

  /** Where the next line starts: after the newline, or still at end of file. */
  function NextPos(input: string, pos: nat): (p: nat)
    requires pos <= |input|
    ensures pos <= p <= |input|
  {
    var e := LineEnd(input, pos);
    if e < |input| then e + 1 else e
  }

  /** realloc: a larger block with the old contents. */
  method Grow(a: array<char>, size: nat) returns (b: array<char>)
    requires a.Length <= size
    ensures fresh(b) && b.Length == size && b[..a.Length] == a[..]
  {
    b := new char[size](_ => NUL);
    for i := 0 to a.Length
      invariant b[..i] == a[..i]
    {
      b[i] := a[i];
    }
  }

  /** char *readline(void): the line as a NUL-terminated string in a buffer large enough for it. */
  method ReadLine(input: string, pos: nat) returns (buffer: array<char>, len: nat, next: nat)
    requires pos <= |input|
    ensures fresh(buffer) && len < buffer.Length && buffer[len] == NUL
    ensures buffer[..len] == input[pos..LineEnd(input, pos)]
    ensures next == NextPos(input, pos)
  {
    var bufferSize := BUFFER_SIZE;
    buffer := new char[BUFFER_SIZE](_ => NUL);
    var position := 0;
    next := pos;
    while true
      invariant fresh(buffer) && buffer.Length == bufferSize
      invariant position < bufferSize
      invariant pos <= next == pos + position <= |input|
      invariant LineEnd(input, next) == LineEnd(input, pos)
      invariant buffer[..position] == input[pos..next]
      decreases |input| - next
    {
      if next == |input| || input[next] == '\n' {
        buffer[position] := NUL;
        len := position;
        if next < |input| {
          next := next + 1;
        }
        return;
      }
      buffer[position] := input[next];
      next, position := next + 1, position + 1;
      assert buffer[..position] == input[pos..next];
      if position >= bufferSize {
        bufferSize := bufferSize + BUFFER_SIZE;
        buffer := Grow(buffer, bufferSize);
      }
    }
  }

  // ---------------------------------------------------------------------- tokenize

  /** A word: a longest possible run of characters that are not delimiters. */
  ghost predicate MaximalRun(line: string, s: nat, e: nat) {
    && s < e <= |line|
    && (forall i :: s <= i < e ==> line[i] !in " \t\r\n")
    && (s == 0 || line[s - 1] in " \t\r\n")
    && (e == |line| || line[e] in " \t\r\n")
  }

  lemma DelimsAre()
    ensures forall c :: IsDelim(c) <==> c in " \t\r\n"
  {
    var delims := " \t\r\n";
    assert delims[0] == ' ' && delims[1] == '\t' && delims[2] == '\r' && delims[3] == '\n';
  }

  /** strspn and strcspn from position `i`. */
  function SkipDelims(line: string, i: nat): (k: nat)
    requires i <= |line|
    ensures i <= k <= |line|
    ensures forall j :: i <= j < k ==> IsDelim(line[j])
    ensures k < |line| ==> !IsDelim(line[k])
    decreases |line| - i
  {
    if i < |line| && IsDelim(line[i]) then SkipDelims(line, i + 1) else i
  }

  function SkipWord(line: string, i: nat): (k: nat)
    requires i <= |line|
    ensures i <= k <= |line|
    ensures forall j :: i <= j < k ==> !IsDelim(line[j])
    ensures k < |line| ==> IsDelim(line[k])
    decreases |line| - i
  {
    if i < |line| && !IsDelim(line[i]) then SkipWord(line, i + 1) else i
  }

  /** Where strtok goes on after a word that ends at `e`. */
  function After(line: string, e: nat): nat {
    if e < |line| then e + 1 else e
  }

  /** What strtok returns, call after call, from position `i` on. */
  function Spans(line: string, i: nat): seq<(nat, nat)>
    requires i <= |line|
    decreases |line| - i
  {
    var s := SkipDelims(line, i);
    if s == |line| then []
    else
      var e := SkipWord(line, s);
      [(s, e)] + Spans(line, After(line, e))
  }

  /** A word at or after `i` is the next one found, or starts after it. */
  lemma NextRun(line: string, i: nat, s: nat, e: nat)
    requires i <= s && MaximalRun(line, s, e)
    ensures var a := SkipDelims(line, i);
            a < |line| && ((s == a && e == SkipWord(line, a)) || s > SkipWord(line, a))
  {
    DelimsAre();
    var a := SkipDelims(line, i);
    assert !IsDelim(line[s]);
    var b := SkipWord(line, a);
    if s > a {
      assert IsDelim(line[s - 1]);
    } else {
      assert e < |line| ==> IsDelim(line[e]);
    }
  }

  lemma NextIsRun(line: string, i: nat)
    requires i <= |line| && SkipDelims(line, i) < |line|
    requires i == 0 || IsDelim(line[i - 1])
    ensures MaximalRun(line, SkipDelims(line, i), SkipWord(line, SkipDelims(line, i)))
  {
    DelimsAre();
  }

  /** The words of a line are its maximal runs: each one is found, and nothing else is. */
  lemma {:induction false} SpansFrom(line: string, i: nat, s: nat, e: nat)
    requires i <= |line| && (i == 0 || i == |line| || IsDelim(line[i - 1]))
    ensures (s, e) in Spans(line, i) <==> MaximalRun(line, s, e) && i <= s
    decreases |line| - i
  {
    var a := SkipDelims(line, i);
    if a < |line| {
      var b := SkipWord(line, a);
      NextIsRun(line, i);
      SpansFrom(line, After(line, b), s, e);
    }
    if i <= s && MaximalRun(line, s, e) {
      NextRun(line, i, s, e);
    }
  }

  lemma {:induction false} SpansAfter(line: string, i: nat, x: nat)
    requires i <= |line| && x < |Spans(line, i)|
    ensures i <= Spans(line, i)[x].0 < Spans(line, i)[x].1 <= |line|
    decreases |line| - i
  {
    if x > 0 {
      SpansAfter(line, After(line, SkipWord(line, SkipDelims(line, i))), x - 1);
    }
  }

  /** The spans come in the order of the line, with at least one delimiter between two of them. */
  lemma {:induction false} SpansOrdered(line: string, i: nat, x: nat, y: nat)
    requires i <= |line| && x < y < |Spans(line, i)|
    ensures Spans(line, i)[x].1 < Spans(line, i)[y].0
    decreases |line| - i
  {
    var e := SkipWord(line, SkipDelims(line, i));
    var rest := Spans(line, After(line, e));
    assert Spans(line, i)[y] == rest[y - 1];
    if x == 0 {
      SpansAfter(line, After(line, e), y - 1);
    } else {
      assert Spans(line, i)[x] == rest[x - 1];
      SpansOrdered(line, After(line, e), x - 1, y - 1);
    }
  }

  /** Exactly the maximal runs, in order. */
  lemma SpansAreMaximalRuns(line: string)
    ensures forall s: nat, e: nat :: (s, e) in Spans(line, 0) <==> MaximalRun(line, s, e)
    ensures forall x, y :: 0 <= x < y < |Spans(line, 0)| ==> Spans(line, 0)[x].1 < Spans(line, 0)[y].0
  {
    forall s: nat, e: nat ensures (s, e) in Spans(line, 0) <==> MaximalRun(line, s, e) {
      SpansFrom(line, 0, s, e);
    }
    forall x, y | 0 <= x < y < |Spans(line, 0)|
      ensures Spans(line, 0)[x].1 < Spans(line, 0)[y].0
    {
      SpansOrdered(line, 0, x, y);
    }
  }

  /** The string a C pointer to `s` denotes, in a buffer where a NUL comes at `e`. */
  ghost predicate ReadsAs(buffer: seq<char>, s: nat, e: nat, text: string) {
    && s <= e < |buffer| && buffer[s..e] == text && buffer[e] == NUL
    && (forall i :: s <= i < e ==> buffer[i] != NUL)
  }

  /**
   strtok from position `i` of a string whose NUL is at `len`: the next word, with a NUL written
   over the delimiter that ends it, and the position to go on from.
   */
  method Strtok(buffer: array<char>, i: nat, ghost len: nat, ghost line: string)
    returns (found: bool, s: nat, e: nat, next: nat)
    requires i <= len == |line| < buffer.Length && buffer[len] == NUL
    requires forall j :: i <= j < len ==> buffer[j] == line[j] != NUL
    modifies buffer
    ensures found <==> SkipDelims(line, i) < len
    ensures found ==> s == SkipDelims(line, i) && e == SkipWord(line, s)
    ensures found ==> s < e <= len && next == After(line, e)
    ensures found ==> forall j :: 0 <= j < buffer.Length ==>
              buffer[j] == if j == e then NUL else old(buffer[j])
    ensures !found ==> buffer[..] == old(buffer[..])
  {
    s := i;
    while IsDelim(buffer[s])
      invariant i <= s <= len && SkipDelims(line, s) == SkipDelims(line, i)
      decreases len - s
    {
      s := s + 1;
    }
    e, next := s, s;
    if buffer[s] == NUL {
      return false, s, e, next;
    }
    while buffer[e] != NUL && !IsDelim(buffer[e])
      invariant s <= e <= len && SkipWord(line, e) == SkipWord(line, s)
      decreases len - e
    {
      e := e + 1;
    }
    next := e;
    if buffer[e] != NUL {
      buffer[e] := NUL;
      next := e + 1;
    }
    return true, s, e, next;
  }

  /** The words found so far still read as they did in the line. */
  ghost predicate AllRead(buffer: seq<char>, line: string, spans: seq<(nat, nat)>, i: nat) {
    forall x :: 0 <= x < |spans| ==>
      && spans[x].0 <= spans[x].1 <= |line| && spans[x].1 <= i
      && ReadsAs(buffer, spans[x].0, spans[x].1, line[spans[x].0..spans[x].1])
  }

  /** The state of tokenize's loop: `spans` are found, the rest of the line from `i` on is as it was. */
  ghost predicate Cut(buffer: seq<char>, line: string, spans: seq<(nat, nat)>, i: nat) {
    && i <= |line| < |buffer| && buffer[|line|] == NUL
    && (forall j :: i <= j < |line| ==> buffer[j] == line[j])
    && spans + Spans(line, i) == Spans(line, 0)
    && AllRead(buffer, line, spans, i)
  }

  lemma SpansStep(line: string, i: nat)
    requires i <= |line|
    ensures var s := SkipDelims(line, i);
            Spans(line, i) ==
            if s == |line| then [] else [(s, SkipWord(line, s))] + Spans(line, After(line, SkipWord(line, s)))
  {
  }

  lemma ReadToEnd(buffer: seq<char>, line: string, spans: seq<(nat, nat)>, i: nat)
    requires AllRead(buffer, line, spans, i)
    ensures AllRead(buffer, line, spans, |line|)
  {
  }

  /** Writing a NUL beyond the words found so far leaves them as they read. */
  lemma KeepReading(before: seq<char>, after: seq<char>, line: string, spans: seq<(nat, nat)>, i: nat, s: nat, e: nat)
    requires |before| == |after| && |line| < |before|
    requires AllRead(before, line, spans, i) && i <= s < e <= |line|
    requires forall j :: i <= j < |line| ==> before[j] == line[j] != NUL
    requires forall j :: 0 <= j < |after| ==> after[j] == if j == e then NUL else before[j]
    ensures AllRead(after, line, spans + [(s, e)], After(line, e))
  {
    assert after[s..e] == line[s..e];
    forall x | 0 <= x < |spans|
      ensures ReadsAs(after, spans[x].0, spans[x].1, line[spans[x].0..spans[x].1])
    {
      assert before[spans[x].0..spans[x].1] == after[spans[x].0..spans[x].1];
    }
  }

  /** One turn of tokenize's loop. */
  method NextToken(buffer: array<char>, i: nat, spans: seq<(nat, nat)>, ghost len: nat, ghost line: string)
    returns (found: bool, more: seq<(nat, nat)>, next: nat)
    requires len == |line| && (forall j :: 0 <= j < len ==> line[j] != NUL)
    requires Cut(buffer[..], line, spans, i)
    modifies buffer
    ensures found ==> i < next && Cut(buffer[..], line, more, next)
    ensures !found ==> more == spans == Spans(line, 0) && AllRead(buffer[..], line, more, len)
  {
    hide Spans, AllRead;
    ghost var before := buffer[..];
    var s, e;
    found, s, e, next := Strtok(buffer, i, len, line);
    SpansStep(line, i);
    if found {
      more := spans + [(s, e)];
      KeepReading(before, buffer[..], line, spans, i, s, e);
    } else {
      more := spans;
      ReadToEnd(buffer[..], line, spans, i);
    }
  }

  lemma NoneRead(buffer: seq<char>, line: string)
    ensures AllRead(buffer, line, [], 0)
  {
  }

  /**
   char **tokenize(char *line): strtok cuts the line in place, and every pointer it has returned
   still reads as its word when the last one has been found.
   */
  method Tokenize(buffer: array<char>, ghost len: nat) returns (spans: seq<(nat, nat)>)
    requires len < buffer.Length && buffer[len] == NUL
    requires forall i :: 0 <= i < len ==> buffer[i] != NUL
    modifies buffer
    ensures spans == Spans(old(buffer[..len]), 0)
    ensures AllRead(buffer[..], old(buffer[..len]), spans, len)
  {
    ghost var line := buffer[..len];
    spans := [];
    var i := 0;
    NoneRead(buffer[..], line);
    var found := true;
    while found
      invariant found ==> Cut(buffer[..], line, spans, i)
      invariant !found ==> spans == Spans(line, 0) && AllRead(buffer[..], line, spans, len)
      decreases if found then 1 + len - i else 0
    {
      found, spans, i := NextToken(buffer, i, spans, len, line);
    }
  }

  // --------------------------------------------------------- interpret and execute

  function WordsOf(line: string, spans: seq<(nat, nat)>): seq<string>
    requires forall x :: 0 <= x < |spans| ==> spans[x].0 <= spans[x].1 <= |line|
  {
    seq(|spans|, x requires 0 <= x < |spans| => line[spans[x].0..spans[x].1])
  }

  /** The C string at the start of a line: what comes before the first NUL, if there is one. */
  function CString(line: string): (t: string)
    ensures t <= line && NUL !in t
    ensures |t| < |line| ==> line[|t|] == NUL
  {
    if line == "" || line[0] == NUL then "" else [line[0]] + CString(line[1..])
  }

  lemma SpansInside(line: string)
    ensures forall x :: 0 <= x < |Spans(line, 0)| ==>
              Spans(line, 0)[x].0 <= Spans(line, 0)[x].1 <= |line|
  {
    forall x | 0 <= x < |Spans(line, 0)|
      ensures Spans(line, 0)[x].0 <= Spans(line, 0)[x].1 <= |line|
    {
      SpansAfter(line, 0, x);
    }
  }

  /** The words of a line. */
  function Words(line: string): (ws: seq<string>) {
    var text := CString(line);
    SpansInside(text);
    WordsOf(text, Spans(text, 0))
  }

  /** The words of a line are the texts of the maximal runs before its first NUL, in order. */
  lemma WordsAreRuns(line: string) returns (spans: seq<(nat, nat)>)
    ensures |Words(line)| == |spans|
    ensures forall x :: 0 <= x < |spans| ==>
              spans[x].0 <= spans[x].1 <= |CString(line)| && Words(line)[x] == line[spans[x].0..spans[x].1]
    ensures forall s: nat, e: nat :: (s, e) in spans <==> MaximalRun(CString(line), s, e)
    ensures forall x, y :: 0 <= x < y < |spans| ==> spans[x].1 < spans[y].0
  {
    var text := CString(line);
    spans := Spans(text, 0);
    SpansInside(text);
    SpansAreMaximalRuns(text);
    forall x | 0 <= x < |spans| ensures Words(line)[x] == line[spans[x].0..spans[x].1] {
      assert text[spans[x].0..spans[x].1] == line[spans[x].0..spans[x].1];
    }
  }

  predicate IsExit(line: string) {
    Words(line) != [] && Words(line)[0] == "exit"
  }

  const BUILTIN: seq<string> := ["cd", "help", "exit", "pwd"]

  /** What the function in the table at index i returns: only builtin_exit returns 0. */
  function CallBuiltin(i: nat): int {
    if i == 2 then 0 else 1
  }

  /** int execute(char **args): 0 for exit, 1 for anything else, an empty line included. */
  method Execute(args: seq<string>) returns (status: int)
    ensures status == if args != [] && args[0] == "exit" then 0 else 1
  {
    if args == [] {
      return 1;
    }
    for i := 0 to |BUILTIN|
      invariant args[0] !in BUILTIN[..i]
    {
      if args[0] == BUILTIN[i] {
        return CallBuiltin(i);
      }
    }
    assert "exit" == BUILTIN[2];
    return 1;
  }

  /** The newline-split lines of the input; what follows the last newline is a line too. */
  function Lines(input: string): (ls: seq<string>)
    ensures |ls| >= 1
    decreases |input|
  {
    var e := LineEnd(input, 0);
    [input[..e]] + (if e < |input| then Lines(input[e + 1..]) else [])
  }

  /** Lines with a newline between each two of them. */
  function Joined(lines: seq<string>): string {
    if |lines| == 0 then "" else if |lines| == 1 then lines[0] else lines[0] + "\n" + Joined(lines[1..])
  }

  lemma LinesCons(input: string)
    ensures var e := LineEnd(input, 0);
            && Lines(input)[0] == input[..e]
            && Lines(input)[1..] == if e < |input| then Lines(input[e + 1..]) else []
  {
    hide LineEnd;
  }

  /** The lines of the input are its pieces between newlines. */
  lemma {:induction false} LinesJoin(input: string)
    ensures Joined(Lines(input)) == input
    ensures forall k :: 0 <= k < |Lines(input)| ==> '\n' !in Lines(input)[k]
    decreases |input|
  {
    hide Lines, LineEnd;
    LinesCons(input);
    var lines, e := Lines(input), LineEnd(input, 0);
    assert lines == [lines[0]] + lines[1..];
    if e < |input| {
      LinesJoin(input[e + 1..]);
      assert input == input[..e] + "\n" + input[e + 1..];
    } else {
      assert input[..e] == input;
    }
  }

  predicate HasExit(lines: seq<string>) {
    exists k :: 0 <= k < |lines| && IsExit(lines[k])
  }

  /** The commands of a session: the non-empty word lists, up to and including the first exit. */
  function Session(lines: seq<string>): seq<seq<string>> {
    if lines == [] then []
    else
      var ws := Words(lines[0]);
      if ws == [] then Session(lines[1..])
      else if ws[0] == "exit" then [ws]
      else [ws] + Session(lines[1..])
  }

  lemma {:induction false} LineEndSuffix(input: string, pos: nat, i: nat)
    requires pos <= i <= |input|
    ensures LineEnd(input[pos..], i - pos) == LineEnd(input, i) - pos
    decreases |input| - i
  {
    if i < |input| && input[i] != '\n' {
      LineEndSuffix(input, pos, i + 1);
    }
  }

  /** The line readline returns at `pos` is the first of the lines that are left. */
  lemma LinesAt(input: string, pos: nat)
    requires pos <= |input|
    ensures var rest, e := Lines(input[pos..]), LineEnd(input, pos);
            && rest[0] == input[pos..e]
            && rest[1..] == if e < |input| then Lines(input[e + 1..]) else []
  {
    hide LineEnd, Lines;
    LineEndSuffix(input, pos, pos);
    LinesCons(input[pos..]);
    var e := LineEnd(input, pos);
    assert input[pos..][..e - pos] == input[pos..e];
    if e < |input| {
      assert input[pos..][e - pos + 1..] == input[e + 1..];
    }
  }

  /** The strings that the pointers tokenize has found denote. */
  method ReadWords(buffer: array<char>, spans: seq<(nat, nat)>, ghost line: string) returns (args: seq<string>)
    requires AllRead(buffer[..], line, spans, |line|)
    ensures args == WordsOf(line, spans)
  {
    args := [];
    for x := 0 to |spans|
      invariant args == WordsOf(line, spans)[..x]
    {
      assert ReadsAs(buffer[..], spans[x].0, spans[x].1, line[spans[x].0..spans[x].1]);
      args := args + [buffer[spans[x].0..spans[x].1]];
    }
  }

  /** readline and tokenize: the words of the next line, as the pointers in `args` read. */
  method ReadCommand(input: string, pos: nat) returns (args: seq<string>, next: nat)
    requires pos <= |input|
    ensures args == Words(input[pos..LineEnd(input, pos)])
    ensures next == NextPos(input, pos)
  {
    hide Spans, AllRead, WordsOf, LineEnd, CString;
    var buffer, len;
    buffer, len, next := ReadLine(input, pos);
    ghost var line := CString(buffer[..len]);
    assert buffer[..|line|] == line;
    SpansInside(line);
    var spans := Tokenize(buffer, |line|);
    args := ReadWords(buffer, spans, line);
  }

  // ------------------------------------------------------- the lines the loop reads

  /** The position and the line of the n-th readline, n counted from 0. */
  function PosAt(input: string, n: nat): (p: nat)
    ensures p <= |input|
  {
    if n == 0 then 0 else NextPos(input, PosAt(input, n - 1))
  }

  function LineAt(input: string, n: nat): string {
    input[PosAt(input, n)..LineEnd(input, PosAt(input, n))]
  }

  lemma {:induction false} LinesFrom(input: string, n: nat)
    ensures n < |Lines(input)| ==> Lines(input[PosAt(input, n)..]) == Lines(input)[n..]
    ensures n >= |Lines(input)| ==> PosAt(input, n) == |input|
  {
    hide Lines, LineEnd;
    if n == 0 {
      assert input[0..] == input;
    } else {
      LinesFrom(input, n - 1);
      var pos := PosAt(input, n - 1);
      LinesAt(input, pos);
      if n - 1 < |Lines(input)| {
        var rest := Lines(input)[n - 1..];
        assert rest[1..] == Lines(input)[n..];
        assert n < |Lines(input)| <==> rest[1..] != [];
      }
    }
  }

  /** The n-th line read is the n-th line of the input, and an empty one after end of file. */
  lemma LineAtIs(input: string, n: nat)
    ensures LineAt(input, n) == if n < |Lines(input)| then Lines(input)[n] else ""
  {
    LinesFrom(input, n);
    LinesAt(input, PosAt(input, n));
  }

  // --------------------------------------------------------------------- the loop

  /** The command of a line, if it has words. */
  function Command(line: string): (r: seq<seq<string>>) {
    if Words(line) == [] then [] else [Words(line)]
  }

  /** The commands of the first n lines read. */
  function Dispatched(input: string, n: nat): seq<seq<string>> {
    if n == 0 then [] else Dispatched(input, n - 1) + Command(LineAt(input, n - 1))
  }

  ghost predicate NoExitBefore(input: string, n: nat) {
    forall m :: 0 <= m < n ==> !IsExit(LineAt(input, m))
  }

  /** The loop ends after n + 1 turns. */
  ghost predicate StopsAfter(input: string, n: nat) {
    IsExit(LineAt(input, n)) && NoExitBefore(input, n)
  }

  lemma SessionCons(lines: seq<string>)
    requires lines != []
    ensures Session(lines) == Command(lines[0]) + if IsExit(lines[0]) then [] else Session(lines[1..])
  {
    hide Words;
  }

  lemma EmptyLine()
    ensures !IsExit("") && Command("") == []
  {
  }

  lemma NextSession(lines: seq<string>, k: nat, before: seq<seq<string>>)
    requires k + 1 < |lines| && !IsExit(lines[k])
    ensures before + Session(lines[k..]) == (before + Command(lines[k])) + Session(lines[k + 1..])
  {
    hide Session, Command, IsExit;
    SessionCons(lines[k..]);
    assert lines[k..][1..] == lines[k + 1..];
  }

  lemma LastSession(lines: seq<string>, before: seq<seq<string>>)
    requires lines != []
    ensures before + Session(lines[|lines| - 1..]) == before + Command(lines[|lines| - 1]) + []
  {
    hide Command, IsExit;
    var rest := lines[|lines| - 1..];
    SessionCons(rest);
    assert rest[1..] == [];
  }

  /** The session, split after the lines read so far. */
  lemma {:induction false} SessionFrom(input: string, n: nat)
    requires NoExitBefore(input, n)
    ensures var lines := Lines(input);
            Session(lines) ==
            Dispatched(input, n) + (if n < |lines| then Session(lines[n..]) else [])
  {
    hide Words, Lines, LineAt, IsExit, Session, Command;
    var lines := Lines(input);
    if n == 0 {
      assert lines[0..] == lines;
    } else {
      var before, line := Dispatched(input, n - 1), LineAt(input, n - 1);
      SessionFrom(input, n - 1);
      LineAtIs(input, n - 1);
      if n < |lines| {
        NextSession(lines, n - 1, before);
      } else if n == |lines| {
        LastSession(lines, before);
      } else {
        EmptyLine();
        assert before + [] + [] == before + [];
      }
    }
  }

  lemma StoppedIsSession(input: string, n: nat)
    requires StopsAfter(input, n)
    ensures n < |Lines(input)| && HasExit(Lines(input))
    ensures Dispatched(input, n + 1) == Session(Lines(input))
  {
    hide Words, Lines, LineAt, IsExit, Session;
    LineAtIs(input, n);
    EmptyLine();
    SessionFrom(input, n);
    SessionCons(Lines(input)[n..]);
  }

  lemma RunningIsSession(input: string, n: nat)
    requires n >= |Lines(input)| && NoExitBefore(input, n)
    ensures !HasExit(Lines(input)) && Dispatched(input, n) == Session(Lines(input))
  {
    hide Words, Lines, LineAt, IsExit, Session;
    forall k | 0 <= k < |Lines(input)| ensures !IsExit(Lines(input)[k]) {
      LineAtIs(input, k);
    }
    SessionFrom(input, n);
  }

  lemma NoTurns(input: string)
    ensures PosAt(input, 0) == 0 && Dispatched(input, 0) == []
  {
  }

  /** One turn of the loop, whose line has the words `args`. */
  lemma Turn(input: string, n: nat, args: seq<string>)
    requires NoExitBefore(input, n)
    requires args == Words(input[PosAt(input, n)..LineEnd(input, PosAt(input, n))])
    ensures PosAt(input, n + 1) == NextPos(input, PosAt(input, n))
    ensures Dispatched(input, n + 1) == Dispatched(input, n) + if args == [] then [] else [args]
    ensures if args != [] && args[0] == "exit" then StopsAfter(input, n) else NoExitBefore(input, n + 1)
  {
    hide Words, LineEnd;
    assert args == Words(LineAt(input, n));
  }

  /**
   void interpret(void), watched for at most `limit` turns of its loop. It goes on until it has read
   an exit line and stops there; what it has dispatched are the commands of the lines read. Once it
   has had a turn for every line of the input, that is the session, whatever the lengths of the lines
   and however often the buffers had to grow, and it has stopped exactly if one of them is an exit.
   */
  method Interpret(input: string, limit: nat)
    returns (log: seq<seq<string>>, turns: nat, pos: nat, status: int)
    ensures turns <= limit && log == Dispatched(input, turns) && pos == PosAt(input, turns)
    ensures status == 0 ==> turns > 0 && StopsAfter(input, turns - 1)
    ensures status != 0 ==> turns == limit && NoExitBefore(input, limit)
    ensures limit >= |Lines(input)| ==> log == Session(Lines(input))
    ensures limit >= |Lines(input)| ==> (status == 0 <==> HasExit(Lines(input)))
  {
    hide Words, Lines, Session, HasExit, LineEnd, NextPos, PosAt, StopsAfter, Dispatched;
    NoTurns(input);
    log, turns, pos, status := [], 0, 0, 1;
    while status != 0 && turns < limit
      invariant turns <= limit && log == Dispatched(input, turns) && pos == PosAt(input, turns)
      invariant status == 0 ==> turns > 0 && StopsAfter(input, turns - 1)
      invariant status != 0 ==> NoExitBefore(input, turns)
      decreases limit - turns, status != 0
    {
      var args, next := ReadCommand(input, pos);
      Turn(input, turns, args);
      if args != [] {
        log := log + [args];
      }
      status := Execute(args);
      pos := next;
      turns := turns + 1;
    }
    if status == 0 {
      StoppedIsSession(input, turns - 1);
    } else if limit >= |Lines(input)| {
      RunningIsSession(input, limit);
    }
  }

  lemma {:induction false} FirstExit(input: string, k: nat) returns (n: nat)
    requires IsExit(LineAt(input, k))
    ensures StopsAfter(input, n)
    decreases k
  {
    hide Words;
    if m: nat :| m < k && IsExit(LineAt(input, m)) {
      n := FirstExit(input, m);
    } else {
      n := k;
    }
  }

  /** The shell ends exactly when some line of its input is an exit: end of file does not end it. */
  lemma StopsIffExit(input: string)
    ensures (exists n: nat :: StopsAfter(input, n)) <==> HasExit(Lines(input))
  {
    hide Words, Lines, LineAt, IsExit;
    if n: nat :| StopsAfter(input, n) {
      StoppedIsSession(input, n);
    }
    if HasExit(Lines(input)) {
      var k :| 0 <= k < |Lines(input)| && IsExit(Lines(input)[k]);
      LineAtIs(input, k);
      var n := FirstExit(input, k);
    }
  }
}
