/**
 The mini-pipeline: a parent and two children connected by one pipe.

 Each process executes its own instruction list; a step of the system is one
 instruction of one process, so every interleaving of the three is a run. The
 kernel's part is the pipe (a bounded queue), end of file (nobody holds the write
 end) and the broken pipe (nobody holds the read end).
 */
module Pipeline {
  import opened Common
  import opened Descriptors

  const PIPE: nat := 0

  /** The next instruction of `run` in the parent. */
  datatype ParentPc =
    | CallPipe | Fork1 | Fork2 | CloseRead | CloseWrite | Wait1 | Wait2
    | Returned      // `run` returned 0
    | PipeFailed    // `pipe` failed and the process exited with 1

  /** The next instruction of a child; both children run dup2, close, close, exec. */
  datatype ChildPc = Unborn | Dup | CloseA | CloseB | Exec | Running | Exited

  datatype Child = Child(pc: ChildPc, fds: FdTable)

  /**
   What the environment brings: the descriptors the program starts with, what cmd1
   writes before it exits, how many bytes cmd2 wants before it exits (`None`: it reads
   to end of file), whether each exec succeeds, and the capacity of the pipe.
   */
  datatype Config = Config(
    base: FdTable, payload: seq<byte>, limit: Option<nat>,
    exec1: bool, exec2: bool, capacity: nat)

  ghost predicate ValidConfig(c: Config) {
    Initial(c.base) && c.capacity >= 1
  }

  datatype State = State(
    parent: ParentPc, pfds: FdTable, r: nat, w: nat,
    c1: Child, c2: Child,
    queue: seq<byte>,   // bytes in the pipe
    todo: seq<byte>,    // bytes cmd1 has still to write
    got: seq<byte>)     // bytes cmd2 has read

  function Init(c: Config): State {
    State(CallPipe, c.base, 0, 0, Child(Unborn, NoFds), Child(Unborn, NoFds), [], c.payload, [])
  }

  /** One instruction of one process. */
  datatype Action =
    | PipeOk(r: nat, w: nat) | PipeFails
    | ParentStep               // the parent's next fork, close or waitpid
    | Setup1 | Setup2          // a child's next dup2, close or exec
    | Write(n: nat)            // cmd1's write moves n bytes into the pipe
    | BrokenPipe               // cmd1's write finds no reader: SIGPIPE
    | Exit1
    | Read(n: nat)             // cmd2's read returns n bytes
    | EndOfFile                // cmd2's read returns 0 and cmd2 exits
    | Exit2                    // cmd2 has what it wants

  ghost predicate SomeoneHolds(s: State, f: OpenFile) {
    Holds(s.pfds, f) || Holds(s.c1.fds, f) || Holds(s.c2.fds, f)
  }

  predicate Sated(c: Config, s: State) {
    c.limit.Some? && c.limit.value <= |s.got|
  }

  predicate StdoutIsPipe(s: State) {
    STDOUT in s.c1.fds && s.c1.fds[STDOUT] == WriteEnd(PIPE)
  }

  predicate StdinIsPipe(s: State) {
    STDIN in s.c2.fds && s.c2.fds[STDIN] == ReadEnd(PIPE)
  }

  ghost predicate Enabled(c: Config, s: State, a: Action) {
    match a
    case PipeOk(r, w) => s.parent == CallPipe && r != w && r !in s.pfds && w !in s.pfds
    case PipeFails => s.parent == CallPipe
    case ParentStep =>
      (match s.parent
       case Fork1 => true
       case Fork2 => true
       case CloseRead => true
       case CloseWrite => true
       case Wait1 => s.c1.pc == Exited
       case Wait2 => s.c2.pc == Exited
       case _ => false)
    case Setup1 => s.c1.pc in {Dup, CloseA, CloseB, Exec}
    case Setup2 => s.c2.pc in {Dup, CloseA, CloseB, Exec}
    case Write(n) =>
      && s.c1.pc == Running && StdoutIsPipe(s) && SomeoneHolds(s, ReadEnd(PIPE))
      && 1 <= n <= |s.todo| && |s.queue| + n <= c.capacity
    case BrokenPipe =>
      s.c1.pc == Running && StdoutIsPipe(s) && s.todo != [] && !SomeoneHolds(s, ReadEnd(PIPE))
    case Exit1 => s.c1.pc == Running && s.todo == []
    case Read(n) =>
      s.c2.pc == Running && StdinIsPipe(s) && !Sated(c, s) && 1 <= n <= |s.queue|
    case EndOfFile =>
      && s.c2.pc == Running && StdinIsPipe(s) && !Sated(c, s)
      && s.queue == [] && !SomeoneHolds(s, WriteEnd(PIPE))
    case Exit2 => s.c2.pc == Running && Sated(c, s)
  }

  function ForkChild(fds: FdTable): Child {
    Child(Dup, fds)
  }

  function ExitProcess(): Child {
    Child(Exited, NoFds)
  }

  function StepParent(s: State): State {
    match s.parent
    case Fork1 => s.(parent := Fork2, c1 := ForkChild(s.pfds))
    case Fork2 => s.(parent := CloseRead, c2 := ForkChild(s.pfds))
    case CloseRead => s.(parent := CloseWrite, pfds := Close(s.pfds, s.r))
    case CloseWrite => s.(parent := Wait1, pfds := Close(s.pfds, s.w))
    case Wait1 => s.(parent := Wait2)
    case Wait2 => s.(parent := Returned, pfds := NoFds)
    case _ => s
  }

  /** The three setup calls of a child and its exec: dup2(from, to), close(a), close(b), execl. */
  function StepChild(k: Child, from: nat, to: nat, a: nat, b: nat, execOk: bool): Child {
    match k.pc
    case Dup => Child(CloseA, Dup2(k.fds, from, to))
    case CloseA => Child(CloseB, Close(k.fds, a))
    case CloseB => Child(Exec, Close(k.fds, b))
    case Exec => if execOk then Child(Running, k.fds) else ExitProcess()
    case _ => k
  }

  ghost function Do(c: Config, s: State, a: Action): State
    requires Enabled(c, s, a)
  {
    match a
    case PipeOk(r, w) =>
      s.(parent := Fork1, r := r, w := w, pfds := s.pfds[r := ReadEnd(PIPE)][w := WriteEnd(PIPE)])
    case PipeFails => s.(parent := PipeFailed, pfds := NoFds)
    case ParentStep => StepParent(s)
    case Setup1 => s.(c1 := StepChild(s.c1, s.w, STDOUT, s.r, s.w, c.exec1))
    case Setup2 => s.(c2 := StepChild(s.c2, s.r, STDIN, s.w, s.r, c.exec2))
    case Write(n) => s.(queue := s.queue + s.todo[..n], todo := s.todo[n..])
    case BrokenPipe => s.(c1 := ExitProcess())
    case Exit1 => s.(c1 := ExitProcess())
    case Read(n) => s.(got := s.got + s.queue[..n], queue := s.queue[n..])
    case EndOfFile => s.(c2 := ExitProcess())
    case Exit2 => s.(c2 := ExitProcess())
  }

  ghost predicate Step(c: Config, s: State, t: State) {
    exists a :: Enabled(c, s, a) && Do(c, s, a) == t
  }

  ghost predicate CanStep(c: Config, s: State) {
    exists a :: Enabled(c, s, a)
  }

  /** A run: starts in the initial state and takes one step at a time. */
  ghost predicate IsRun(c: Config, run: seq<State>) {
    && run != [] && run[0] == Init(c)
    && (forall i :: 0 <= i < |run| - 1 ==> Step(c, run[i], run[i + 1]))
  }

  predicate Final(s: State) {
    s.parent == Returned || s.parent == PipeFailed
  }

  // ---------------------------------------------------------------- invariant

  function WithPipe(c: Config, s: State): FdTable {
    c.base[s.r := ReadEnd(PIPE)][s.w := WriteEnd(PIPE)]
  }

  /** What each process's table holds at each instruction. */
  function ParentTable(c: Config, s: State): FdTable {
    match s.parent
    case CallPipe => c.base
    case Fork1 => WithPipe(c, s)
    case Fork2 => WithPipe(c, s)
    case CloseRead => WithPipe(c, s)
    case CloseWrite => c.base[s.w := WriteEnd(PIPE)]
    case Wait1 => c.base
    case Wait2 => c.base
    case Returned => NoFds
    case PipeFailed => NoFds
  }

  function Child1Table(c: Config, s: State): FdTable {
    match s.c1.pc
    case Unborn => NoFds
    case Dup => WithPipe(c, s)
    case CloseA => WithPipe(c, s)[STDOUT := WriteEnd(PIPE)]
    case CloseB => c.base[STDOUT := WriteEnd(PIPE)][s.w := WriteEnd(PIPE)]
    case Exec => c.base[STDOUT := WriteEnd(PIPE)]
    case Running => c.base[STDOUT := WriteEnd(PIPE)]
    case Exited => NoFds
  }

  function Child2Table(c: Config, s: State): FdTable {
    match s.c2.pc
    case Unborn => NoFds
    case Dup => WithPipe(c, s)
    case CloseA => WithPipe(c, s)[STDIN := ReadEnd(PIPE)]
    case CloseB => c.base[STDIN := ReadEnd(PIPE)][s.r := ReadEnd(PIPE)]
    case Exec => c.base[STDIN := ReadEnd(PIPE)]
    case Running => c.base[STDIN := ReadEnd(PIPE)]
    case Exited => NoFds
  }

  ghost predicate TablesInv(c: Config, s: State) {
    && s.pfds == ParentTable(c, s)
    && s.c1.fds == Child1Table(c, s)
    && s.c2.fds == Child2Table(c, s)
    && (!s.parent.CallPipe? && !s.parent.PipeFailed? ==>
          s.r != s.w && s.r !in c.base && s.w !in c.base)
  }

  /** Which instructions of the three processes can be current at the same time. */
  ghost predicate OrderInv(s: State) {
    && (s.c1.pc.Unborn? <==> s.parent in {CallPipe, PipeFailed, Fork1})
    && (s.c2.pc.Unborn? <==> s.parent in {CallPipe, PipeFailed, Fork1, Fork2})
    && (s.parent in {Wait2, Returned} ==> s.c1.pc.Exited?)
    && (s.parent.Returned? ==> s.c2.pc.Exited?)
  }

  /** Conservation of the bytes, and why a child that has exited did so. */
  ghost predicate DataInv(c: Config, s: State) {
    && s.got + s.queue + s.todo == c.payload
    && |s.queue| <= c.capacity
    && (s.c1.pc.Exited? ==> s.todo == [] || !c.exec1 || s.c2.pc.Exited?)
    && (s.c2.pc.Exited? ==>
          !c.exec2 || Sated(c, s) || (s.c1.pc.Exited? && s.queue == [] && (s.todo == [] || !c.exec1)))
  }

  ghost predicate Inv(c: Config, s: State) {
    TablesInv(c, s) && OrderInv(s) && DataInv(c, s)
  }

  // ------------------------------------------------------------ who holds what

  lemma HoldersParent(c: Config, s: State)
    requires ValidConfig(c) && TablesInv(c, s)
    ensures Holds(s.pfds, ReadEnd(PIPE)) <==> s.parent in {Fork1, Fork2, CloseRead}
    ensures Holds(s.pfds, WriteEnd(PIPE)) <==> s.parent in {Fork1, Fork2, CloseRead, CloseWrite}
  {
    if s.parent in {Fork1, Fork2, CloseRead} {
      assert s.r in s.pfds && s.pfds[s.r] == ReadEnd(PIPE);
    }
    if s.parent in {Fork1, Fork2, CloseRead, CloseWrite} {
      assert s.w in s.pfds && s.pfds[s.w] == WriteEnd(PIPE);
    }
  }

  lemma HoldersChild1(c: Config, s: State)
    requires ValidConfig(c) && TablesInv(c, s) && OrderInv(s)
    ensures Holds(s.c1.fds, ReadEnd(PIPE)) <==> s.c1.pc in {Dup, CloseA}
    ensures Holds(s.c1.fds, WriteEnd(PIPE)) <==> s.c1.pc in {Dup, CloseA, CloseB, Exec, Running}
  {
    var t := s.c1.fds;
    if s.c1.pc in {Dup, CloseA} {
      assert s.r in t && t[s.r] == ReadEnd(PIPE);
      assert s.w in t && t[s.w] == WriteEnd(PIPE);
    } else if s.c1.pc in {CloseB, Exec, Running} {
      assert STDOUT in t && t[STDOUT] == WriteEnd(PIPE);
    }
  }

  lemma HoldersChild2(c: Config, s: State)
    requires ValidConfig(c) && TablesInv(c, s) && OrderInv(s)
    ensures Holds(s.c2.fds, ReadEnd(PIPE)) <==> s.c2.pc in {Dup, CloseA, CloseB, Exec, Running}
    ensures Holds(s.c2.fds, WriteEnd(PIPE)) <==> s.c2.pc in {Dup, CloseA}
  {
    var t := s.c2.fds;
    if s.c2.pc in {Dup, CloseA} {
      assert s.r in t && t[s.r] == ReadEnd(PIPE);
      assert s.w in t && t[s.w] == WriteEnd(PIPE);
    } else if s.c2.pc in {CloseB, Exec, Running} {
      assert STDIN in t && t[STDIN] == ReadEnd(PIPE);
    }
  }

  // ------------------------------------------------- every step keeps the invariant

  lemma ParentKeepsTables(c: Config, s: State, a: Action)
    requires ValidConfig(c) && TablesInv(c, s) && OrderInv(s) && Enabled(c, s, a)
    requires a.ParentStep? || a.PipeOk? || a.PipeFails?
    ensures TablesInv(c, Do(c, s, a))
  {
    var t := Do(c, s, a);
    assert t.pfds == ParentTable(c, t);
  }

  lemma Setup1KeepsTables(c: Config, s: State)
    requires ValidConfig(c) && TablesInv(c, s) && OrderInv(s) && Enabled(c, s, Setup1)
    ensures TablesInv(c, Do(c, s, Setup1))
  {
    var t := Do(c, s, Setup1);
    assert t.c1.fds == Child1Table(c, t);
  }

  lemma Setup2KeepsTables(c: Config, s: State)
    requires ValidConfig(c) && TablesInv(c, s) && OrderInv(s) && Enabled(c, s, Setup2)
    ensures TablesInv(c, Do(c, s, Setup2))
  {
    var t := Do(c, s, Setup2);
    assert t.c2.fds == Child2Table(c, t);
  }

  lemma StepKeepsTables(c: Config, s: State, a: Action)
    requires ValidConfig(c) && TablesInv(c, s) && OrderInv(s) && Enabled(c, s, a)
    ensures TablesInv(c, Do(c, s, a))
  {
    if a.ParentStep? || a.PipeOk? || a.PipeFails? {
      ParentKeepsTables(c, s, a);
    } else if a.Setup1? {
      Setup1KeepsTables(c, s);
    } else if a.Setup2? {
      Setup2KeepsTables(c, s);
    }
  }

  /** Bytes only move: from `todo` to the pipe, from the pipe to `got`. */
  lemma StepConserves(c: Config, s: State, a: Action)
    requires Enabled(c, s, a)
    ensures Do(c, s, a).got + Do(c, s, a).queue + Do(c, s, a).todo == s.got + s.queue + s.todo
  {
    if a.Write? {
      assert s.todo == s.todo[..a.n] + s.todo[a.n..];
    } else if a.Read? {
      assert s.queue == s.queue[..a.n] + s.queue[a.n..];
    }
  }

  lemma StepKeepsData(c: Config, s: State, a: Action)
    requires ValidConfig(c) && Inv(c, s) && Enabled(c, s, a)
    ensures DataInv(c, Do(c, s, a))
  {
    StepConserves(c, s, a);
    if a.BrokenPipe? || a.EndOfFile? {
      HoldersParent(c, s);
      HoldersChild1(c, s);
      HoldersChild2(c, s);
    }
  }

  lemma StepKeepsInv(c: Config, s: State, a: Action)
    requires ValidConfig(c) && Inv(c, s) && Enabled(c, s, a)
    ensures Inv(c, Do(c, s, a))
  {
    StepKeepsTables(c, s, a);
    StepKeepsData(c, s, a);
  }

  /** Every state of every run satisfies the invariant. */
  lemma {:induction false} RunInvariant(c: Config, run: seq<State>, i: nat)
    requires ValidConfig(c) && IsRun(c, run) && i < |run|
    ensures Inv(c, run[i])
  {
    if i > 0 {
      RunInvariant(c, run, i - 1);
      assert Step(c, run[i - 1], run[i - 1 + 1]);
      var a :| Enabled(c, run[i - 1], a) && Do(c, run[i - 1], a) == run[i];
      StepKeepsInv(c, run[i - 1], a);
    }
  }

  // ------------------------------------------------------------------- theorems

  /** The bytes of cmd1 that have left it: what it was to write, less what it has still to write. */
  function Written(c: Config, s: State): seq<byte>
    requires |s.todo| <= |c.payload|
  {
    c.payload[..|c.payload| - |s.todo|]
  }

  /**
   Conservation: in every reachable state what cmd2 has read followed by what is still
   in the pipe is exactly what cmd1 has written, and the pipe is never over capacity.
   */
  lemma BytesConserved(c: Config, run: seq<State>, i: nat)
    requires ValidConfig(c) && IsRun(c, run) && i < |run|
    ensures |run[i].todo| <= |c.payload|
    ensures run[i].got + run[i].queue == Written(c, run[i])
    ensures |run[i].queue| <= c.capacity
  {
    RunInvariant(c, run, i);
    var s := run[i];
    assert |c.payload| == |s.got + s.queue| + |s.todo|;
    assert (s.got + s.queue + s.todo)[..|s.got + s.queue|] == s.got + s.queue;
  }

  /**
   Once the parent has closed its copies and both children are past their closes, child 1's
   stdout is the only descriptor on the write end and child 2's stdin the only one on the
   read end.
   */
  lemma OnlyTheStandardStreamsRemain(c: Config, run: seq<State>, i: nat, fd: nat)
    requires ValidConfig(c) && IsRun(c, run) && i < |run|
    requires run[i].parent in {Wait1, Wait2}
    requires run[i].c1.pc in {Exec, Running} && run[i].c2.pc in {Exec, Running}
    ensures fd in run[i].pfds ==> run[i].pfds[fd].Inherited?
    ensures fd in run[i].c1.fds ==>
              !run[i].c1.fds[fd].ReadEnd? && (run[i].c1.fds[fd].WriteEnd? <==> fd == STDOUT)
    ensures fd in run[i].c2.fds ==>
              !run[i].c2.fds[fd].WriteEnd? && (run[i].c2.fds[fd].ReadEnd? <==> fd == STDIN)
    ensures StdoutIsPipe(run[i]) && StdinIsPipe(run[i])
  {
    RunInvariant(c, run, i);
  }

  /** A full pipe with a reader: the reader can move. */
  lemma ReaderMoves(c: Config, s: State)
    requires ValidConfig(c) && Inv(c, s) && s.parent.Wait1?
    requires s.queue != [] && s.c2.pc in {Dup, CloseA, CloseB, Exec, Running}
    ensures CanStep(c, s)
  {
    if s.c2.pc.Running? {
      assert Enabled(c, s, Exit2) || Enabled(c, s, Read(1));
    } else {
      assert Enabled(c, s, Setup2);
    }
  }

  lemma Child1OrReaderMoves(c: Config, s: State)
    requires ValidConfig(c) && Inv(c, s) && s.parent.Wait1?
    ensures CanStep(c, s)
  {
    HoldersParent(c, s);
    HoldersChild1(c, s);
    HoldersChild2(c, s);
    if s.c1.pc.Exited? {
      assert Enabled(c, s, ParentStep);
    } else if !s.c1.pc.Running? {
      assert Enabled(c, s, Setup1);
    } else if s.todo == [] {
      assert Enabled(c, s, Exit1);
    } else if !SomeoneHolds(s, ReadEnd(PIPE)) {
      assert Enabled(c, s, BrokenPipe);
    } else if |s.queue| < c.capacity {
      assert Enabled(c, s, Write(1));
    } else {
      ReaderMoves(c, s);
    }
  }

  lemma Child2Moves(c: Config, s: State)
    requires ValidConfig(c) && Inv(c, s) && s.parent.Wait2?
    ensures CanStep(c, s)
  {
    HoldersParent(c, s);
    HoldersChild1(c, s);
    HoldersChild2(c, s);
    if s.c2.pc.Exited? {
      assert Enabled(c, s, ParentStep);
    } else if s.c2.pc.Running? {
      assert Enabled(c, s, Exit2) || Enabled(c, s, Read(1)) || Enabled(c, s, EndOfFile);
    } else {
      assert Enabled(c, s, Setup2);
    }
  }

  /** In a state of the invariant that is not final, some process can move. */
  lemma NotStuck(c: Config, s: State)
    requires ValidConfig(c) && Inv(c, s) && !Final(s)
    ensures CanStep(c, s)
  {
    if s.parent.CallPipe? {
      assert Enabled(c, s, PipeFails);
    } else if s.parent.Wait1? {
      Child1OrReaderMoves(c, s);
    } else if s.parent.Wait2? {
      Child2Moves(c, s);
    } else {
      assert Enabled(c, s, ParentStep);
    }
  }

  // ---------------------------------------------------------------- termination

  function ParentLeft(pc: ParentPc): nat {
    match pc
    case CallPipe => 7
    case Fork1 => 6
    case Fork2 => 5
    case CloseRead => 4
    case CloseWrite => 3
    case Wait1 => 2
    case Wait2 => 1
    case Returned => 0
    case PipeFailed => 0
  }

  function ChildLeft(pc: ChildPc): nat {
    match pc
    case Unborn => 6
    case Dup => 5
    case CloseA => 4
    case CloseB => 3
    case Exec => 2
    case Running => 1
    case Exited => 0
  }

  /** Instructions left in the three processes, with each unwritten byte counted twice and each queued byte once. */
  function Measure(s: State): nat {
    ParentLeft(s.parent) + ChildLeft(s.c1.pc) + ChildLeft(s.c2.pc) + 2 * |s.todo| + |s.queue|
  }

  lemma StepDecreases(c: Config, s: State, a: Action)
    requires OrderInv(s) && Enabled(c, s, a)
    ensures Measure(Do(c, s, a)) < Measure(s)
  {
  }

  lemma InitialMeasure(c: Config)
    ensures Measure(Init(c)) == 19 + 2 * |c.payload|
  {
  }

  lemma StepIsProgress(c: Config, s: State, t: State)
    requires OrderInv(s) && Step(c, s, t)
    ensures Measure(t) < Measure(s)
  {
    var a :| Enabled(c, s, a) && Do(c, s, a) == t;
    StepDecreases(c, s, a);
  }

  /** Every run is finite: its length is bounded by the size of the payload. */
  lemma {:induction false} RunsAreBounded(c: Config, run: seq<State>)
    requires ValidConfig(c) && IsRun(c, run)
    ensures |run| + Measure(run[|run| - 1]) <= 20 + 2 * |c.payload|
    decreases |run|
  {
    hide Step, Measure, TablesInv, OrderInv, DataInv;
    var n := |run|;
    if n == 1 {
      InitialMeasure(c);
    } else {
      var prefix := run[..n - 1];
      assert forall i :: 0 <= i < |prefix| ==> prefix[i] == run[i];
      RunsAreBounded(c, prefix);
      RunInvariant(c, run, n - 2);
      assert Step(c, run[n - 2], run[n - 2 + 1]);
      StepIsProgress(c, run[n - 2], run[n - 1]);
    }
  }

  /** Only a command that could be executed runs, writes and reads. */
  ghost predicate ExecInv(c: Config, s: State) {
    && (s.c1.pc.Running? ==> c.exec1) && (!c.exec1 ==> s.todo == c.payload)
    && (s.c2.pc.Running? ==> c.exec2) && (!c.exec2 ==> s.got == [])
  }

  lemma ActionKeepsExec1(c: Config, s: State, a: Action)
    requires ExecInv(c, s) && Enabled(c, s, a)
    ensures (Do(c, s, a).c1.pc.Running? ==> c.exec1) && (!c.exec1 ==> Do(c, s, a).todo == c.payload)
  {
    hide SomeoneHolds, Sated, StdoutIsPipe, StdinIsPipe, Dup2, Close;
  }

  lemma ActionKeepsExec2(c: Config, s: State, a: Action)
    requires ExecInv(c, s) && Enabled(c, s, a)
    ensures (Do(c, s, a).c2.pc.Running? ==> c.exec2) && (!c.exec2 ==> Do(c, s, a).got == [])
  {
    hide SomeoneHolds, Sated, StdoutIsPipe, StdinIsPipe, Dup2, Close;
  }

  lemma StepKeepsExecs(c: Config, s: State, t: State)
    requires ExecInv(c, s) && Step(c, s, t)
    ensures ExecInv(c, t)
  {
    hide Do, Enabled;
    var a :| Enabled(c, s, a) && Do(c, s, a) == t;
    ActionKeepsExec1(c, s, a);
    ActionKeepsExec2(c, s, a);
  }

  lemma {:induction false} RunExecs(c: Config, run: seq<State>, i: nat)
    requires IsRun(c, run) && i < |run|
    ensures ExecInv(c, run[i])
  {
    hide Step;
    if i > 0 {
      RunExecs(c, run, i - 1);
      assert Step(c, run[i - 1], run[i - 1 + 1]);
      StepKeepsExecs(c, run[i - 1], run[i]);
    }
  }

  /**
   No deadlock and the right outcome. A run that cannot be extended has ended in a final
   state; if `run` returned and both commands were executed, both children have exited, cmd2
   has read a prefix of what cmd1 wrote, and it has read all of it unless it had as much as it
   wanted before. If a command cannot be executed, nothing is read.
   */
  lemma MaximalRunsComplete(c: Config, run: seq<State>)
    requires ValidConfig(c) && IsRun(c, run)
    requires !CanStep(c, run[|run| - 1])
    ensures Final(run[|run| - 1])
    ensures run[|run| - 1].got <= c.payload
    ensures run[|run| - 1].parent.Returned? ==>
              run[|run| - 1].c1.pc.Exited? && run[|run| - 1].c2.pc.Exited?
    ensures run[|run| - 1].parent.Returned? && c.exec1 && c.exec2 ==>
              run[|run| - 1].got == c.payload || (c.limit.Some? && |run[|run| - 1].got| >= c.limit.value)
    ensures !c.exec1 || !c.exec2 ==> run[|run| - 1].got == []
  {
    var s := run[|run| - 1];
    RunInvariant(c, run, |run| - 1);
    RunExecs(c, run, |run| - 1);
    if !Final(s) {
      NotStuck(c, s);
    }
    assert s.got <= s.got + s.queue + s.todo;
    if s.queue == [] && s.todo == [] {
      assert s.got + s.queue + s.todo == s.got;
    }
  }
}
