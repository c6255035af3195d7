/**
 The parallel runner: a parent that forks one child for each of the first MAX commands, each with
 its own pipe, then reaps the children in any order in which they have ended and reads each one's pipe.

 A step of the system is one instruction of one process. Descriptor numbers and process
 ids are the kernel's choice: any numbers not in use.
 */
module Runner {
  import opened Common
  import opened Descriptors

  const MAX: nat := 10
  const BUFFER: nat := 1024

  /** The next instruction of the parent; `i` is the command, `k` the round of the reaping loop. */
  datatype ParentPc =
    | CallPipe(i: nat) | CallFork(i: nat) | CloseWrite(i: nat)
    | CallWait(k: nat) | CallRead(k: nat, i: nat) | CloseRead(k: nat, i: nat)
    | Done
    | Overrun   // waitpid found no child, and the arrays are read out of bounds

  datatype ChildPc = Dup | CloseA | CloseB | Running | Zombie | Reaped

  /** `todo` is what the command has still to write; a command that fails to exec writes nothing. */
  datatype Child = Child(pc: ChildPc, fds: FdTable, todo: seq<byte>)

  datatype Report = Report(index: nat, bytes: seq<byte>)

  datatype Config = Config(base: FdTable, outs: seq<seq<byte>>, capacity: nat)

  ghost predicate ValidConfig(c: Config) {
    Initial(c.base) && |c.outs| >= 1 && c.capacity >= 1
  }

  /** How many commands are started: the first MAX. */
  function Forks(c: Config): (n: nat)
    ensures n <= |c.outs| && n <= MAX
  {
    Min(|c.outs|, MAX)
  }

  /** The whole output of command i fits in a pipe. */
  predicate Fits(c: Config, i: nat) {
    i < |c.outs| && |c.outs[i]| <= c.capacity
  }

  /** So does that of every command started, of which there are at most ten. */
  ghost predicate AllFit(c: Config) {
    forall i :: 0 <= i < |c.outs| && i < 10 ==> Fits(c, i)
  }

  datatype State = State(
    pc: ParentPc, pfds: FdTable,
    rfd: seq<nat>, wfd: seq<nat>,   // pipes[i][0] and pipes[i][1]
    pids: seq<nat>,
    kids: seq<Child>,
    queue: seq<seq<byte>>,          // the bytes in each pipe
    waited: seq<nat>,               // what waitpid has returned so far
    reports: seq<Report>)           // what has been printed so far

  function Init(c: Config): State {
    State(CallPipe(0), c.base, [], [], [], [], [], [], [])
  }

  datatype Action =
    | Pipe(r: nat, w: nat)
    | Fork(pid: nat)
    | ParentStep            // the parent's next close
    | Wait(j: nat)          // waitpid returns child j
    | NoChild               // waitpid returns -1
    | ReadPipe              // the parent's read returns
    | Setup(j: nat)         // child j's next dup2 or close
    | Write(j: nat, n: nat)
    | BrokenPipe(j: nat)
    | Exit(j: nat)

  ghost predicate SomeoneHolds(s: State, f: OpenFile) {
    Holds(s.pfds, f) || exists j :: 0 <= j < |s.kids| && Holds(s.kids[j].fds, f)
  }

  /** The first index whose pid is the one waitpid returned; -1 when there is none. */
  function IndexOf(pids: seq<nat>, pid: nat): (i: int)
    ensures -1 <= i < |pids|
    ensures i >= 0 ==> pids[i] == pid && forall j :: 0 <= j < i ==> pids[j] != pid
    ensures i == -1 ==> pid !in pids
  {
    if pids == [] then -1
    else if pids[0] == pid then 0
    else
      var i := IndexOf(pids[1..], pid);
      assert pids == [pids[0]] + pids[1..];
      if i == -1 then -1 else i + 1
  }

  /**
   The scan of the array `pids` for what waitpid returned, with the number of commands as its bound.
   It leaves the array exactly when there are more commands than entries and none of them matches.
   */
  method FindIndex(pids: seq<nat>, commands: nat, done: int) returns (i: int, overrun: bool)
    ensures overrun <==> commands > |pids| && (done < 0 || done !in pids)
    ensures !overrun && done >= 0 ==> i == IndexOf(pids[..Min(commands, |pids|)], done)
    ensures !overrun && done < 0 ==> i == -1
  {
    i, overrun := -1, false;
    var j := 0;
    while j < commands
      invariant 0 <= j <= commands && j <= |pids|
      invariant forall k :: 0 <= k < j ==> pids[k] != done
    {
      if j == |pids| {
        return -1, true;
      }
      if pids[j] == done {
        i := j;
        break;
      }
      j := j + 1;
    }
  }

  predicate CanWrite(s: State, j: nat) {
    && j < |s.kids| && j < |s.queue| && s.kids[j].pc.Running?
    && STDOUT in s.kids[j].fds && s.kids[j].fds[STDOUT] == WriteEnd(j)
  }

  ghost predicate Enabled(c: Config, s: State, a: Action) {
    match a
    case Pipe(r, w) => s.pc.CallPipe? && r != w && r !in s.pfds && w !in s.pfds
    case Fork(pid) => s.pc.CallFork? && pid !in s.pids
    case ParentStep =>
      || (s.pc.CloseWrite? && s.pc.i < |s.wfd|)
      || (s.pc.CloseRead? && s.pc.i < |s.rfd|)
    case Wait(j) => s.pc.CallWait? && j < |s.kids| && j < |s.pids| && s.kids[j].pc.Zombie?
    case NoChild => s.pc.CallWait? && forall j :: 0 <= j < |s.kids| ==> s.kids[j].pc.Reaped?
    case ReadPipe =>
      && s.pc.CallRead? && s.pc.i < |s.rfd| && s.pc.i < |s.queue|
      && s.rfd[s.pc.i] in s.pfds && s.pfds[s.rfd[s.pc.i]] == ReadEnd(s.pc.i)
      && (s.queue[s.pc.i] != [] || !SomeoneHolds(s, WriteEnd(s.pc.i)))
    case Setup(j) => j < |s.kids| && s.kids[j].pc in {Dup, CloseA, CloseB} && j < |s.rfd| && j < |s.wfd|
    case Write(j, n) =>
      && CanWrite(s, j) && SomeoneHolds(s, ReadEnd(j))
      && 1 <= n <= |s.kids[j].todo| && |s.queue[j]| + n <= c.capacity
    case BrokenPipe(j) => CanWrite(s, j) && !SomeoneHolds(s, ReadEnd(j)) && s.kids[j].todo != []
    case Exit(j) => j < |s.kids| && s.kids[j].pc.Running? && s.kids[j].todo == []
  }

  function StepChild(k: Child, r: nat, w: nat): Child {
    match k.pc
    case Dup => k.(pc := CloseA, fds := Dup2(k.fds, w, STDOUT))
    case CloseA => k.(pc := CloseB, fds := Close(k.fds, r))
    case CloseB => k.(pc := Running, fds := Close(k.fds, w))
    case _ => k
  }

  function ExitProcess(k: Child): Child {
    k.(pc := Zombie, fds := NoFds)
  }

  ghost function Do(c: Config, s: State, a: Action): State
    requires ValidConfig(c) && Enabled(c, s, a)
  {
    match a
    case Pipe(r, w) =>
      s.(pc := CallFork(s.pc.i),
         pfds := s.pfds[r := ReadEnd(s.pc.i)][w := WriteEnd(s.pc.i)],
         rfd := s.rfd + [r], wfd := s.wfd + [w], queue := s.queue + [[]])
    case Fork(pid) =>
      s.(pc := CloseWrite(s.pc.i), pids := s.pids + [pid],
         kids := s.kids + [Child(Dup, s.pfds, if s.pc.i < |c.outs| then c.outs[s.pc.i] else [])])
    case ParentStep =>
      if s.pc.CloseWrite? then
        s.(pc := if s.pc.i + 1 < Forks(c) then CallPipe(s.pc.i + 1) else CallWait(0),
           pfds := Close(s.pfds, s.wfd[s.pc.i]))
      else
        s.(pc := if s.pc.k + 1 < |c.outs| then CallWait(s.pc.k + 1) else Done,
           pfds := Close(s.pfds, s.rfd[s.pc.i]))
    case Wait(j) =>
      var i := IndexOf(s.pids, s.pids[j]);
      s.(pc := CallRead(s.pc.k, i), waited := s.waited + [s.pids[j]],
         kids := s.kids[j := s.kids[j].(pc := Reaped)])
    case NoChild => s.(pc := Overrun)
    case ReadPipe =>
      var i := s.pc.i;
      var n := Min(BUFFER, |s.queue[i]|);
      s.(pc := CloseRead(s.pc.k, i),
         queue := s.queue[i := s.queue[i][n..]],
         reports := s.reports + [Report(i, s.queue[i][..n])])
    case Setup(j) => s.(kids := s.kids[j := StepChild(s.kids[j], s.rfd[j], s.wfd[j])])
    case Write(j, n) =>
      s.(queue := s.queue[j := s.queue[j] + s.kids[j].todo[..n]],
         kids := s.kids[j := s.kids[j].(todo := s.kids[j].todo[n..])])
    case BrokenPipe(j) => s.(kids := s.kids[j := ExitProcess(s.kids[j])])
    case Exit(j) => s.(kids := s.kids[j := ExitProcess(s.kids[j])])
  }

  ghost predicate Step(c: Config, s: State, t: State)
    requires ValidConfig(c)
  {
    exists a :: Enabled(c, s, a) && Do(c, s, a) == t
  }

  ghost predicate CanStep(c: Config, s: State) {
    exists a :: Enabled(c, s, a)
  }

  ghost predicate IsRun(c: Config, run: seq<State>)
    requires ValidConfig(c)
  {
    && run != [] && run[0] == Init(c)
    && (forall i :: 0 <= i < |run| - 1 ==> Step(c, run[i], run[i + 1]))
  }

  // ------------------------------------------------------------------ invariant

  /** How many pipes have been made and how many children forked. */
  function Piped(c: Config, s: State): nat {
    match s.pc
    case CallPipe(i) => i
    case CallFork(i) => i + 1
    case CloseWrite(i) => i + 1
    case _ => Forks(c)
  }

  function Forked(c: Config, s: State): nat {
    match s.pc
    case CallPipe(i) => i
    case CallFork(i) => i
    case CloseWrite(i) => i + 1
    case _ => Forks(c)
  }

  ghost predicate ShapeInv(c: Config, s: State) {
    && (s.pc.CallPipe? || s.pc.CallFork? || s.pc.CloseWrite? ==> s.pc.i < Forks(c))
    && (s.pc.CallWait? ==> s.pc.k < |c.outs|)
    && (s.pc.CallRead? || s.pc.CloseRead? ==> s.pc.k < |c.outs| && s.pc.i < Forks(c))
    && |s.rfd| == |s.wfd| == |s.queue| == Piped(c, s)
    && |s.pids| == |s.kids| == Forked(c, s)
    && (forall i, j :: 0 <= i < j < |s.pids| ==> s.pids[i] != s.pids[j])
  }

  /** The indices already reported, as a set. */
  function Reported(rs: seq<Report>): set<nat> {
    set x | x in rs :: x.index
  }

  /** The parent still has pipe i's read end open. */
  ghost predicate ReadOpen(s: State, i: nat) {
    i !in Reported(s.reports) || (s.pc.CloseRead? && s.pc.i == i)
  }

  /** The parent has no other read end, and nothing else that it did not have before. */
  ghost predicate ParentReadsOnly(c: Config, s: State) {
    && (forall fd :: fd in s.pfds && s.pfds[fd].ReadEnd? ==>
          && s.pfds[fd].pipe < |s.rfd| && fd == s.rfd[s.pfds[fd].pipe] && ReadOpen(s, s.pfds[fd].pipe))
    && (forall fd :: fd in s.pfds && s.pfds[fd].Inherited? ==> fd in c.base && s.pfds[fd] == c.base[fd])
  }

  /** The parent's own table: what it had, one read end per pipe, and at most one write end. */
  ghost predicate ParentHas(c: Config, s: State) {
    && (forall fd :: fd in c.base ==> fd in s.pfds && s.pfds[fd] == c.base[fd])
    && (forall i :: 0 <= i < |s.rfd| && ReadOpen(s, i) ==>
          s.rfd[i] in s.pfds && s.pfds[s.rfd[i]] == ReadEnd(i))
    && (s.pc.CallFork? || s.pc.CloseWrite? ==>
          s.pc.i < |s.wfd| && s.wfd[s.pc.i] in s.pfds && s.pfds[s.wfd[s.pc.i]] == WriteEnd(s.pc.i))
    && (forall fd :: fd in s.pfds && s.pfds[fd].WriteEnd? ==>
          && (s.pc.CallFork? || s.pc.CloseWrite?)
          && s.pfds[fd].pipe == s.pc.i && s.pc.i < |s.wfd| && fd == s.wfd[s.pc.i])
  }

  ghost predicate ParentInv(c: Config, s: State) {
    ParentHas(c, s) && ParentReadsOnly(c, s)
  }

  /** Where child j's write ends are: only its own pipe's, and after its setup only on stdout. */
  ghost predicate ChildInv(s: State, j: nat)
    requires j < |s.kids| && j < |s.wfd| && j < |s.rfd|
  {
    var k := s.kids[j];
    && s.rfd[j] != s.wfd[j] && s.rfd[j] != STDOUT && s.wfd[j] != STDOUT
    && (k.pc.Dup? ==> s.wfd[j] in k.fds && k.fds[s.wfd[j]] == WriteEnd(j))
    && (k.pc in {CloseA, CloseB, Running} ==> STDOUT in k.fds && k.fds[STDOUT] == WriteEnd(j))
    && (forall fd :: fd in k.fds && k.fds[fd].WriteEnd? ==>
          && k.fds[fd].pipe == j
          && (if k.pc.Dup? then fd == s.wfd[j]
              else if k.pc.Running? then fd == STDOUT
              else fd == s.wfd[j] || fd == STDOUT))
    && (forall fd :: fd in k.fds && k.fds[fd] == ReadEnd(j) ==> fd == s.rfd[j] && k.pc in {Dup, CloseA})
    && (k.pc in {Zombie, Reaped} ==> k.fds == NoFds)
  }

  /** Where child j's output is. */
  ghost predicate OutputInv(c: Config, s: State, j: nat)
    requires j < |s.kids| && j < |c.outs| && j < |s.queue|
  {
    var k := s.kids[j];
    && |s.queue[j]| <= c.capacity
    && (j !in Reported(s.reports) ==> s.queue[j] + k.todo == c.outs[j])
    && (k.pc in {Zombie, Reaped} ==> k.todo == [] && |c.outs[j]| <= c.capacity)
  }

  ghost predicate KidsInv(c: Config, s: State)
    requires ShapeInv(c, s)
  {
    && (forall j :: 0 <= j < |s.kids| ==> ChildInv(s, j))
    && (forall j :: 0 <= j < |s.kids| ==> OutputInv(c, s, j))
    && (s.pc.CallFork? ==>
          && s.queue[s.pc.i] == []
          && s.rfd[s.pc.i] != s.wfd[s.pc.i]
          && s.rfd[s.pc.i] != STDOUT && s.wfd[s.pc.i] != STDOUT)
  }

  /** The reports made so far are of distinct children, in reaping order, with their output. */
  ghost predicate ReportsOk(c: Config, s: State)
    requires ShapeInv(c, s)
  {
    && |s.reports| <= |s.waited|
    && (forall x, y :: 0 <= x < y < |s.reports| ==> s.reports[x].index != s.reports[y].index)
    && (forall x :: 0 <= x < |s.reports| ==>
          var r := s.reports[x];
          && r.index < |s.kids|
          && s.pids[r.index] == s.waited[x]
          && r.bytes == c.outs[r.index][..Min(BUFFER, |c.outs[r.index]|)])
  }

  /** Round of the reaping loop, number of reports made and children reaped agree. */
  ghost predicate ReapInv(c: Config, s: State)
    requires ShapeInv(c, s)
  {
    && |s.reports| == (if s.pc.CloseRead? then s.pc.k + 1
                       else if s.pc.CallWait? || s.pc.CallRead? then s.pc.k
                       else if s.pc.Done? then |c.outs|
                       else if s.pc.Overrun? then MAX else 0)
    && (s.pc.Overrun? ==> |c.outs| > MAX)
    && |s.waited| == |s.reports| + (if s.pc.CallRead? then 1 else 0)
    && (forall j :: 0 <= j < |s.kids| ==>
          (s.kids[j].pc.Reaped? <==> j in Reported(s.reports) || (s.pc.CallRead? && s.pc.i == j)))
    && (s.pc.CallRead? ==> s.pc.i !in Reported(s.reports) && s.waited[|s.waited| - 1] == s.pids[s.pc.i])
    && (s.pc.CloseRead? ==> s.pc.i in Reported(s.reports))
  }

  ghost predicate ReportInv(c: Config, s: State)
    requires ShapeInv(c, s)
  {
    ReportsOk(c, s) && ReapInv(c, s)
  }

  ghost predicate Inv(c: Config, s: State) {
    ShapeInv(c, s) && ParentInv(c, s) && KidsInv(c, s) && ReportInv(c, s)
  }

  // ------------------------------------------------------------ who holds what

  /** A child that has not been reaped finds the parent reading its pipe: no broken pipe. */
  lemma ParentReads(c: Config, s: State, j: nat)
    requires ValidConfig(c) && Inv(c, s) && j < |s.kids| && !s.kids[j].pc.Reaped?
    ensures Holds(s.pfds, ReadEnd(j))
  {
    assert ReadOpen(s, j);
    assert s.rfd[j] in s.pfds;
  }

  /** So no command is ever killed by writing to its pipe. */
  lemma NoBrokenPipe(c: Config, s: State, j: nat)
    requires ValidConfig(c) && Inv(c, s)
    ensures !Enabled(c, s, BrokenPipe(j))
  {
    if CanWrite(s, j) {
      ParentReads(c, s, j);
    }
  }

  /** Only the parent before its close, and child i before it ends, hold pipe i's write end. */
  lemma WritersOf(c: Config, s: State, i: nat)
    requires ValidConfig(c) && Inv(c, s)
    ensures Holds(s.pfds, WriteEnd(i)) ==> (s.pc.CallFork? || s.pc.CloseWrite?) && s.pc.i == i
    ensures forall j :: 0 <= j < |s.kids| && Holds(s.kids[j].fds, WriteEnd(i)) ==>
              j == i && !s.kids[j].pc.Zombie? && !s.kids[j].pc.Reaped?
  {
    forall j | 0 <= j < |s.kids| && Holds(s.kids[j].fds, WriteEnd(i))
      ensures j == i && !s.kids[j].pc.Zombie? && !s.kids[j].pc.Reaped?
    {
      assert ChildInv(s, j);
    }
  }

  // ------------------------------------------------- every step keeps the invariant

  /** The steps of a child. */
  predicate ByChild(a: Action) {
    a.Setup? || a.Write? || a.BrokenPipe? || a.Exit?
  }

  function StagesLeft(pc: ChildPc): nat {
    match pc
    case Dup => 5
    case CloseA => 4
    case CloseB => 3
    case Running => 2
    case Zombie => 1
    case Reaped => 0
  }

  /** A step of child j changes that child and what is in its pipe, and nothing else. */
  ghost predicate OnlyChildMoved(s: State, t: State, j: nat) {
    && j < |s.kids| && |t.kids| == |s.kids| && |t.queue| == |s.queue|
    && t == s.(kids := t.kids, queue := t.queue)
    && (forall i :: 0 <= i < |s.kids| && i != j ==> t.kids[i] == s.kids[i])
    && !s.kids[j].pc.Reaped? && !t.kids[j].pc.Reaped?
    && |t.kids[j].todo| + StagesLeft(t.kids[j].pc) < |s.kids[j].todo| + StagesLeft(s.kids[j].pc)
  }

  lemma ChildMoves(c: Config, s: State, a: Action)
    requires ValidConfig(c) && Enabled(c, s, a) && ByChild(a)
    ensures OnlyChildMoved(s, Do(c, s, a), a.j)
  {
    hide SomeoneHolds;
  }

  lemma ParentKeepsShape(c: Config, s: State, a: Action)
    requires ValidConfig(c) && ShapeInv(c, s) && Enabled(c, s, a) && !ByChild(a)
    ensures ShapeInv(c, Do(c, s, a))
  {
    hide SomeoneHolds;
  }

  lemma StepKeepsShape(c: Config, s: State, a: Action)
    requires ValidConfig(c) && ShapeInv(c, s) && Enabled(c, s, a)
    ensures ShapeInv(c, Do(c, s, a))
  {
    if ByChild(a) {
      hide Do, Enabled;
      ChildMoves(c, s, a);
    } else {
      ParentKeepsShape(c, s, a);
    }
  }

  lemma PipeKeepsHas(c: Config, s: State, r: nat, w: nat)
    requires ValidConfig(c) && ShapeInv(c, s) && ReportInv(c, s) && ParentHas(c, s) && Enabled(c, s, Pipe(r, w))
    ensures ParentHas(c, Do(c, s, Pipe(r, w)))
  {
  }

  lemma PipeKeepsReads(c: Config, s: State, r: nat, w: nat)
    requires ValidConfig(c) && ShapeInv(c, s) && ReportInv(c, s) && ParentReadsOnly(c, s)
    requires Enabled(c, s, Pipe(r, w))
    ensures ParentReadsOnly(c, Do(c, s, Pipe(r, w)))
  {
    hide ReportsOk;
    assert s.reports == [];
  }

  lemma CloseKeepsHas(c: Config, s: State)
    requires ValidConfig(c) && ShapeInv(c, s) && ReportInv(c, s) && ParentInv(c, s) && Enabled(c, s, ParentStep)
    ensures ParentHas(c, Do(c, s, ParentStep))
  {
    hide ReportsOk, ParentReadsOnly;
  }

  lemma CloseKeepsReads(c: Config, s: State)
    requires ValidConfig(c) && ShapeInv(c, s) && ReportInv(c, s) && ParentReadsOnly(c, s)
    requires Enabled(c, s, ParentStep)
    ensures ParentReadsOnly(c, Do(c, s, ParentStep))
  {
    hide ReportsOk;
  }

  lemma ReportedAppend(rs: seq<Report>, r: Report)
    ensures Reported(rs + [r]) == Reported(rs) + {r.index}
  {
    assert forall x :: x in rs + [r] <==> x in rs || x == r;
    forall i | i in Reported(rs) + {r.index}
      ensures i in Reported(rs + [r])
    {
      if i == r.index {
        assert r in rs + [r];
      } else {
        var x :| x in rs && x.index == i;
        assert x in rs + [r];
      }
    }
  }

  lemma ReadKeepsParent(c: Config, s: State)
    requires ValidConfig(c) && ShapeInv(c, s) && ReportInv(c, s) && ParentInv(c, s) && Enabled(c, s, ReadPipe)
    ensures ParentInv(c, Do(c, s, ReadPipe))
  {
    hide SomeoneHolds, ReportsOk;
    var t := Do(c, s, ReadPipe);
    assert t.reports == s.reports + [t.reports[|s.reports|]];
    ReportedAppend(s.reports, t.reports[|s.reports|]);
    assert forall i: nat :: ReadOpen(t, i) <==> ReadOpen(s, i);
  }

  /** The parent's table and its place in the loops are the same for the invariant on its table. */
  ghost predicate SameParent(s: State, t: State) {
    && t.pfds == s.pfds && t.rfd == s.rfd && t.wfd == s.wfd && t.reports == s.reports
    && (t.pc.CallFork? || t.pc.CloseWrite? <==> s.pc.CallFork? || s.pc.CloseWrite?)
    && (t.pc.CloseRead? <==> s.pc.CloseRead?)
    && (s.pc.CallFork? || s.pc.CloseWrite? || s.pc.CloseRead? ==> t.pc.i == s.pc.i)
  }

  lemma OtherLeavesParent(c: Config, s: State, a: Action)
    requires ValidConfig(c) && Enabled(c, s, a) && !a.Pipe? && !a.ParentStep? && !a.ReadPipe?
    ensures SameParent(s, Do(c, s, a))
  {
    hide SomeoneHolds;
  }

  lemma OtherKeepsParent(c: Config, s: State, a: Action)
    requires ValidConfig(c) && ParentInv(c, s) && Enabled(c, s, a)
    requires !a.Pipe? && !a.ParentStep? && !a.ReadPipe?
    ensures ParentInv(c, Do(c, s, a))
  {
    hide Do, Enabled;
    OtherLeavesParent(c, s, a);
    assert forall i: nat :: ReadOpen(Do(c, s, a), i) <==> ReadOpen(s, i);
  }

  lemma StepKeepsParent(c: Config, s: State, a: Action)
    requires ValidConfig(c) && Inv(c, s) && Enabled(c, s, a)
    ensures ParentInv(c, Do(c, s, a))
  {
    hide Do, Enabled, KidsInv, ParentHas, ParentReadsOnly, ReportInv;
    if a.Pipe? {
      PipeKeepsHas(c, s, a.r, a.w);
      PipeKeepsReads(c, s, a.r, a.w);
    } else if a.ParentStep? {
      CloseKeepsHas(c, s);
      CloseKeepsReads(c, s);
    } else if a.ReadPipe? {
      ReadKeepsParent(c, s);
    } else {
      OtherKeepsParent(c, s, a);
    }
  }

  /** What the parent reads of a reaped child is the first BUFFER bytes of its output. */
  lemma ReadIsOutput(c: Config, s: State)
    requires ValidConfig(c) && Inv(c, s) && s.pc.CallRead?
    ensures s.queue[s.pc.i] == c.outs[s.pc.i]
  {
    assert OutputInv(c, s, s.pc.i);
  }

  lemma WaitKeepsReports(c: Config, s: State, j: nat)
    requires ValidConfig(c) && Inv(c, s) && Enabled(c, s, Wait(j))
    ensures ShapeInv(c, Do(c, s, Wait(j))) && ReportInv(c, Do(c, s, Wait(j)))
  {
    assert IndexOf(s.pids, s.pids[j]) == j;
    var t := Do(c, s, Wait(j));
    assert t.kids == s.kids[j := t.kids[j]];
    assert t.waited[..|s.waited|] == s.waited;
  }

  lemma AppendReportOk(c: Config, s: State, t: State, r: Report)
    requires ShapeInv(c, s) && ShapeInv(c, t) && ReportsOk(c, s)
    requires t.reports == s.reports + [r] && t.kids == s.kids && t.pids == s.pids
    requires t.waited == s.waited && |t.reports| == |s.waited|
    requires r.index < |s.kids| && r.index !in Reported(s.reports)
    requires s.pids[r.index] == s.waited[|s.reports|]
    requires r.bytes == c.outs[r.index][..Min(BUFFER, |c.outs[r.index]|)]
    ensures ReportsOk(c, t)
  {
    hide ShapeInv;
    var n := |s.reports|;
    assert t.reports[n] == r;
    forall x | 0 <= x < n ensures t.reports[x] == s.reports[x] && s.reports[x].index != r.index {
      assert s.reports[x] in s.reports;
      assert s.reports[x].index in Reported(s.reports);
    }
  }

  lemma ReadKeepsReports(c: Config, s: State)
    requires ValidConfig(c) && ShapeInv(c, s) && ReportInv(c, s) && Enabled(c, s, ReadPipe)
    requires s.queue[s.pc.i] == c.outs[s.pc.i]
    ensures ShapeInv(c, Do(c, s, ReadPipe)) && ReportInv(c, Do(c, s, ReadPipe))
  {
    var t := Do(c, s, ReadPipe);
    var r := t.reports[|s.reports|];
    assert t.reports == s.reports + [r];
    ReportedAppend(s.reports, r);
    AppendReportOk(c, s, t, r);
  }

  /** No report has been made when a child is forked. */
  lemma ForkKeepsReports(c: Config, s: State, pid: nat)
    requires ValidConfig(c) && ShapeInv(c, s) && ReportInv(c, s) && Enabled(c, s, Fork(pid))
    requires ShapeInv(c, Do(c, s, Fork(pid)))
    ensures ReportInv(c, Do(c, s, Fork(pid)))
  {
    var t := Do(c, s, Fork(pid));
    assert t.reports == s.reports == [] && t.waited == s.waited == [];
    assert Reported(t.reports) == {};
    assert !t.kids[|s.kids|].pc.Reaped?;
    assert forall j :: 0 <= j < |s.kids| ==> t.kids[j] == s.kids[j];
  }

  lemma ParentKeepsReports(c: Config, s: State, a: Action)
    requires ValidConfig(c) && ShapeInv(c, s) && ReportInv(c, s) && Enabled(c, s, a)
    requires (a.Pipe? || a.ParentStep?) && ShapeInv(c, Do(c, s, a))
    ensures ReportInv(c, Do(c, s, a))
  {
    var t := Do(c, s, a);
    assert t.reports == s.reports && t.waited == s.waited && t.kids == s.kids && t.pids == s.pids;
  }

  lemma ChildKeepsReports(c: Config, s: State, a: Action)
    requires ValidConfig(c) && ShapeInv(c, s) && ReportInv(c, s) && Enabled(c, s, a)
    requires ByChild(a) && ShapeInv(c, Do(c, s, a))
    ensures ReportInv(c, Do(c, s, a))
  {
    hide Do, Enabled;
    ChildMoves(c, s, a);
  }

  lemma OtherKeepsReports(c: Config, s: State, a: Action)
    requires ValidConfig(c) && ShapeInv(c, s) && ReportInv(c, s) && Enabled(c, s, a)
    requires !a.ReadPipe? && !a.Wait? && !a.NoChild? && ShapeInv(c, Do(c, s, a))
    ensures ReportInv(c, Do(c, s, a))
  {
    hide SomeoneHolds, ReportsOk, ReapInv;
    if a.Fork? {
      ForkKeepsReports(c, s, a.pid);
    } else if a.Pipe? || a.ParentStep? {
      ParentKeepsReports(c, s, a);
    } else {
      ChildKeepsReports(c, s, a);
    }
  }

  lemma {:induction false} DistinctSize(rs: seq<Report>)
    requires forall x, y :: 0 <= x < y < |rs| ==> rs[x].index != rs[y].index
    ensures |Reported(rs)| == |rs|
  {
    if rs == [] {
      assert Reported(rs) == {};
    } else {
      var front, last := rs[..|rs| - 1], rs[|rs| - 1];
      DistinctSize(front);
      assert rs == front + [last];
      ReportedAppend(front, last);
      assert last.index !in Reported(front);
    }
  }

  /** There are as many reports as children reported. */
  lemma ReportedKids(c: Config, s: State)
    requires ShapeInv(c, s) && ReportsOk(c, s)
    ensures Reported(s.reports) <= Range(0, |s.kids|)
    ensures |Reported(s.reports)| == |s.reports| <= |s.kids|
  {
    hide ShapeInv;
    DistinctSize(s.reports);
    forall j | j in Reported(s.reports) ensures j in Range(0, |s.kids|) {
      var r :| r in s.reports && r.index == j;
    }
    SubsetSize(Reported(s.reports), Range(0, |s.kids|));
  }

  /** When every child has been reaped, every child has been reported. */
  lemma AllReaped(c: Config, s: State)
    requires ShapeInv(c, s) && ReportInv(c, s) && s.pc.CallWait?
    requires forall j :: 0 <= j < |s.kids| ==> s.kids[j].pc.Reaped?
    ensures s.pc.k == |s.reports| == Forks(c) == MAX < |c.outs|
  {
    hide ReportsOk;
    ReportedKids(c, s);
    SubsetSize(Range(0, |s.kids|), Reported(s.reports));
  }

  /** waitpid finds no child only when all MAX have been reported and there are more commands. */
  lemma NoChildKeepsReports(c: Config, s: State)
    requires ValidConfig(c) && ShapeInv(c, s) && ReportInv(c, s) && Enabled(c, s, NoChild)
    requires ShapeInv(c, Do(c, s, NoChild))
    ensures ReportInv(c, Do(c, s, NoChild))
  {
    AllReaped(c, s);
  }

  lemma StepKeepsReports(c: Config, s: State, a: Action)
    requires ValidConfig(c) && Inv(c, s) && Enabled(c, s, a)
    requires ShapeInv(c, Do(c, s, a))
    ensures ReportInv(c, Do(c, s, a))
  {
    if a.ReadPipe? {
      ReadIsOutput(c, s);
      ReadKeepsReports(c, s);
    } else if a.Wait? {
      WaitKeepsReports(c, s, a.j);
    } else if a.NoChild? {
      NoChildKeepsReports(c, s);
    } else {
      OtherKeepsReports(c, s, a);
    }
  }

  lemma SetupKeepsChild(c: Config, s: State, j: nat)
    requires ValidConfig(c) && ShapeInv(c, s) && Enabled(c, s, Setup(j)) && ChildInv(s, j)
    ensures ChildInv(Do(c, s, Setup(j)), j)
  {
    var k := StepChild(s.kids[j], s.rfd[j], s.wfd[j]);
    assert Do(c, s, Setup(j)).kids[j] == k;
  }

  lemma ForkMakesChild(c: Config, s: State, pid: nat)
    requires ValidConfig(c) && Inv(c, s) && Enabled(c, s, Fork(pid))
    requires ShapeInv(c, Do(c, s, Fork(pid)))
    ensures ChildInv(Do(c, s, Fork(pid)), |s.kids|)
  {
    assert Do(c, s, Fork(pid)).kids[|s.kids|].fds == s.pfds;
  }

  /** After its setup a child's table changes only when it ends. */
  lemma TableKept(c: Config, s: State, a: Action, j: nat)
    requires ValidConfig(c) && ShapeInv(c, s) && Enabled(c, s, a)
    requires j < |s.kids| && !(a.Setup? && a.j == j)
    ensures var t := Do(c, s, a);
            && j < |t.kids| && s.rfd <= t.rfd && s.wfd <= t.wfd
            && var k, l := s.kids[j], t.kids[j];
               || (l.pc == k.pc && l.fds == k.fds)
               || (l.pc.Zombie? && l.fds == NoFds)
               || (k.pc.Zombie? && l.pc.Reaped? && l.fds == k.fds)
  {
    hide SomeoneHolds;
  }

  lemma OldChildKept(c: Config, s: State, a: Action, j: nat)
    requires ValidConfig(c) && ShapeInv(c, s) && Enabled(c, s, a) && ShapeInv(c, Do(c, s, a))
    requires j < |s.kids| && ChildInv(s, j) && !(a.Setup? && a.j == j)
    ensures ChildInv(Do(c, s, a), j)
  {
    hide Do, Enabled;
    TableKept(c, s, a, j);
  }

  lemma ChildKept(c: Config, s: State, a: Action, j: nat)
    requires ValidConfig(c) && Inv(c, s) && Enabled(c, s, a)
    requires ShapeInv(c, Do(c, s, a)) && j < |Do(c, s, a).kids|
    ensures ChildInv(Do(c, s, a), j)
  {
    if j == |s.kids| {
      ForkMakesChild(c, s, a.pid);
    } else {
      assert ChildInv(s, j);
      if a.Setup? && a.j == j {
        SetupKeepsChild(c, s, j);
      } else {
        OldChildKept(c, s, a, j);
      }
    }
  }

  lemma WriteKeepsOutput(c: Config, s: State, i: nat, n: nat, j: nat)
    requires ValidConfig(c) && ShapeInv(c, s) && Enabled(c, s, Write(i, n))
    requires j < |s.kids| && OutputInv(c, s, j)
    ensures OutputInv(c, Do(c, s, Write(i, n)), j)
  {
    hide SomeoneHolds;
    var t := Do(c, s, Write(i, n));
    if i == j {
      assert s.kids[j].todo == s.kids[j].todo[..n] + s.kids[j].todo[n..];
      assert t.queue[j] + t.kids[j].todo == s.queue[j] + s.kids[j].todo;
    }
  }

  lemma ReadKeepsOutput(c: Config, s: State, j: nat)
    requires ValidConfig(c) && ShapeInv(c, s) && Enabled(c, s, ReadPipe)
    requires j < |s.kids| && OutputInv(c, s, j)
    ensures OutputInv(c, Do(c, s, ReadPipe), j)
  {
    hide SomeoneHolds;
    var i := s.pc.i;
    ReportedAppend(s.reports, Report(i, s.queue[i][..Min(BUFFER, |s.queue[i]|)]));
  }

  lemma ForkMakesOutput(c: Config, s: State, pid: nat)
    requires ValidConfig(c) && ShapeInv(c, s) && KidsInv(c, s) && Enabled(c, s, Fork(pid))
    requires ShapeInv(c, Do(c, s, Fork(pid)))
    ensures OutputInv(c, Do(c, s, Fork(pid)), |s.kids|)
  {
    hide ChildInv;
    var t, j := Do(c, s, Fork(pid)), |s.kids|;
    assert t.queue[j] + t.kids[j].todo == c.outs[j];
  }

  /** A step other than a write, a read or a broken pipe leaves what was written where it was. */
  lemma OtherKeepsOutput(c: Config, s: State, a: Action, j: nat)
    requires ValidConfig(c) && ShapeInv(c, s) && Enabled(c, s, a)
    requires !a.Write? && !a.ReadPipe? && !a.BrokenPipe?
    requires a.Exit? ==> a.j !in Reported(s.reports)
    requires j < |s.kids| && OutputInv(c, s, j)
    ensures j < |Do(c, s, a).kids| && j < |Do(c, s, a).queue| && OutputInv(c, Do(c, s, a), j)
  {
    hide SomeoneHolds;
    var t := Do(c, s, a);
    assert t.reports == s.reports && t.queue[j] == s.queue[j] && t.kids[j].todo == s.kids[j].todo;
    if a.Exit? && a.j == j {
      assert s.kids[j].todo == [] && |c.outs[j]| <= c.capacity;
    }
  }

  lemma RunningUnreported(c: Config, s: State, j: nat)
    requires ShapeInv(c, s) && ReportInv(c, s) && j < |s.kids| && !s.kids[j].pc.Reaped?
    ensures j !in Reported(s.reports)
  {
  }

  lemma OutputKept(c: Config, s: State, a: Action, j: nat)
    requires ValidConfig(c) && Inv(c, s) && Enabled(c, s, a)
    requires ShapeInv(c, Do(c, s, a)) && j < |Do(c, s, a).kids|
    ensures OutputInv(c, Do(c, s, a), j)
  {
    hide SomeoneHolds, ChildInv, ParentInv, ReportInv;
    if j < |s.kids| {
      assert OutputInv(c, s, j);
      if a.Write? {
        WriteKeepsOutput(c, s, a.j, a.n, j);
      } else if a.ReadPipe? {
        ReadKeepsOutput(c, s, j);
      } else if a.BrokenPipe? {
        NoBrokenPipe(c, s, a.j);
      } else {
        if a.Exit? {
          RunningUnreported(c, s, a.j);
        }
        OtherKeepsOutput(c, s, a, j);
      }
    } else {
      ForkMakesOutput(c, s, a.pid);
    }
  }

  /** A new pipe is empty, and its ends are two descriptors other than stdout. */
  lemma PipeMakesPair(c: Config, s: State, a: Action)
    requires ValidConfig(c) && Inv(c, s) && Enabled(c, s, a) && ShapeInv(c, Do(c, s, a)) && Do(c, s, a).pc.CallFork?
    ensures var t := Do(c, s, a);
            && t.queue[t.pc.i] == [] && t.rfd[t.pc.i] != t.wfd[t.pc.i]
            && t.rfd[t.pc.i] != STDOUT && t.wfd[t.pc.i] != STDOUT
  {
    hide SomeoneHolds, ChildInv, OutputInv, ReportInv;
  }

  lemma StepKeepsKids(c: Config, s: State, a: Action)
    requires ValidConfig(c) && Inv(c, s) && Enabled(c, s, a) && ShapeInv(c, Do(c, s, a))
    ensures KidsInv(c, Do(c, s, a))
  {
    var t := Do(c, s, a);
    if t.pc.CallFork? {
      PipeMakesPair(c, s, a);
    }
    hide Do, Enabled, ParentInv, ReportInv, ChildInv, OutputInv;
    forall j | 0 <= j < |t.kids| ensures ChildInv(t, j) && OutputInv(c, t, j) {
      ChildKept(c, s, a, j);
      OutputKept(c, s, a, j);
    }
  }

  lemma StepKeepsInv(c: Config, s: State, a: Action)
    requires ValidConfig(c) && Inv(c, s) && Enabled(c, s, a)
    ensures Inv(c, Do(c, s, a))
  {
    hide Do, Enabled, ParentInv, KidsInv, ReportInv, ShapeInv;
    StepKeepsShape(c, s, a);
    StepKeepsParent(c, s, a);
    StepKeepsReports(c, s, a);
    StepKeepsKids(c, s, a);
  }

  /** Every state of every run satisfies the invariant. */
  lemma {:induction false} RunInvariant(c: Config, run: seq<State>, i: nat)
    requires ValidConfig(c) && IsRun(c, run) && i < |run|
    ensures Inv(c, run[i])
  {
    if i > 0 {
      RunInvariant(c, run, i - 1);
      assert Step(c, run[i - 1], run[i - 1 + 1]);
      var a :| Enabled(c, run[i - 1], a) && Do(c, run[i - 1], a) == run[i];
      StepKeepsInv(c, run[i - 1], a);
    }
  }

  // ------------------------------------------------------------------ progress

  lemma {:induction false} FreshAbove(used: set<nat>) returns (bound: nat)
    ensures forall x :: x in used ==> x < bound
    decreases |used|
  {
    if used == {} {
      bound := 0;
    } else {
      var x :| x in used;
      var rest := FreshAbove(used - {x});
      bound := if x < rest then rest else x + 1;
      assert forall y :: y in used ==> y == x || y in used - {x};
    }
  }

  /** Numbers the kernel can hand out always exist. */
  lemma FreshPair(used: set<nat>) returns (a: nat, b: nat)
    ensures a != b && a !in used && b !in used
  {
    a := FreshAbove(used);
    b := a + 1;
    assert forall x :: x in used ==> x < a;
  }

  /** After waitpid has returned child i, the read of its pipe returns at once, even when empty. */
  lemma ReadNeverBlocks(c: Config, s: State)
    requires ValidConfig(c) && Inv(c, s) && s.pc.CallRead?
    ensures Enabled(c, s, ReadPipe)
    ensures !SomeoneHolds(s, WriteEnd(s.pc.i))
  {
    WritersOf(c, s, s.pc.i);
    assert ReadOpen(s, s.pc.i);
  }

  /** A child whose output fits can go on until it has ended. */
  lemma NextMove(c: Config, s: State, j: nat) returns (a: Action)
    requires ValidConfig(c) && Inv(c, s) && j < |s.kids| && Fits(c, j)
    requires !s.kids[j].pc.Zombie? && !s.kids[j].pc.Reaped?
    ensures ByChild(a) && a.j == j && Enabled(c, s, a)
  {
    assert ChildInv(s, j) && OutputInv(c, s, j);
    var k := s.kids[j];
    if !k.pc.Running? {
      a := Setup(j);
    } else if k.todo == [] {
      a := Exit(j);
    } else {
      ParentReads(c, s, j);
      RunningUnreported(c, s, j);
      assert |s.queue[j] + k.todo| <= c.capacity;
      a := Write(j, 1);
    }
  }

  lemma SomeChildMoves(c: Config, s: State)
    requires ValidConfig(c) && Inv(c, s) && s.pc.CallWait? && AllFit(c)
    ensures CanStep(c, s)
  {
    if j :| 0 <= j < |s.kids| && !s.kids[j].pc.Reaped? {
      if s.kids[j].pc.Zombie? {
        assert Enabled(c, s, Wait(j));
      } else {
        var a := NextMove(c, s, j);
      }
    } else {
      assert Enabled(c, s, NoChild);
    }
  }

  /** The end: main returns, or has left its arrays. */
  predicate Ended(s: State) {
    s.pc.Done? || s.pc.Overrun?
  }

  /** If every output fits its pipe, a state that is not the end can always move. */
  lemma NotStuck(c: Config, s: State)
    requires ValidConfig(c) && Inv(c, s) && !Ended(s) && AllFit(c)
    ensures CanStep(c, s)
  {
    if s.pc.CallPipe? {
      var r, w := FreshPair(s.pfds.Keys);
      assert Enabled(c, s, Pipe(r, w));
    } else if s.pc.CallFork? {
      var p, q := FreshPair(set x | x in s.pids);
      assert Enabled(c, s, Fork(p));
    } else if s.pc.CallRead? {
      ReadNeverBlocks(c, s);
    } else if s.pc.CallWait? {
      SomeChildMoves(c, s);
    } else {
      assert Enabled(c, s, ParentStep);
    }
  }

  // --------------------------------------------------------------- termination

  function ParentLeft(c: Config, s: State): int {
    var n := |c.outs|;
    match s.pc
    case CallPipe(i) => 3 * n + 3 * (Forks(c) - i)
    case CallFork(i) => 3 * n + 3 * (Forks(c) - i) - 1
    case CloseWrite(i) => 3 * n + 3 * (Forks(c) - i) - 2
    case CallWait(k) => 3 * (n - k)
    case CallRead(k, _) => 3 * (n - k) - 1
    case CloseRead(k, _) => 3 * (n - k) - 2
    case Done => 0
    case Overrun => 0
  }

  /** Instructions and bytes left in child j. */
  function ChildLeft(c: Config, s: State, j: nat): nat
    requires j < |c.outs|
  {
    if j >= |s.kids| then 6 + |c.outs[j]| else |s.kids[j].todo| + StagesLeft(s.kids[j].pc)
  }

  function ChildrenLeft(c: Config, s: State, n: nat): nat
    requires n <= |c.outs|
  {
    if n == 0 then 0 else ChildrenLeft(c, s, n - 1) + ChildLeft(c, s, n - 1)
  }

  function Measure(c: Config, s: State): int {
    ParentLeft(c, s) + ChildrenLeft(c, s, Forks(c))
  }

  /** If one child has less left and no child has more, the total is less. */
  lemma {:induction false} LessLeft(c: Config, s: State, t: State, n: nat, j: nat)
    requires n <= |c.outs| && j < |c.outs|
    requires forall i :: 0 <= i < |c.outs| ==> ChildLeft(c, t, i) <= ChildLeft(c, s, i)
    requires ChildLeft(c, t, j) < ChildLeft(c, s, j)
    ensures ChildrenLeft(c, t, n) <= ChildrenLeft(c, s, n)
    ensures j < n ==> ChildrenLeft(c, t, n) < ChildrenLeft(c, s, n)
  {
    if n > 0 {
      LessLeft(c, s, t, n - 1, j);
    }
  }

  lemma {:induction false} SameLeft(c: Config, s: State, t: State, n: nat)
    requires n <= |c.outs|
    requires s.kids == t.kids
    ensures ChildrenLeft(c, t, n) == ChildrenLeft(c, s, n)
  {
    if n > 0 {
      SameLeft(c, s, t, n - 1);
    }
  }

  lemma ForkDecreases(c: Config, s: State, pid: nat)
    requires ValidConfig(c) && ShapeInv(c, s) && Enabled(c, s, Fork(pid))
    ensures 0 <= Measure(c, Do(c, s, Fork(pid))) < Measure(c, s)
  {
    LessLeft(c, s, Do(c, s, Fork(pid)), Forks(c), s.pc.i);
  }

  lemma WaitDecreases(c: Config, s: State, j: nat)
    requires ValidConfig(c) && ShapeInv(c, s) && Enabled(c, s, Wait(j))
    ensures 0 <= Measure(c, Do(c, s, Wait(j))) < Measure(c, s)
  {
    LessLeft(c, s, Do(c, s, Wait(j)), Forks(c), j);
  }

  lemma ChildDecreases(c: Config, s: State, a: Action)
    requires ValidConfig(c) && ShapeInv(c, s) && Enabled(c, s, a) && ByChild(a)
    ensures 0 <= Measure(c, Do(c, s, a)) < Measure(c, s)
  {
    hide Do, Enabled, StagesLeft;
    ChildMoves(c, s, a);
    LessLeft(c, s, Do(c, s, a), Forks(c), a.j);
  }

  lemma ParentDecreases(c: Config, s: State, a: Action)
    requires ValidConfig(c) && ShapeInv(c, s) && Enabled(c, s, a)
    requires a.Pipe? || a.ParentStep? || a.ReadPipe? || a.NoChild?
    ensures 0 <= Measure(c, Do(c, s, a)) < Measure(c, s)
  {
    SameLeft(c, s, Do(c, s, a), Forks(c));
  }

  lemma StepDecreases(c: Config, s: State, a: Action)
    requires ValidConfig(c) && ShapeInv(c, s) && Enabled(c, s, a)
    ensures 0 <= Measure(c, Do(c, s, a)) < Measure(c, s)
  {
    hide SomeoneHolds, Measure, Do, ShapeInv;
    if a.Pipe? || a.ParentStep? || a.ReadPipe? || a.NoChild? {
      ParentDecreases(c, s, a);
    } else if a.Fork? {
      ForkDecreases(c, s, a.pid);
    } else if a.Wait? {
      WaitDecreases(c, s, a.j);
    } else {
      ChildDecreases(c, s, a);
    }
  }

  // ------------------------------------------------------------------ theorems

  /** The parent has closed its copy of pipe i's write end. */
  predicate WriteEndClosed(s: State, i: nat) {
    match s.pc
    case CallPipe(j) => i < j
    case CallFork(j) => i < j
    case CloseWrite(j) => i < j
    case _ => true
  }

  /**
   In every reachable state in which the parent has closed its copy, the only process that can
   hold pipe i's write end is child i; and when the parent is about to read a pipe nobody holds
   its write end, so the read returns whether or not there is anything in the pipe.
   */
  lemma OnlyChildWrites(c: Config, run: seq<State>, n: nat, i: nat)
    requires ValidConfig(c) && IsRun(c, run) && n < |run|
    requires i < |run[n].rfd| && WriteEndClosed(run[n], i)
    ensures !Holds(run[n].pfds, WriteEnd(i))
    ensures forall j :: 0 <= j < |run[n].kids| && Holds(run[n].kids[j].fds, WriteEnd(i)) ==> j == i
    ensures run[n].pc.CallRead? ==>
              Enabled(c, run[n], ReadPipe) && !SomeoneHolds(run[n], WriteEnd(run[n].pc.i))
  {
    RunInvariant(c, run, n);
    WritersOf(c, run[n], i);
    if run[n].pc.CallRead? {
      ReadNeverBlocks(c, run[n]);
    }
  }

  lemma StepIsProgress(c: Config, s: State, t: State)
    requires ValidConfig(c) && ShapeInv(c, s) && Step(c, s, t)
    ensures 0 <= Measure(c, t) < Measure(c, s)
  {
    var a :| Enabled(c, s, a) && Do(c, s, a) == t;
    StepDecreases(c, s, a);
  }

  /** Every run is finite. */
  lemma {:induction false} RunsAreBounded(c: Config, run: seq<State>)
    requires ValidConfig(c) && IsRun(c, run)
    ensures 0 <= Measure(c, run[|run| - 1])
    ensures |run| + Measure(c, run[|run| - 1]) <= 1 + Measure(c, Init(c))
    decreases |run|
  {
    hide Step, ParentInv, KidsInv, ReportInv;
    var n := |run|;
    if n > 1 {
      var prefix := run[..n - 1];
      assert forall i :: 0 <= i < |prefix| ==> prefix[i] == run[i];
      RunsAreBounded(c, prefix);
      RunInvariant(c, run, n - 2);
      assert Step(c, run[n - 2], run[n - 2 + 1]);
      StepIsProgress(c, run[n - 2], run[n - 1]);
    }
  }

  /** Reports of all that were started: the outputs of all of them fit. */
  lemma ReportedFit(c: Config, s: State)
    requires Inv(c, s) && |s.reports| >= Forks(c) && !s.pc.CallPipe? && !s.pc.CallFork? && !s.pc.CloseWrite?
    ensures |s.reports| == Forks(c) && AllFit(c)
  {
    hide ParentInv, ChildInv;
    ReportedKids(c, s);
    SubsetSize(Reported(s.reports), Range(0, Forks(c)));
    assert Reported(s.reports) == Range(0, Forks(c));
    forall j | 0 <= j < Forks(c) ensures Fits(c, j) {
      assert OutputInv(c, s, j);
    }
  }

  /**
   A run that cannot be extended has reached the end exactly when the output of every command
   started fits its pipe; otherwise it is stuck before it. The end is a regular one exactly when
   there are at most MAX commands.
   */
  lemma FinishesIffAllFit(c: Config, run: seq<State>)
    requires ValidConfig(c) && IsRun(c, run)
    requires !CanStep(c, run[|run| - 1])
    ensures run[|run| - 1].pc.Done? <==> AllFit(c) && |c.outs| <= 10
    ensures run[|run| - 1].pc.Overrun? <==> AllFit(c) && |c.outs| > 10
  {
    var s := run[|run| - 1];
    RunInvariant(c, run, |run| - 1);
    if Ended(s) {
      ReportedFit(c, s);
    } else if AllFit(c) {
      NotStuck(c, s);
    }
  }

  /** Every command reported once, in reaping order, with the first 1024 bytes it wrote. */
  ghost predicate CompleteReports(c: Config, s: State) {
    && |s.reports| == |s.waited| == |s.pids| == |c.outs|
    && (forall x :: 0 <= x < |s.reports| ==>
          var r := s.reports[x];
          && r.index < |c.outs|
          && s.pids[r.index] == s.waited[x]
          && r.bytes == c.outs[r.index][..Min(1024, |c.outs[r.index]|)])
    && Reported(s.reports) == Range(0, |c.outs|)
    && (forall x, y :: 0 <= x < y < |s.reports| ==> s.reports[x].index != s.reports[y].index)
  }

  lemma DoneIsComplete(c: Config, s: State)
    requires ShapeInv(c, s) && ReportInv(c, s) && s.pc.Done?
    ensures CompleteReports(c, s)
  {
    ReportedKids(c, s);
    SubsetSize(Reported(s.reports), Range(0, |s.kids|));
  }

  /** When the runner ends it has reported every command, as `CompleteReports` says. */
  lemma ReportsAreComplete(c: Config, run: seq<State>)
    requires ValidConfig(c) && IsRun(c, run) && run[|run| - 1].pc.Done?
    ensures CompleteReports(c, run[|run| - 1])
  {
    RunInvariant(c, run, |run| - 1);
    DoneIsComplete(c, run[|run| - 1]);
  }

  /**
   In every reachable state the parent holds the read end of exactly those pipes it has made and not yet
   read and closed, and no child holds that of its own pipe after its first close.
   */
  lemma ReadersOf(c: Config, run: seq<State>, n: nat, i: nat)
    requires ValidConfig(c) && IsRun(c, run) && n < |run|
    ensures var s := run[n];
            Holds(s.pfds, ReadEnd(i)) <==>
            i < |s.rfd| && (i !in Reported(s.reports) || (s.pc.CloseRead? && s.pc.i == i))
    ensures var s := run[n];
            i < |s.kids| && Holds(s.kids[i].fds, ReadEnd(i)) ==> s.kids[i].pc.Dup? || s.kids[i].pc.CloseA?
  {
    RunInvariant(c, run, n);
    var s := run[n];
    if i < |s.rfd| && ReadOpen(s, i) {
      assert s.rfd[i] in s.pfds;
    }
    if i < |s.kids| {
      assert ChildInv(s, i);
    }
  }

  lemma AllRead(c: Config, s: State)
    requires ShapeInv(c, s) && ReportInv(c, s) && s.pc.Done?
    ensures forall i: nat :: i < |s.rfd| ==> i in Reported(s.reports)
  {
    DoneIsComplete(c, s);
    hide ReportInv;
    forall i: nat | i < |s.rfd| ensures i in Reported(s.reports) {
      assert i in Range(0, |c.outs|);
    }
  }

  lemma DoneTable(c: Config, s: State)
    requires ParentInv(c, s) && s.pc.Done?
    requires forall i: nat :: i < |s.rfd| ==> i in Reported(s.reports)
    ensures s.pfds == c.base
  {
    forall fd | fd in s.pfds ensures fd in c.base && s.pfds[fd] == c.base[fd] {
      assert s.pfds[fd].Inherited?;
    }
  }

  /** When the runner ends every descriptor of a pipe has been closed. */
  lemma NothingLeftOpen(c: Config, run: seq<State>)
    requires ValidConfig(c) && IsRun(c, run) && run[|run| - 1].pc.Done?
    ensures run[|run| - 1].pfds == c.base
  {
    RunInvariant(c, run, |run| - 1);
    AllRead(c, run[|run| - 1]);
    DoneTable(c, run[|run| - 1]);
  }

  // ------------------------------------------------------------ building runs

  ghost function Last(run: seq<State>): State
    requires run != []
  {
    run[|run| - 1]
  }

  lemma Take(c: Config, run: seq<State>, a: Action) returns (more: seq<State>)
    requires ValidConfig(c) && IsRun(c, run) && Enabled(c, Last(run), a)
    ensures more == run + [Do(c, Last(run), a)] && IsRun(c, more) && Inv(c, Last(more))
  {
    hide Enabled, Do, Inv;
    more := run + [Do(c, Last(run), a)];
    assert Step(c, Last(run), Last(more));
    RunInvariant(c, more, |run|);
  }

  /** Every run goes on to one that cannot be extended. */
  lemma {:induction false} Complete(c: Config, run: seq<State>) returns (more: seq<State>)
    requires ValidConfig(c) && IsRun(c, run)
    ensures run <= more && IsRun(c, more) && !CanStep(c, Last(more))
    decreases Measure(c, Last(run))
  {
    hide Enabled, Do, Measure, ParentInv, KidsInv, ReportInv;
    if a :| Enabled(c, Last(run), a) {
      RunInvariant(c, run, |run| - 1);
      StepDecreases(c, Last(run), a);
      var next := Take(c, run, a);
      more := Complete(c, next);
    } else {
      more := run;
    }
  }

  // -------------------------------------------------- the arrays and their bounds

  /** The entry of pids and pipes in use is one of the MAX there are. */
  predicate InBounds(s: State) {
    && !s.pc.Overrun?
    && (!s.pc.CallWait? && !s.pc.Done? ==> s.pc.i < 10)
  }

  /**
   The arrays are read within their bounds in every run exactly when there are at most MAX commands
   or the output of one of the first MAX does not fit its pipe, so that the runner hangs before.
   */
  lemma InBoundsIff(c: Config)
    requires ValidConfig(c)
    ensures (forall run: seq<State>, k: nat :: IsRun(c, run) && k < |run| ==> InBounds(run[k])) <==>
            |c.outs| <= 10 || !AllFit(c)
  {
    if |c.outs| <= MAX || !AllFit(c) {
      forall run: seq<State>, k: nat | IsRun(c, run) && k < |run| ensures InBounds(run[k]) {
        RunInvariant(c, run, k);
        if run[k].pc.Overrun? {
          ReportedFit(c, run[k]);
        }
      }
    } else {
      var run := Complete(c, [Init(c)]);
      FinishesIffAllFit(c, run);
      assert !InBounds(run[|run| - 1]);
    }
  }

  // --------------------------------------------------------- the order of printing

  /** Child j has ended. */
  predicate HasEnded(s: State, j: nat) {
    j < |s.kids| && (s.kids[j].pc.Zombie? || s.kids[j].pc.Reaped?)
  }

  /** Command i ends before command j, in state a, and j is printed before i, in state b. */
  ghost predicate Overtakes(run: seq<State>, i: nat, j: nat, a: nat, b: nat) {
    && a <= b < |run|
    && HasEnded(run[a], i) && !HasEnded(run[a], j)
    && i !in Reported(run[b].reports) && j in Reported(run[b].reports)
  }

  /** All children have been started and have not yet done anything. */
  ghost predicate Started(c: Config, s: State, n: nat) {
    && s.pc == (if n < Forks(c) then CallPipe(n) else CallWait(0))
    && |s.kids| == n && (forall j :: 0 <= j < n ==> s.kids[j].pc.Dup?)
  }

  lemma StartNext(c: Config, run: seq<State>, n: nat) returns (more: seq<State>)
    requires ValidConfig(c) && IsRun(c, run) && n < Forks(c) && Started(c, Last(run), n)
    ensures IsRun(c, more) && Started(c, Last(more), n + 1)
  {
    hide ParentInv, KidsInv, ReportInv, SomeoneHolds;
    var r, w := FreshPair(Last(run).pfds.Keys);
    more := Take(c, run, Pipe(r, w));
    var pid, other := FreshPair(set x | x in Last(more).pids);
    more := Take(c, more, Fork(pid));
    more := Take(c, more, ParentStep);
  }

  lemma {:induction false} StartAll(c: Config, n: nat) returns (run: seq<State>)
    requires ValidConfig(c) && n <= Forks(c)
    ensures IsRun(c, run) && Started(c, Last(run), n)
  {
    if n == 0 {
      run := [Init(c)];
    } else {
      run := StartAll(c, n - 1);
      run := StartNext(c, run, n - 1);
    }
  }

  /** A child whose output fits runs to its end while nobody else moves. */
  lemma {:induction false} RunChild(c: Config, run: seq<State>, j: nat) returns (more: seq<State>)
    requires ValidConfig(c) && IsRun(c, run) && Fits(c, j)
    requires j < |Last(run).kids| && !Last(run).kids[j].pc.Reaped?
    ensures run <= more && IsRun(c, more)
    ensures var s, t := Last(run), Last(more);
            && t == s.(kids := t.kids, queue := t.queue)
            && |t.kids| == |s.kids| && t.kids[j].pc.Zombie?
            && (forall i :: 0 <= i < |s.kids| && i != j ==> t.kids[i] == s.kids[i])
    decreases |Last(run).kids[j].todo| + StagesLeft(Last(run).kids[j].pc)
  {
    hide Enabled, Do, Inv, StagesLeft;
    if Last(run).kids[j].pc.Zombie? {
      more := run;
    } else {
      RunInvariant(c, run, |run| - 1);
      var a := NextMove(c, Last(run), j);
      ChildMoves(c, Last(run), a);
      var next := Take(c, run, a);
      more := RunChild(c, next, j);
    }
  }

  /** waitpid returns child j and its output is printed. */
  lemma Print(c: Config, run: seq<State>, j: nat) returns (more: seq<State>)
    requires ValidConfig(c) && IsRun(c, run)
    requires Last(run).pc.CallWait? && j < |Last(run).kids| && Last(run).kids[j].pc.Zombie?
    ensures run <= more && IsRun(c, more)
    ensures Reported(Last(more).reports) == Reported(Last(run).reports) + {j}
  {
    hide ParentInv, KidsInv, SomeoneHolds;
    RunInvariant(c, run, |run| - 1);
    var s := Last(run);
    assert IndexOf(s.pids, s.pids[j]) == j;
    more := Take(c, run, Wait(j));
    ReadNeverBlocks(c, Last(more));
    more := Take(c, more, ReadPipe);
    ReportedAppend(s.reports, Last(more).reports[|s.reports|]);
  }

  lemma EndedUnreported(c: Config, s: State, i: nat)
    requires Inv(c, s) && i < |s.kids| && s.kids[i].pc.Zombie?
    ensures i !in Reported(s.reports)
  {
    RunningUnreported(c, s, i);
  }

  /** The run: everything is started, i runs to its end, then j does, and waitpid returns j. */
  lemma OvertakingRun(c: Config, i: nat, j: nat) returns (run: seq<State>, a: nat, b: nat)
    requires ValidConfig(c) && i < Forks(c) && j < Forks(c) && i != j && Fits(c, i) && Fits(c, j)
    ensures IsRun(c, run) && Overtakes(run, i, j, a, b)
  {
    hide Inv, Step;
    var first := StartAll(c, Forks(c));
    var second := RunChild(c, first, i);
    a := |second| - 1;
    var third := RunChild(c, second, j);
    run := Print(c, third, j);
    b := |run| - 1;
    RunInvariant(c, third, |third| - 1);
    EndedUnreported(c, Last(third), i);
    assert run[a] == Last(second);
  }

  lemma EndedFits(c: Config, s: State, j: nat)
    requires Inv(c, s) && HasEnded(s, j)
    ensures j < Forks(c) && Fits(c, j)
  {
    assert OutputInv(c, s, j);
  }

  lemma ReportedHasEnded(c: Config, s: State, j: nat)
    requires Inv(c, s) && j in Reported(s.reports)
    ensures HasEnded(s, j)
  {
    ReportedKids(c, s);
    assert j in Range(0, |s.kids|);
  }

  /**
   Completion order is not kept, and this is exactly when: of two commands one can end first and be
   printed last if and only if both are started and the outputs of both fit their pipes.
   */
  lemma OvertakesIff(c: Config, i: nat, j: nat)
    requires ValidConfig(c)
    ensures (exists run: seq<State>, a: nat, b: nat :: IsRun(c, run) && Overtakes(run, i, j, a, b)) <==>
            i != j && i < 10 && j < 10 && Fits(c, i) && Fits(c, j)
  {
    hide IsRun, Inv, HasEnded;
    if run: seq<State>, a: nat, b: nat :| IsRun(c, run) && Overtakes(run, i, j, a, b) {
      RunInvariant(c, run, a);
      RunInvariant(c, run, b);
      EndedFits(c, run[a], i);
      ReportedHasEnded(c, run[b], j);
      EndedFits(c, run[b], j);
    }
    if i != j && i < 10 && j < 10 && Fits(c, i) && Fits(c, j) {
      var run, a, b := OvertakingRun(c, i, j);
    }
  }

  /** Every run prints the commands in the order in which they ended. */
  ghost predicate KeepsOrder(c: Config)
    requires ValidConfig(c)
  {
    forall run: seq<State>, i: nat, j: nat, a: nat, b: nat :: IsRun(c, run) ==> !Overtakes(run, i, j, a, b)
  }

  /** The documented order holds in every run exactly when at most one command's output fits. */
  lemma KeepsOrderIff(c: Config)
    requires ValidConfig(c)
    ensures KeepsOrder(c) <==>
            forall i, j :: 0 <= i < 10 && 0 <= j < 10 && Fits(c, i) && Fits(c, j) ==> i == j
  {
    hide Overtakes, IsRun;
    if KeepsOrder(c) {
      forall i, j | 0 <= i < 10 && 0 <= j < 10 && Fits(c, i) && Fits(c, j) ensures i == j {
        if i != j {
          var run, a, b := OvertakingRun(c, i, j);
          assert false;
        }
      }
    } else {
      var run: seq<State>, i: nat, j: nat, a: nat, b: nat :| IsRun(c, run) && Overtakes(run, i, j, a, b);
      OvertakesIff(c, i, j);
    }
  }
}
