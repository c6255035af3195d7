/**
 The tcp-suite server: first-fit client slots, a polled prefix `nfds` that only grows, and a
 broadcast of every chunk read from stdin.

 One `Input` is what the outside world does during one iteration of the poll loop. A connection
 is named by the iteration that accepted it: `accept` runs at most once per iteration.
 */
module TcpServer {
  import opened Common
  import opened Slots

  const MAX_CLIENTS: nat := 100

  /** The scan runs over 2..MAX_CLIENTS inclusive, so the table has this many slots. */
  const SLOTS: nat := 101

  datatype Input = Input(
    r: int,             // what poll returns
    accepting: bool,    // POLLIN on the listening socket
    typing: bool,       // POLLIN on stdin
    ready: seq<bool>,   // the POLLIN bits poll writes for the client slots
    fd: int,            // what accept returns: -1 or a descriptor
    chunk: seq<byte>,   // what the read of stdin brings; empty for 0 or an error
    results: seq<int>)  // what the read of each client returns

  predicate ValidInput(x: Input) {
    |x.ready| == SLOTS && |x.results| == SLOTS
  }

  datatype State = State(
    fds: seq<int>, ready: seq<bool>, nfds: nat, stopped: bool,
    conns: seq<nat>,              // per slot: the connection it holds
    sent: map<nat, seq<byte>>,    // per connection: the bytes written to it
    gone: map<nat, nat>,          // per connection that has left: the iteration it left in
    chunks: seq<seq<byte>>,       // per iteration: the chunk read from stdin
    peak: nat)                    // the most clients tracked at any time

  /** The table as `main` sets it up; what it does not initialise is arbitrary. */
  ghost predicate Initial(s: State) {
    && |s.fds| == |s.ready| == |s.conns| == SLOTS
    && (forall i :: FIRST <= i < SLOTS ==> s.fds[i] == FREE)
    && s.nfds == 2 && !s.stopped
    && s.sent == map[] && s.gone == map[] && s.chunks == [] && s.peak == 0
  }

  ghost predicate Shape(s: State) {
    |s.fds| == |s.ready| == |s.conns| == SLOTS && FIRST <= s.nfds <= SLOTS
  }

  /** poll writes revents for the first nfds entries, none for a negative descriptor. */
  function Poll(s: State, x: Input): State
    requires |s.fds| == |s.ready| == SLOTS && ValidInput(x)
  {
    s.(ready := seq(SLOTS, i requires 0 <= i < SLOTS =>
         if i < s.nfds then s.fds[i] != FREE && x.ready[i] else s.ready[i]))
  }

  /** A new descriptor goes into the first free slot; a full table drops it. */
  function Accept(s: State, fd: int): State
    requires |s.fds| == |s.conns| == SLOTS
  {
    var i := FirstFree(s.fds, FIRST);
    if i == SLOTS then s
    else
      var c := |s.chunks|;
      var fds := s.fds[i := fd];
      s.(fds := fds, nfds := Max(s.nfds, i + 1),
         conns := s.conns[i := c], sent := s.sent[c := []],
         peak := Max(s.peak, |Live(fds)|))
  }

  /** Some slot below `n` holds connection c. */
  predicate HeldBelow(s: State, c: nat, n: nat)
    requires |s.fds| == |s.conns| && n <= |s.fds|
  {
    exists i :: i in Live(s.fds) && i < n && s.conns[i] == c
  }

  /** The chunk is written to every client in a slot below `n`. */
  function SendBelow(s: State, chunk: seq<byte>, n: nat): map<nat, seq<byte>>
    requires |s.fds| == |s.conns| && n <= |s.fds|
  {
    map c | c in s.sent :: if HeldBelow(s, c, n) then s.sent[c] + chunk else s.sent[c]
  }

  function Broadcast(s: State, chunk: seq<byte>): State
    requires Shape(s)
  {
    s.(sent := SendBelow(s, chunk, s.nfds), chunks := s.chunks + [chunk])
  }

  /** The client in slot i is read and found to have left. */
  predicate Departs(s: State, results: seq<int>, i: nat)
    requires Shape(s) && |results| == SLOTS && i < SLOTS
  {
    i in Live(s.fds) && i < s.nfds && s.ready[i] && results[i] <= 0
  }

  predicate LeavesBelow(s: State, results: seq<int>, c: nat, n: nat)
    requires Shape(s) && |results| == SLOTS && n <= SLOTS
  {
    exists i :: FIRST <= i < n && Departs(s, results, i) && s.conns[i] == c
  }

  /** The number of the current iteration, once its chunk has been recorded. */
  function Now(s: State): nat {
    if s.chunks == [] then 0 else |s.chunks| - 1
  }

  /** The connections that leave now from the slots below `n`. */
  function LeftBelow(s: State, results: seq<int>, n: nat): map<nat, nat>
    requires Shape(s) && |results| == SLOTS && n <= SLOTS
  {
    map c | c in s.sent && LeavesBelow(s, results, c, n) :: Now(s)
  }

  /** Every client below `n` that is ready and has left is closed and its slot freed. */
  function ReapBelow(s: State, results: seq<int>, n: nat): State
    requires Shape(s) && |results| == SLOTS && n <= SLOTS
  {
    s.(fds := seq(SLOTS, i requires 0 <= i < SLOTS =>
         if i < n && Departs(s, results, i) then FREE else s.fds[i]),
       gone := s.gone + LeftBelow(s, results, n))
  }

  /** The iteration from the write loop on. */
  function AfterAccept(s: State, chunk: seq<byte>, results: seq<int>, stop: bool): (t: State)
    requires Shape(s) && |results| == SLOTS
    ensures Shape(t)
  {
    ReapBelow(Broadcast(s, chunk), results, s.nfds).(stopped := stop)
  }

  /** One iteration of the poll loop. */
  function Step(s: State, x: Input): (t: State)
    requires Shape(s) && ValidInput(x)
    ensures Shape(t)
  {
    var p := Poll(s, x);
    if x.r > 0 && x.accepting && x.fd == -1 then
      p.(chunks := p.chunks + [[]])
    else
      var a := if x.r > 0 && x.accepting then Accept(p, x.fd) else p;
      AfterAccept(a, if x.r > 0 && x.typing then x.chunk else [], x.results, x.r == -1)
  }

  // ------------------------------------------------------------------ invariant

  function Flatten(xs: seq<seq<byte>>): seq<byte> {
    if xs == [] then [] else xs[0] + Flatten(xs[1..])
  }

  lemma {:induction false} FlattenAppend(xs: seq<seq<byte>>, x: seq<byte>)
    ensures Flatten(xs + [x]) == Flatten(xs) + x
  {
    if xs == [] {
      assert xs + [x] == [x];
      assert Flatten([x]) == x + Flatten([]);
    } else {
      assert (xs + [x])[1..] == xs[1..] + [x];
      FlattenAppend(xs[1..], x);
    }
  }

  /** Each tracked client lies below nfds, and nfds - 2 is the peak so far. */
  ghost predicate TableInv(s: State) {
    && Shape(s)
    && (forall i :: i in Live(s.fds) ==> i < s.nfds)
    && s.nfds - 2 == s.peak
  }

  /** Connection names in the table are distinct and were given in the first `t` iterations. */
  ghost predicate NamesInv(s: State, t: nat)
    requires Shape(s)
  {
    && (forall i :: i in Live(s.fds) ==> s.conns[i] in s.sent && s.conns[i] !in s.gone)
    && (forall i, j :: i in Live(s.fds) && j in Live(s.fds) && i != j ==> s.conns[i] != s.conns[j])
    && (forall c :: c in s.sent ==> c < t)
    && (forall c :: c in s.gone ==> c in s.sent && c <= s.gone[c] < |s.chunks|)
  }

  /** A connection that has not left is in the table. */
  ghost predicate CoverInv(s: State)
    requires Shape(s)
  {
    forall c :: c in s.sent ==> c in s.gone || HeldBelow(s, c, SLOTS)
  }

  /** What connection c should have been sent: the chunks from its acceptance to its departure. */
  function Due(s: State, c: nat): seq<byte>
    requires c <= |s.chunks| && (c in s.gone ==> c <= s.gone[c] < |s.chunks|)
  {
    if c in s.gone then Flatten(s.chunks[c..s.gone[c] + 1]) else Flatten(s.chunks[c..])
  }

  ghost predicate BytesInv(s: State, t: nat)
    requires Shape(s) && NamesInv(s, t) && t <= |s.chunks| + 1
  {
    forall c :: c in s.sent ==> s.sent[c] == Due(s, c)
  }

  /** `t` iterations have begun; the chunk of the last may still be to come. */
  ghost predicate InvAt(s: State, t: nat) {
    TableInv(s) && NamesInv(s, t) && CoverInv(s) && t <= |s.chunks| + 1 && BytesInv(s, t)
  }

  ghost predicate Inv(s: State) {
    InvAt(s, |s.chunks|)
  }

  /** The invariant does not speak of the ready bits or of whether the loop has ended. */
  lemma SameInv(s: State, t: nat, u: State)
    requires InvAt(s, t) && u == s.(ready := u.ready, stopped := u.stopped) && |u.ready| == SLOTS
    ensures InvAt(u, t)
  {
    assert forall c :: HeldBelow(u, c, SLOTS) <==> HeldBelow(s, c, SLOTS);
    forall c | c in u.sent ensures u.sent[c] == Due(u, c) {
      assert Due(u, c) == Due(s, c);
    }
  }

  lemma PollKeepsInv(s: State, x: Input)
    requires Inv(s) && ValidInput(x)
    ensures Inv(Poll(s, x))
  {
    hide NamesInv, CoverInv, BytesInv;
    SameInv(s, |s.chunks|, Poll(s, x));
  }

  /** First fit: the slot raises nfds only when every slot below it is taken. */
  lemma AcceptKeepsTable(s: State, fd: int)
    requires TableInv(s) && fd != FREE
    ensures TableInv(Accept(s, fd))
  {
    var i := FirstFree(s.fds, FIRST);
    if i < SLOTS {
      FillSlot(s.fds, i, fd);
      var t := Accept(s, fd);
      if i < s.nfds {
        SubsetSize(Live(t.fds), Upto(s.nfds));
      } else {
        assert Live(s.fds) == Upto(s.nfds);
        assert s.nfds !in Live(s.fds);
        assert i == s.nfds;
      }
    }
  }

  lemma AcceptHolds(s: State, fd: int, c: nat)
    requires Shape(s) && CoverInv(s) && fd != FREE && c in Accept(s, fd).sent
    ensures c in s.gone || HeldBelow(Accept(s, fd), c, SLOTS)
  {
    var i := FirstFree(s.fds, FIRST);
    var u := Accept(s, fd);
    if i < SLOTS {
      FillSlot(s.fds, i, fd);
      if c == |s.chunks| {
        assert i in Live(u.fds) && u.conns[i] == c;
      } else if c !in s.gone {
        var j :| j in Live(s.fds) && j < SLOTS && s.conns[j] == c;
        assert j in Live(u.fds) && u.conns[j] == c;
      }
    } else if c !in s.gone {
      assert HeldBelow(s, c, SLOTS);
    }
  }

  /** The slots after an accept: the old ones as they were, and the new connection's. */
  lemma AcceptedSlots(s: State, fd: int, j: nat)
    requires Shape(s) && fd != FREE && FirstFree(s.fds, FIRST) < SLOTS
    requires j in Live(Accept(s, fd).fds)
    ensures var i := FirstFree(s.fds, FIRST);
            if j == i then Accept(s, fd).conns[j] == |s.chunks|
            else j in Live(s.fds) && Accept(s, fd).conns[j] == s.conns[j]
  {
  }

  lemma AcceptKeepsNames(s: State, fd: int)
    requires TableInv(s) && NamesInv(s, |s.chunks|) && fd != FREE
    ensures Shape(Accept(s, fd)) && NamesInv(Accept(s, fd), |s.chunks| + 1)
  {
    var u := Accept(s, fd);
    if FirstFree(s.fds, FIRST) < SLOTS {
      var c := |s.chunks|;
      assert c !in s.sent && c !in s.gone && u.sent == s.sent[c := []] && u.gone == s.gone;
      forall j | j in Live(u.fds) ensures u.conns[j] in u.sent && u.conns[j] !in u.gone {
        AcceptedSlots(s, fd, j);
      }
      forall j, k | j in Live(u.fds) && k in Live(u.fds) && j != k ensures u.conns[j] != u.conns[k] {
        AcceptedSlots(s, fd, j);
        AcceptedSlots(s, fd, k);
      }
    }
  }

  lemma AcceptDue(s: State, fd: int, c: nat)
    requires Shape(s) && c in s.sent && c < |s.chunks|
    requires c in s.gone ==> c <= s.gone[c] < |s.chunks|
    requires s.sent[c] == Due(s, c)
    ensures Accept(s, fd).sent[c] == Due(Accept(s, fd), c)
  {
  }

  lemma AcceptKeepsInv(s: State, fd: int)
    requires Inv(s) && fd != FREE
    ensures InvAt(Accept(s, fd), |s.chunks| + 1)
  {
    AcceptKeepsTable(s, fd);
    AcceptKeepsNames(s, fd);
    var u := Accept(s, fd);
    forall c | c in u.sent ensures c in u.gone || HeldBelow(u, c, SLOTS) {
      AcceptHolds(s, fd, c);
    }
    forall c | c in u.sent ensures u.sent[c] == Due(u, c) {
      if c in s.sent {
        AcceptDue(s, fd, c);
      }
    }
  }

  /** Every tracked connection is reached by the loop over the first nfds slots; no other is. */
  lemma BroadcastReaches(s: State, t: nat, c: nat)
    requires TableInv(s) && NamesInv(s, t) && CoverInv(s) && c in s.sent
    ensures HeldBelow(s, c, s.nfds) <==> c !in s.gone
  {
    if c !in s.gone {
      var j :| j in Live(s.fds) && j < SLOTS && s.conns[j] == c;
      assert j < s.nfds;
    }
  }

  lemma BroadcastDue(s: State, chunk: seq<byte>, c: nat)
    requires Shape(s) && c in s.sent && c <= |s.chunks|
    requires c in s.gone ==> c <= s.gone[c] < |s.chunks|
    requires s.sent[c] == Due(s, c)
    requires HeldBelow(s, c, s.nfds) <==> c !in s.gone
    ensures Broadcast(s, chunk).sent[c] == Due(Broadcast(s, chunk), c)
  {
    var u := Broadcast(s, chunk);
    if c in s.gone {
      assert u.chunks[c..u.gone[c] + 1] == s.chunks[c..s.gone[c] + 1];
    } else {
      assert u.chunks[c..] == s.chunks[c..] + [chunk];
      FlattenAppend(s.chunks[c..], chunk);
    }
  }

  lemma BroadcastKeepsInv(s: State, t: nat, chunk: seq<byte>)
    requires InvAt(s, t)
    ensures Inv(Broadcast(s, chunk))
  {
    var u := Broadcast(s, chunk);
    assert u.sent.Keys == s.sent.Keys;
    forall c | c in u.sent ensures c in u.gone || HeldBelow(u, c, SLOTS) {
      assert HeldBelow(u, c, SLOTS) == HeldBelow(s, c, SLOTS);
    }
    forall c | c in u.sent ensures u.sent[c] == Due(u, c) {
      BroadcastReaches(s, t, c);
      BroadcastDue(s, chunk, c);
    }
  }

  /** The clients that stay: those that did not leave. */
  lemma ReapLive(s: State, results: seq<int>, i: nat)
    requires TableInv(s) && NamesInv(s, |s.chunks|) && |results| == SLOTS && i in Live(s.fds)
    ensures i in Live(ReapBelow(s, results, s.nfds).fds) <==> !Departs(s, results, i)
    ensures LeavesBelow(s, results, s.conns[i], s.nfds) <==> Departs(s, results, i)
  {
  }

  lemma ReapKeepsNames(s: State, results: seq<int>)
    requires TableInv(s) && NamesInv(s, |s.chunks|) && |results| == SLOTS && s.chunks != []
    ensures Shape(ReapBelow(s, results, s.nfds))
    ensures NamesInv(ReapBelow(s, results, s.nfds), |s.chunks|)
  {
    var u := ReapBelow(s, results, s.nfds);
    assert Live(u.fds) <= Live(s.fds);
    forall i | i in Live(u.fds) ensures u.conns[i] !in u.gone {
      ReapLive(s, results, i);
    }
  }

  lemma ReapKeepsCover(s: State, results: seq<int>)
    requires TableInv(s) && NamesInv(s, |s.chunks|) && CoverInv(s) && |results| == SLOTS
    ensures CoverInv(ReapBelow(s, results, s.nfds))
  {
    var u := ReapBelow(s, results, s.nfds);
    forall c | c in u.sent ensures c in u.gone || HeldBelow(u, c, SLOTS) {
      if c !in s.gone {
        var j :| j in Live(s.fds) && j < SLOTS && s.conns[j] == c;
        ReapLive(s, results, j);
        assert j in Live(u.fds) ==> u.conns[j] == c;
      }
    }
  }

  lemma ReapDue(s: State, results: seq<int>, c: nat)
    requires Shape(s) && |results| == SLOTS && s.chunks != [] && c in s.sent && c < |s.chunks|
    requires c in s.gone ==> c <= s.gone[c] < |s.chunks| && !LeavesBelow(s, results, c, s.nfds)
    requires s.sent[c] == Due(s, c)
    ensures s.sent[c] == Due(ReapBelow(s, results, s.nfds), c)
  {
    var u := ReapBelow(s, results, s.nfds);
    if c in s.gone {
      assert u.gone[c] == s.gone[c];
    } else if c in u.gone {
      assert u.gone[c] == Now(s);
      assert s.chunks[c..Now(s) + 1] == s.chunks[c..];
    }
  }

  lemma ReapKeepsInv(s: State, results: seq<int>)
    requires Inv(s) && |results| == SLOTS && s.chunks != []
    ensures Inv(ReapBelow(s, results, s.nfds))
  {
    ReapKeepsNames(s, results);
    ReapKeepsCover(s, results);
    var u := ReapBelow(s, results, s.nfds);
    assert Live(u.fds) <= Live(s.fds);
    forall c | c in u.sent ensures u.sent[c] == Due(u, c) {
      ReapDue(s, results, c);
    }
  }

  // ----------------------------------------------------------------- every run

  lemma AfterAcceptKeepsInv(s: State, t: nat, chunk: seq<byte>, results: seq<int>, stop: bool)
    requires InvAt(s, t) && |results| == SLOTS
    ensures Inv(AfterAccept(s, chunk, results, stop))
    ensures |AfterAccept(s, chunk, results, stop).chunks| == |s.chunks| + 1
  {
    hide NamesInv, CoverInv, BytesInv, SendBelow, LeftBelow;
    var b := Broadcast(s, chunk);
    BroadcastKeepsInv(s, t, chunk);
    ReapKeepsInv(b, results);
    var d := ReapBelow(b, results, b.nfds);
    SameInv(d, |d.chunks|, d.(stopped := stop));
  }

  lemma EmptyBroadcast(s: State)
    requires Shape(s)
    ensures Broadcast(s, []) == s.(chunks := s.chunks + [[]])
  {
    var sent := SendBelow(s, [], s.nfds);
    assert sent.Keys == s.sent.Keys;
    assert forall c :: c in s.sent ==> sent[c] == s.sent[c];
    assert sent == s.sent;
  }

  /** An iteration that ends at a failed accept reads no chunk: an empty one is due. */
  lemma SkipKeepsInv(s: State)
    requires Inv(s)
    ensures Inv(s.(chunks := s.chunks + [[]]))
  {
    EmptyBroadcast(s);
    BroadcastKeepsInv(s, |s.chunks|, []);
  }

  lemma StepKeepsInv(s: State, x: Input)
    requires Inv(s) && ValidInput(x)
    ensures Inv(Step(s, x)) && |Step(s, x).chunks| == |s.chunks| + 1
  {
    hide NamesInv, CoverInv, BytesInv, SendBelow, LeftBelow;
    var p := Poll(s, x);
    PollKeepsInv(s, x);
    if x.r > 0 && x.accepting && x.fd == -1 {
      SkipKeepsInv(p);
    } else {
      var chunk := if x.r > 0 && x.typing then x.chunk else [];
      if x.r > 0 && x.accepting {
        AcceptKeepsInv(p, x.fd);
        AfterAcceptKeepsInv(Accept(p, x.fd), |p.chunks| + 1, chunk, x.results, x.r == -1);
      } else {
        AfterAcceptKeepsInv(p, |p.chunks|, chunk, x.results, x.r == -1);
      }
    }
  }

  ghost predicate ValidInputs(xs: seq<Input>) {
    forall i :: 0 <= i < |xs| ==> ValidInput(xs[i])
  }

  /** The state at the loop head after the inputs `xs`; a stopped server takes no more. */
  ghost function Run(s: State, xs: seq<Input>): (t: State)
    requires Shape(s) && ValidInputs(xs)
    ensures Shape(t)
  {
    if xs == [] then s
    else
      var p := Run(s, xs[..|xs| - 1]);
      if p.stopped then p else Step(p, xs[|xs| - 1])
  }

  lemma {:induction false} RunKeepsInv(s: State, xs: seq<Input>)
    requires Initial(s) && ValidInputs(xs)
    ensures Inv(Run(s, xs))
  {
    if xs == [] {
    } else {
      RunKeepsInv(s, xs[..|xs| - 1]);
      var p := Run(s, xs[..|xs| - 1]);
      if !p.stopped {
        StepKeepsInv(p, xs[|xs| - 1]);
      }
    }
  }

  // --------------------------------------------------- how many clients there can be

  /** A client is accepted and i is the first slot that is free. */
  ghost predicate Takes(s: State, x: Input, i: nat)
    requires Shape(s)
  {
    && x.r > 0 && x.accepting && x.fd != -1
    && 2 <= i <= 100 && s.fds[i] == -1 && forall j :: 2 <= j < i ==> s.fds[j] != -1
  }

  /** The clients tracked during the iteration, once one may have been accepted. */
  ghost function TrackedIn(s: State, x: Input): nat
    requires Shape(s)
  {
    |Live(s.fds)| + if exists i :: Takes(s, x, i) then 1 else 0
  }

  /** The most clients tracked at any time of a run. */
  ghost function MostTracked(s: State, xs: seq<Input>): int
    requires Shape(s) && ValidInputs(xs)
  {
    if xs == [] then |Live(s.fds)|
    else
      var front := xs[..|xs| - 1];
      var before := Run(s, front);
      if before.stopped then MostTracked(s, front)
      else Max(MostTracked(s, front), TrackedIn(before, xs[|xs| - 1]))
  }

  /** accept is called and fails, which ends the iteration. */
  predicate AcceptFails(x: Input) {
    x.r > 0 && x.accepting && x.fd == -1
  }

  lemma TakesIff(s: State, x: Input, i: nat)
    requires Shape(s) && 2 <= i < SLOTS
    ensures Takes(s, x, i) <==> x.r > 0 && x.accepting && x.fd != -1 && FirstFree(s.fds, FIRST) == i
  {
  }

  /** What is read from stdin in the iteration. */
  function Typed(x: Input): seq<byte> {
    if x.r > 0 && x.typing && !AcceptFails(x) then x.chunk else []
  }

  /** The state in which the write loop begins. */
  function Accepting(s: State, x: Input): State
    requires Shape(s) && ValidInput(x)
  {
    if x.r > 0 && x.accepting then Accept(Poll(s, x), x.fd) else Poll(s, x)
  }

  lemma StepIs(s: State, x: Input)
    requires Shape(s) && ValidInput(x)
    ensures AcceptFails(x) ==> Step(s, x) == Poll(s, x).(chunks := s.chunks + [[]])
    ensures !AcceptFails(x) ==> Step(s, x) == AfterAccept(Accepting(s, x), Typed(x), x.results, x.r == -1)
  {
    hide AfterAccept, Accept;
  }

  lemma TakesFirst(s: State, x: Input)
    requires Shape(s)
    ensures forall j :: Takes(s, x, j) ==> j == FirstFree(s.fds, FIRST) < SLOTS
  {
    forall j | Takes(s, x, j) ensures j == FirstFree(s.fds, FIRST) < SLOTS {
      TakesIff(s, x, j);
    }
  }

  lemma AcceptPeak(s: State, fd: int)
    requires Shape(s) && fd != -1 && |Live(s.fds)| <= s.peak
    ensures Accept(s, fd).peak ==
            Max(s.peak, |Live(s.fds)| + if FirstFree(s.fds, FIRST) < SLOTS then 1 else 0)
  {
    var i := FirstFree(s.fds, FIRST);
    if i < SLOTS {
      FillSlot(s.fds, i, fd);
    }
  }

  lemma TrackedIs(s: State, x: Input)
    requires Shape(s)
    ensures var takes := x.r > 0 && x.accepting && x.fd != -1 && FirstFree(s.fds, FIRST) < SLOTS;
            TrackedIn(s, x) == |Live(s.fds)| + if takes then 1 else 0
  {
    hide Takes;
    var i := FirstFree(s.fds, FIRST);
    TakesFirst(s, x);
    if i < SLOTS {
      TakesIff(s, x, i);
    }
  }

  lemma AfterAcceptPeak(s: State, chunk: seq<byte>, results: seq<int>, stop: bool)
    requires Shape(s) && |results| == SLOTS
    ensures AfterAccept(s, chunk, results, stop).peak == s.peak
  {
    hide SendBelow, LeftBelow;
  }

  lemma LiveBelowPeak(s: State)
    requires TableInv(s)
    ensures |Live(s.fds)| <= s.peak
  {
    SubsetSize(Live(s.fds), Upto(s.nfds));
  }

  lemma AcceptingPeak(s: State, x: Input)
    requires Shape(s) && |Live(s.fds)| <= s.peak && ValidInput(x) && !AcceptFails(x)
    ensures Shape(Accepting(s, x))
    ensures var takes := x.r > 0 && x.accepting && FirstFree(s.fds, FIRST) < SLOTS;
            Accepting(s, x).peak == Max(s.peak, |Live(s.fds)| + if takes then 1 else 0)
  {
    hide FirstFree;
    if x.r > 0 && x.accepting {
      AcceptPeak(Poll(s, x), x.fd);
    }
  }

  lemma StepPeak(s: State, x: Input)
    requires TableInv(s) && ValidInput(x)
    ensures Step(s, x).peak == Max(s.peak, TrackedIn(s, x))
  {
    LiveBelowPeak(s);
    hide TableInv, TrackedIn, Accepting, AfterAccept, FirstFree, Live, Step;
    TrackedIs(s, x);
    StepIs(s, x);
    if !AcceptFails(x) {
      AcceptingPeak(s, x);
      AfterAcceptPeak(Accepting(s, x), Typed(x), x.results, x.r == -1);
    }
  }

  /** The length of the polled prefix is the most clients there have been at once. */
  lemma {:induction false} PeakIsMost(s: State, xs: seq<Input>)
    requires Initial(s) && ValidInputs(xs)
    ensures Run(s, xs).peak == Run(s, xs).nfds - 2 == MostTracked(s, xs)
  {
    hide Step, TrackedIn, NamesInv, CoverInv, BytesInv;
    RunKeepsInv(s, xs);
    if xs == [] {
      assert Live(s.fds) == {};
    } else {
      var front := xs[..|xs| - 1];
      PeakIsMost(s, front);
      RunKeepsInv(s, front);
      if !Run(s, front).stopped {
        StepPeak(Run(s, front), xs[|xs| - 1]);
      }
    }
  }

  /**
   In every run each tracked client lies in the polled prefix, the prefix is exactly as long as
   the most clients there have ever been at once, and there are never more than 99 of them.
   */
  lemma PrefixIsPeak(s: State, xs: seq<Input>)
    requires Initial(s) && ValidInputs(xs)
    ensures forall i :: i in Live(Run(s, xs).fds) ==> i < Run(s, xs).nfds
    ensures Run(s, xs).nfds - 2 == MostTracked(s, xs)
    ensures |Live(Run(s, xs).fds)| <= MostTracked(s, xs) <= 99
  {
    hide MostTracked;
    RunKeepsInv(s, xs);
    PeakIsMost(s, xs);
    var t := Run(s, xs);
    SubsetSize(Live(t.fds), Upto(t.nfds));
  }

  /** An iteration in which one client connects and nobody leaves. */
  function Connect(fd: int): Input {
    Input(1, true, false, seq(SLOTS, _ => false), fd, [], seq(SLOTS, _ => 1))
  }

  /** The table after such an iteration is that after the accept. */
  lemma ConnectIs(s: State, fd: int)
    requires Shape(s) && fd != -1
    ensures var t, a := Step(s, Connect(fd)), Accept(s, fd);
            t.fds == a.fds && t.nfds == a.nfds && t.peak == a.peak && t.sent.Keys == a.sent.Keys && !t.stopped
  {
    hide LeftBelow;
    var x := Connect(fd);
    var a := Accept(Poll(s, x), fd);
    var b := Broadcast(a, []);
    assert forall i: nat :: i < SLOTS ==> !Departs(b, x.results, i);
    assert ReapBelow(b, x.results, b.nfds).fds == b.fds;
  }

  lemma NextFree(fds: seq<int>, n: nat)
    requires |fds| == SLOTS && FIRST <= n <= SLOTS && Live(fds) == Upto(n)
    ensures FirstFree(fds, FIRST) == n
  {
    assert forall j: nat :: FIRST <= j < n ==> j in Live(fds);
    assert n !in Live(fds);
  }

  /** n clients connect one after the other: they fill the first n slots. */
  lemma {:induction false} ConnectMany(s0: State, n: nat) returns (xs: seq<Input>)
    requires Initial(s0) && n <= 99
    ensures |xs| == n && ValidInputs(xs)
    ensures var s := Run(s0, xs);
            !s.stopped && Live(s.fds) == Upto(n + 2) && s.nfds == n + 2 && s.peak == n
  {
    hide Step, NamesInv, CoverInv, BytesInv, FirstFree;
    if n == 0 {
      xs := [];
      assert Live(s0.fds) == {};
    } else {
      var front := ConnectMany(s0, n - 1);
      xs := front + [Connect(n + 10)];
      assert xs[..|xs| - 1] == front;
      var s := Run(s0, front);
      ConnectIs(s, n + 10);
      NextFree(s.fds, n + 1);
      FillSlot(s.fds, n + 1, n + 10);
      RunKeepsInv(s0, xs);
    }
  }

  /** So n of the 99 slots are taken, and the next client would get the one after them. */
  lemma ConnectCounts(s0: State, n: nat) returns (xs: seq<Input>)
    requires Initial(s0) && n <= 99
    ensures ValidInputs(xs) && !Run(s0, xs).stopped
    ensures |Live(Run(s0, xs).fds)| == Run(s0, xs).peak == n && FirstFree(Run(s0, xs).fds, FIRST) == n + 2
  {
    hide Run;
    xs := ConnectMany(s0, n);
    NextFree(Run(s0, xs).fds, n + 2);
  }

  /**
   The bound is reached: there is a run with 99 clients at once; and it is the limit: the next one
   to connect is not tracked and leaves the table as it was.
   */
  lemma HundredthIsDropped(s0: State, fd: int) returns (xs: seq<Input>)
    requires Initial(s0) && fd != -1
    ensures ValidInputs(xs) && ValidInput(Connect(fd)) && |Live(Run(s0, xs).fds)| == Run(s0, xs).peak == 99
    ensures var s, t := Run(s0, xs), Run(s0, xs + [Connect(fd)]);
            t.fds == s.fds && t.nfds == s.nfds && t.peak == s.peak && t.sent.Keys == s.sent.Keys
  {
    hide Step;
    xs := ConnectCounts(s0, 99);
    var ys := xs + [Connect(fd)];
    assert ys[..|ys| - 1] == xs;
    ConnectIs(Run(s0, xs), fd);
  }

  // ------------------------------------------------ slot by slot and client by client

  /** The client that is in slot i, or now gets it, is read from and found to have left. */
  ghost predicate LeavesNow(s: State, x: Input, i: nat)
    requires Shape(s) && ValidInput(x) && i < SLOTS
  {
    && !AcceptFails(x) && x.results[i] <= 0
    && (if i < s.nfds then s.fds[i] != -1 && x.ready[i] else s.ready[i])
  }

  /** Slot i after an iteration. */
  ghost predicate SlotBecomes(s: State, x: Input, i: nat, t: State)
    requires Shape(s) && Shape(t) && ValidInput(x) && i < SLOTS
  {
    if s.fds[i] != -1 then t.fds[i] == (if LeavesNow(s, x, i) then -1 else s.fds[i]) && t.conns[i] == s.conns[i]
    else if Takes(s, x, i) then
      t.fds[i] == (if LeavesNow(s, x, i) then -1 else x.fd) && t.conns[i] == |s.chunks| && t.nfds >= i + 1
    else t.fds[i] == -1
  }

  lemma AcceptingSlot(s: State, x: Input, i: nat)
    requires TableInv(s) && ValidInput(x) && !AcceptFails(x) && FIRST <= i < SLOTS
    ensures var a := Accepting(s, x);
            && Shape(a) && a.ready[i] == (if i < s.nfds then s.fds[i] != -1 && x.ready[i] else s.ready[i])
            && a.fds[i] == (if Takes(s, x, i) then x.fd else s.fds[i])
            && a.conns[i] == (if Takes(s, x, i) then |s.chunks| else s.conns[i])
            && (Takes(s, x, i) ==> i < a.nfds) && s.nfds <= a.nfds && a.chunks == s.chunks
  {
    TakesIff(s, x, i);
  }

  lemma ReapedSlot(s: State, chunk: seq<byte>, results: seq<int>, stop: bool, i: nat)
    requires Shape(s) && |results| == SLOTS && FIRST <= i < SLOTS && (s.fds[i] != -1 ==> i < s.nfds)
    ensures var t := AfterAccept(s, chunk, results, stop);
            && t.conns == s.conns && t.nfds == s.nfds && t.ready == s.ready && t.chunks == s.chunks + [chunk]
            && t.fds[i] == if s.fds[i] != -1 && s.ready[i] && results[i] <= 0 then -1 else s.fds[i]
  {
    hide SendBelow, LeftBelow;
  }

  /** What becomes of every slot, in terms of the table before and what the world does. */
  lemma IterationSlots(s: State, x: Input, i: nat)
    requires Inv(s) && ValidInput(x) && 2 <= i <= 100
    ensures SlotBecomes(s, x, i, Step(s, x))
  {
    hide NamesInv, CoverInv, BytesInv, AfterAccept, Accepting, Takes;
    StepIs(s, x);
    if AcceptFails(x) {
      assert !Takes(s, x, i) by {
        TakesIff(s, x, i);
      }
    } else {
      AcceptingSlot(s, x, i);
      assert s.fds[i] != -1 ==> i in Live(s.fds);
      ReapedSlot(Accepting(s, x), Typed(x), x.results, x.r == -1, i);
      assert Takes(s, x, i) ==> s.fds[i] == -1 by {
        TakesIff(s, x, i);
      }
    }
  }

  /** A connection is begun exactly when a client is accepted while some slot is free. */
  lemma IterationAccepts(s: State, x: Input)
    requires Inv(s) && ValidInput(x)
    ensures |s.chunks| in Step(s, x).sent <==> exists i :: Takes(s, x, i)
    ensures forall c :: c in s.sent ==> c in Step(s, x).sent
    ensures forall c :: c in Step(s, x).sent ==> c in s.sent || c == |s.chunks|
    ensures Step(s, x).nfds == s.nfds || exists i: nat :: Takes(s, x, i) && Step(s, x).nfds == i + 1
  {
    hide CoverInv, BytesInv, Takes;
    StepIs(s, x);
    var i := FirstFree(s.fds, FIRST);
    TakesFirst(s, x);
    if i < SLOTS {
      TakesIff(s, x, i);
    }
  }

  lemma AcceptingKeepsInv(s: State, x: Input) returns (t: nat)
    requires Inv(s) && ValidInput(x) && !AcceptFails(x)
    ensures InvAt(Accepting(s, x), t) && Accepting(s, x).gone == s.gone && Accepting(s, x).chunks == s.chunks
  {
    hide NamesInv, CoverInv, BytesInv;
    PollKeepsInv(s, x);
    t := |s.chunks|;
    if x.r > 0 && x.accepting {
      AcceptKeepsInv(Poll(s, x), x.fd);
      t := t + 1;
    }
  }

  /** Who leaves in the write and read loops, by name. */
  lemma AfterAcceptLeaves(s: State, t: nat, chunk: seq<byte>, results: seq<int>, stop: bool, i: nat)
    requires InvAt(s, t) && |results| == SLOTS && i in Live(s.fds)
    ensures var u, c := AfterAccept(s, chunk, results, stop), s.conns[i];
            && (c in u.gone <==> s.ready[i] && results[i] <= 0) && (c in u.gone ==> u.gone[c] == |s.chunks|)
  {
    var b := Broadcast(s, chunk);
    BroadcastKeepsInv(s, t, chunk);
    ReapLive(b, results, i);
    assert i in Live(b.fds) && i < b.nfds;
  }

  lemma LiveStays(s: State, i: nat)
    requires Inv(s) && i in Live(s.fds)
    ensures s.conns[i] !in s.gone
  {
  }

  /** A connection leaves exactly in the iteration in which its slot is read and found to have left. */
  lemma IterationLeaves(s: State, x: Input, i: nat)
    requires Inv(s) && ValidInput(x) && 2 <= i <= 100 && (s.fds[i] != -1 || Takes(s, x, i))
    ensures var t, c := Step(s, x), if s.fds[i] != -1 then s.conns[i] else |s.chunks|;
            && (c in t.gone <==> LeavesNow(s, x, i)) && (c in t.gone ==> t.gone[c] == |s.chunks|)
  {
    hide NamesInv, CoverInv, BytesInv, AfterAccept, Accepting, Takes;
    StepIs(s, x);
    TakesIff(s, x, i);
    if AcceptFails(x) {
      LiveStays(s, i);
    } else {
      var t := AcceptingKeepsInv(s, x);
      AcceptingSlot(s, x, i);
      assert s.fds[i] != -1 ==> i in Live(s.fds);
      AfterAcceptLeaves(Accepting(s, x), t, Typed(x), x.results, x.r == -1, i);
    }
  }

  // ------------------------------------------------------------------- over the inputs

  /** poll returned -1; the iteration is completed before the loop ends. */
  predicate PollFails(x: Input) {
    x.r == -1
  }

  /** The inputs of a run: it takes all of them, or stops at the first for which poll fails. */
  ghost predicate TakesAll(s: State, xs: seq<Input>, n: nat) {
    && n <= |xs| && |s.chunks| == n
    && (forall k :: 0 <= k < n ==> s.chunks[k] == Typed(xs[k]))
    && (forall k :: 0 <= k < n - 1 ==> !PollFails(xs[k]))
    && (s.stopped <==> n > 0 && PollFails(xs[n - 1]))
    && (n < |xs| ==> s.stopped)
  }

  /** What was typed in the iterations a..b-1. */
  function TypedBetween(xs: seq<Input>, a: nat, b: nat): seq<byte>
    requires b <= |xs|
  {
    if a >= b then [] else TypedBetween(xs, a, b - 1) + Typed(xs[b - 1])
  }

  lemma AfterAcceptReads(s: State, chunk: seq<byte>, results: seq<int>, stop: bool)
    requires Shape(s) && |results| == SLOTS
    ensures AfterAccept(s, chunk, results, stop).chunks == s.chunks + [chunk]
    ensures AfterAccept(s, chunk, results, stop).stopped == stop
  {
    hide SendBelow, LeftBelow;
  }

  lemma StepReads(s: State, x: Input)
    requires Shape(s) && ValidInput(x) && !s.stopped
    ensures Step(s, x).chunks == s.chunks + [Typed(x)]
    ensures Step(s, x).stopped <==> PollFails(x)
  {
    hide AfterAccept;
    StepIs(s, x);
    if !AcceptFails(x) {
      AfterAcceptReads(Accepting(s, x), Typed(x), x.results, PollFails(x));
    }
  }

  /** The chunks of a run are what was typed, iteration by iteration. */
  lemma {:induction false} RunReads(s: State, xs: seq<Input>)
    requires Initial(s) && ValidInputs(xs)
    ensures TakesAll(Run(s, xs), xs, |Run(s, xs).chunks|)
  {
    hide Step;
    if xs != [] {
      var front := xs[..|xs| - 1];
      RunReads(s, front);
      if !Run(s, front).stopped {
        StepReads(Run(s, front), xs[|xs| - 1]);
      }
    }
  }

  lemma {:induction false} FlattenIsTyped(chunks: seq<seq<byte>>, xs: seq<Input>, a: nat, b: nat)
    requires a <= b <= |chunks| <= |xs| && forall k :: 0 <= k < |chunks| ==> chunks[k] == Typed(xs[k])
    ensures Flatten(chunks[a..b]) == TypedBetween(xs, a, b)
    decreases b
  {
    hide Typed;
    if a == b {
      assert chunks[a..b] == [];
    } else {
      hide Flatten;
      FlattenIsTyped(chunks, xs, a, b - 1);
      assert chunks[a..b] == chunks[a..b - 1] + [chunks[b - 1]];
      FlattenAppend(chunks[a..b - 1], chunks[b - 1]);
    }
  }

  /** Connection c has been sent, in order, all that was typed from its acceptance on while it was tracked. */
  ghost predicate Delivered(s: State, xs: seq<Input>, c: nat) {
    && c in s.sent && c < |s.chunks| <= |xs| && Shape(s)
    && (c in s.gone ==>
          c <= s.gone[c] < |s.chunks| && s.sent[c] == TypedBetween(xs, c, s.gone[c] + 1))
    && (c !in s.gone ==>
          s.sent[c] == TypedBetween(xs, c, |s.chunks|) && HeldBelow(s, c, SLOTS))
  }

  lemma DueNow(s: State, c: nat)
    requires Inv(s) && c in s.sent
    ensures c < |s.chunks| && Shape(s)
    ensures c in s.gone ==> c <= s.gone[c] < |s.chunks| && s.sent[c] == Flatten(s.chunks[c..s.gone[c] + 1])
    ensures c !in s.gone ==> s.sent[c] == Flatten(s.chunks[c..|s.chunks|]) && HeldBelow(s, c, SLOTS)
  {
    hide Flatten, HeldBelow;
    assert s.sent[c] == Due(s, c);
    assert s.chunks[c..] == s.chunks[c..|s.chunks|];
  }

  lemma InvDelivers(s: State, xs: seq<Input>, c: nat)
    requires Inv(s) && TakesAll(s, xs, |s.chunks|) && c in s.sent
    ensures Delivered(s, xs, c)
  {
    hide TableInv, HeldBelow, Flatten, TypedBetween, Typed, PollFails;
    DueNow(s, c);
    if c in s.gone {
      FlattenIsTyped(s.chunks, xs, c, s.gone[c] + 1);
    } else {
      FlattenIsTyped(s.chunks, xs, c, |s.chunks|);
    }
  }

  /**
   In every run with complete writes, what has been written to a connection is, in order, what was typed
   from the iteration that accepted it up to now, or up to and including the iteration in which it left.
   */
  lemma EveryChunkDelivered(s: State, xs: seq<Input>, c: nat)
    requires Initial(s) && ValidInputs(xs) && c in Run(s, xs).sent
    ensures Delivered(Run(s, xs), xs, c)
  {
    RunKeepsInv(s, xs);
    RunReads(s, xs);
    InvDelivers(Run(s, xs), xs, c);
  }

  // ----------------------------------------------------------------- the program

  /** One more turn of the write loop appends the chunk to that slot's client only. */
  lemma SendNext(s: State, t: nat, chunk: seq<byte>, i: nat)
    requires Shape(s) && NamesInv(s, t) && FIRST <= i < SLOTS
    ensures i in Live(s.fds) ==> s.conns[i] in SendBelow(s, chunk, i)
    ensures SendBelow(s, chunk, i + 1) ==
            if i in Live(s.fds)
            then SendBelow(s, chunk, i)[s.conns[i] := SendBelow(s, chunk, i)[s.conns[i]] + chunk]
            else SendBelow(s, chunk, i)
  {
    forall c | c in s.sent
      ensures HeldBelow(s, c, i + 1) <==> HeldBelow(s, c, i) || (i in Live(s.fds) && s.conns[i] == c)
    {
    }
    assert i in Live(s.fds) ==> !HeldBelow(s, s.conns[i], i);
  }

  lemma LeavesNext(s: State, results: seq<int>, i: nat, c: nat)
    requires Shape(s) && |results| == SLOTS && FIRST <= i < SLOTS
    ensures LeavesBelow(s, results, c, i + 1) <==>
            LeavesBelow(s, results, c, i) || (Departs(s, results, i) && s.conns[i] == c)
  {
  }

  lemma LeftNext(s: State, results: seq<int>, i: nat)
    requires Shape(s) && |results| == SLOTS && FIRST <= i < SLOTS
    requires i in Live(s.fds) ==> s.conns[i] in s.sent
    ensures LeftBelow(s, results, i + 1) ==
            if Departs(s, results, i) then LeftBelow(s, results, i)[s.conns[i] := Now(s)]
            else LeftBelow(s, results, i)
  {
    forall c | c in s.sent
      ensures LeavesBelow(s, results, c, i + 1) <==>
              LeavesBelow(s, results, c, i) || (Departs(s, results, i) && s.conns[i] == c)
    {
      LeavesNext(s, results, i, c);
    }
  }

  lemma ReapNone(s: State, results: seq<int>)
    requires Shape(s) && |results| == SLOTS
    ensures ReapBelow(s, results, FIRST) == s
  {
    assert LeftBelow(s, results, FIRST) == map[];
    assert ReapBelow(s, results, FIRST).fds == s.fds;
  }

  /** One more turn of the read loop frees that slot if its client has left. */
  lemma ReapNext(s: State, results: seq<int>, i: nat)
    requires Shape(s) && |results| == SLOTS && FIRST <= i < SLOTS
    requires i in Live(s.fds) ==> s.conns[i] in s.sent
    ensures var r, u := ReapBelow(s, results, i), ReapBelow(s, results, i + 1);
            if Departs(s, results, i)
            then u == r.(fds := r.fds[i := FREE], gone := r.gone[s.conns[i] := Now(s)])
            else u == r
  {
    hide Departs, LeftBelow;
    var r, u := ReapBelow(s, results, i), ReapBelow(s, results, i + 1);
    LeftNext(s, results, i);
    assert u.fds == if Departs(s, results, i) then r.fds[i := FREE] else r.fds;
    assert u.gone == if Departs(s, results, i) then r.gone[s.conns[i] := Now(s)] else r.gone;
  }

  /** The test of the read loop, made when the slots below i have been dealt with. */
  lemma DepartsIff(s: State, results: seq<int>, i: nat)
    requires Shape(s) && |results| == SLOTS && FIRST <= i < s.nfds
    ensures ReapBelow(s, results, i).fds[i] == s.fds[i]
    ensures Departs(s, results, i) <==> s.fds[i] != FREE && s.ready[i] && results[i] <= 0
  {
    hide LeftBelow;
  }

  /** The server's memory: the poll array of `main`, with the history as ghost fields. */
  class Server {
    const fds: array<int>
    const ready: array<bool>
    var nfds: nat
    var stopped: bool
    ghost var conns: seq<nat>
    ghost var sent: map<nat, seq<byte>>
    ghost var gone: map<nat, nat>
    ghost var chunks: seq<seq<byte>>
    ghost var peak: nat

    ghost predicate Valid()
      reads this
    {
      && fds.Length == ready.Length == MAX_CLIENTS + 2
      && |conns| == SLOTS && FIRST <= nfds <= SLOTS
    }

    ghost function Abs(): (s: State)
      requires Valid()
      reads this, fds, ready
      ensures Shape(s)
    {
      State(fds[..SLOTS], ready[..SLOTS], nfds, stopped, conns, sent, gone, chunks, peak)
    }

    constructor ()
      ensures Valid() && fresh(fds) && fresh(ready) && Initial(Abs())
    {
      fds := new int[MAX_CLIENTS + 2];
      ready := new bool[MAX_CLIENTS + 2];
      nfds, stopped := 2, false;
      conns := seq(SLOTS, _ => 0);
      sent, gone, chunks, peak := map[], map[], [], 0;
      new;
      for i := 2 to MAX_CLIENTS + 1
        invariant forall j :: FIRST <= j < i ==> fds[j] == FREE
        modifies fds
      {
        fds[i] := FREE;
      }
    }

    method DoPoll(x: Input)
      requires Valid() && ValidInput(x)
      modifies ready
      ensures Valid() && Abs() == Poll(old(Abs()), x)
    {
      for i := 0 to nfds
        invariant forall j :: 0 <= j < i ==> ready[j] == (fds[j] != FREE && x.ready[j])
        invariant forall j :: i <= j < ready.Length ==> ready[j] == old(ready[j])
      {
        ready[i] := fds[i] != FREE && x.ready[i];
      }
    }

    method DoAccept(fd: int)
      requires Valid()
      modifies this, fds
      ensures Valid() && Abs() == Accept(old(Abs()), fd)
    {
      var i := FindFree(fds, SLOTS);
      if i < SLOTS {
        fds[i] := fd;
        if i >= nfds {
          nfds := i + 1;
        }
        conns := conns[i := |chunks|];
        sent := sent[|chunks| := []];
        peak := Max(peak, |Live(fds[..SLOTS])|);
      }
    }

    method DoBroadcast(chunk: seq<byte>, ghost t: nat)
      requires Valid() && NamesInv(Abs(), t)
      modifies this
      ensures Valid() && Abs() == Broadcast(old(Abs()), chunk)
    {
      ghost var before := Abs();
      assert sent == SendBelow(before, chunk, FIRST);
      for i := FIRST to nfds
        modifies this`sent
        invariant sent == SendBelow(before, chunk, i)
      {
        SendNext(before, t, chunk, i);
        if fds[i] != FREE {
          sent := sent[conns[i] := sent[conns[i]] + chunk];
        }
      }
      chunks := chunks + [chunk];
    }

    method DoRead(results: seq<int>, ghost t: nat)
      requires Valid() && |results| == SLOTS && NamesInv(Abs(), t)
      modifies this, fds
      ensures Valid() && Abs() == ReapBelow(old(Abs()), results, old(nfds))
    {
      hide ReapBelow, Departs;
      ghost var before := Abs();
      ReapNone(before, results);
      for i := FIRST to nfds
        modifies this`gone, fds
        invariant Abs() == ReapBelow(before, results, i)
      {
        ReapNext(before, results, i);
        DepartsIff(before, results, i);
        if fds[i] != FREE && ready[i] {
          if results[i] <= 0 {
            ghost var r := Abs();
            fds[i] := FREE;
            gone := gone[conns[i] := Now(before)];
            assert Abs().fds == r.fds[i := FREE];
          }
        }
      }
    }

    /** One turn of the endless loop in `main`. */
    method Iterate(x: Input)
      requires Valid() && Inv(Abs()) && ValidInput(x)
      modifies this, fds, ready
      ensures Valid() && Abs() == Step(old(Abs()), x) && Inv(Abs())
    {
      hide NamesInv, CoverInv, BytesInv, SendBelow, LeftBelow;
      StepKeepsInv(Abs(), x);
      PollKeepsInv(Abs(), x);
      DoPoll(x);
      ghost var t := |chunks|;
      if x.r > 0 && x.accepting {
        if x.fd == -1 {
          chunks := chunks + [[]];
          return;
        }
        AcceptKeepsInv(Abs(), x.fd);
        DoAccept(x.fd);
        t := t + 1;
      }
      var chunk := [];
      if x.r > 0 && x.typing {
        chunk := x.chunk;
      }
      BroadcastKeepsInv(Abs(), t, chunk);
      DoBroadcast(chunk, t);
      DoRead(x.results, |chunks|);
      stopped := x.r == -1;
    }

    /** The server on any sequence of inputs, until poll fails. */
    method Serve(xs: seq<Input>)
      requires Valid() && Initial(Abs()) && ValidInputs(xs)
      modifies this, fds, ready
      ensures Valid() && Abs() == Run(old(Abs()), xs) && Inv(Abs())
    {
      ghost var start := Abs();
      RunKeepsInv(start, []);
      for i := 0 to |xs|
        invariant Valid() && Abs() == Run(start, xs[..i]) && Inv(Abs())
      {
        assert xs[..i + 1][..i] == xs[..i];
        if !stopped {
          Iterate(xs[i]);
        }
      }
      assert xs[..|xs|] == xs;
    }
  }
}
