/**
 The mTLS chat server: the client table of the poll loop with a parallel array of SSL objects
 and a polled prefix `nfds` that is lowered on every departure.

 `World` is what the kernel and OpenSSL know: the client descriptors that are open and the SSL
 objects that are allocated, with the descriptor each is bound to. Every call the server makes is
 played against it, and a call on a closed descriptor or on an object that is not allocated
 (a double free, a use after free) leaves no world at all.
 */
module MtlsServer {
  import opened Common
  import opened Slots

  const MAX_CLIENTS: nat := 102
  const NULL: nat := 0
  const UNBOUND: int := -1

  // ------------------------------------------------------ the kernel and OpenSSL

  datatype World = World(open: set<int>, ssl: map<nat, int>, accepted: nat, closed: nat)

  datatype Op = Handshaking | Reading | Writing | GettingError | ShuttingDown

  datatype Call =
    | Accepted(fd: int)          // accept returned fd
    | Close(fd: int)
    | SslNew(p: nat)             // SSL_new returned p
    | SetFd(p: nat, fd: int)     // SSL_set_fd succeeded
    | SetFdFailed(p: nat)
    | Use(p: nat, op: Op)        // SSL_accept, SSL_read, SSL_write, SSL_get_error, SSL_shutdown
    | Free(p: nat)

  function Exec(w: Option<World>, c: Call): Option<World> {
    if w.None? then None
    else
      var v := w.value;
      match c
      case Accepted(fd) =>
        if fd in v.open then None else Some(v.(open := v.open + {fd}, accepted := v.accepted + 1))
      case Close(fd) =>
        if fd in v.open then Some(v.(open := v.open - {fd}, closed := v.closed + 1)) else None
      case SslNew(p) =>
        if p == NULL || p in v.ssl then None else Some(v.(ssl := v.ssl[p := UNBOUND]))
      case SetFd(p, fd) =>
        if p in v.ssl && fd in v.open then Some(v.(ssl := v.ssl[p := fd])) else None
      case SetFdFailed(p) =>
        if p in v.ssl then w else None
      case Use(p, _) =>
        if p in v.ssl && v.ssl[p] in v.open then w else None
      case Free(p) =>
        if p in v.ssl then Some(v.(ssl := v.ssl - {p})) else None
  }

  // ------------------------------------------------------------------ the server

  datatype Tls =
    | NewFails                      // SSL_new returned NULL
    | SetFdFails(p: nat)
    | Handshake(p: nat, r: int)     // SSL_accept returned r

  datatype ReadResult = Data | Retry | Shutdown | Broken

  /** What the outside world does during one iteration of the poll loop. */
  datatype Input = Input(
    r: int, accepting: bool, typing: bool, ready: seq<bool>,
    fd: int,                      // what accept returns
    tls: Tls,
    stdin: int,                   // what the read of stdin returns
    results: seq<ReadResult>)     // what SSL_read and SSL_get_error say of each client

  datatype State = State(
    fds: seq<int>, ssls: seq<nat>, ready: seq<bool>, nfds: int,
    world: Option<World>,
    calls: seq<Call>)             // the calls made so far

  ghost predicate Initial(s: State) {
    && |s.fds| == |s.ssls| == |s.ready| == MAX_CLIENTS
    && (forall i :: FIRST <= i < MAX_CLIENTS ==> s.fds[i] == FREE)
    && s.nfds == 2
    && s.world == Some(World({}, map[], 0, 0)) && s.calls == []
  }

  ghost predicate Shape(s: State) {
    |s.fds| == |s.ssls| == |s.ready| == MAX_CLIENTS && s.nfds <= MAX_CLIENTS
  }

  /** accept returns a descriptor not in use, SSL_new memory not in use (it may reuse freed memory). */
  ghost predicate ValidInput(s: State, x: Input) {
    && |x.ready| == |x.results| == MAX_CLIENTS
    && (s.world.Some? ==>
          && (x.fd >= 0 ==> x.fd !in s.world.value.open)
          && (!x.tls.NewFails? ==> x.tls.p != NULL && x.tls.p !in s.world.value.ssl))
  }

  function Poll(s: State, ready: seq<bool>): State
    requires |s.fds| == |s.ready| == MAX_CLIENTS == |ready|
  {
    s.(ready := seq(MAX_CLIENTS, i requires 0 <= i < MAX_CLIENTS =>
         if i < s.nfds then s.fds[i] != FREE && ready[i] else s.ready[i]))
  }

  /** The server makes a call. */
  function Make(s: State, c: Call): State {
    s.(world := Exec(s.world, c), calls := s.calls + [c])
  }

  /** tcp_accept_function on a new descriptor; the table is full when the slot is MAX_CLIENTS. */
  function TcpAccept(s: State, fd: int): (t: State)
    requires Shape(s)
    ensures Shape(t)
  {
    var i := FirstFree(s.fds, FIRST);
    var a := Make(s, Accepted(fd));
    if i == MAX_CLIENTS then Make(a, Close(fd))
    else a.(fds := s.fds[i := fd], ready := s.ready[i := false], nfds := Max(s.nfds, i + 1))
  }

  predicate TlsOk(tls: Tls) {
    tls.Handshake? && tls.r > 0
  }

  /** tls_accept_function: on failure the object is freed but the pointer stays in the array. */
  function TlsAccept(s: State, i: nat, tls: Tls): (t: State)
    requires Shape(s) && i < MAX_CLIENTS
    ensures Shape(t)
  {
    match tls
    case NewFails => s.(ssls := s.ssls[i := NULL])
    case SetFdFails(p) =>
      Make(Make(Make(s.(ssls := s.ssls[i := p]), SslNew(p)), SetFdFailed(p)), Free(p))
    case Handshake(p, r) =>
      var h := Make(Make(Make(s.(ssls := s.ssls[i := p]), SslNew(p)), SetFd(p, s.fds[i])), Use(p, Handshaking));
      if r > 0 then h
      else if r < 0 then Make(Make(h, Use(p, ShuttingDown)), Free(p))
      else Make(h, Free(p))
  }

  /** What poll_loop does when the handshake fails. */
  function Reject(s: State, i: nat): State
    requires Shape(s) && i < MAX_CLIENTS
  {
    Make(s, Close(s.fds[i])).(fds := s.fds[i := FREE], nfds := s.nfds - 1)
  }

  /** The accepting branch of the loop; `ok` is false when the iteration ends there. */
  function AcceptClient(s: State, fd: int, tls: Tls): (r: (State, bool))
    requires Shape(s)
    ensures Shape(r.0)
  {
    if fd < 0 then (s, false)
    else
      var i := FirstFree(s.fds, FIRST);
      var t := TcpAccept(s, fd);
      if i == MAX_CLIENTS then (t, false)
      else
        var u := TlsAccept(t, i, tls);
        if TlsOk(tls) then (u, true) else (Reject(u, i), false)
  }

  /** The SSL_write loop from slot i on. */
  function BroadcastFrom(s: State, i: nat): (t: State)
    requires Shape(s)
    ensures Shape(t)
    decreases MAX_CLIENTS - i
  {
    if i >= s.nfds then s
    else if s.fds[i] != FREE then BroadcastFrom(Make(s, Use(s.ssls[i], Writing)), i + 1)
    else BroadcastFrom(s, i + 1)
  }

  /** A departure: the labels `cleanup` and `error` of monitor. */
  function Depart(s: State, i: nat): State
    requires Shape(s) && i < MAX_CLIENTS
  {
    Make(Make(s, Free(s.ssls[i])), Close(s.fds[i])).(
      fds := s.fds[i := FREE], ssls := s.ssls[i := NULL], nfds := s.nfds - 1)
  }

  function UseSlot(s: State, i: nat, op: Op): State
    requires Shape(s) && i < MAX_CLIENTS
  {
    Make(s, Use(s.ssls[i], op))
  }

  function Monitor(s: State, i: nat, r: ReadResult): (t: State)
    requires Shape(s) && i < MAX_CLIENTS
    ensures Shape(t) && t.nfds <= s.nfds
  {
    var read := UseSlot(s, i, Reading);
    match r
    case Data => read
    case Retry => UseSlot(read, i, GettingError)
    case Shutdown => Depart(UseSlot(UseSlot(read, i, GettingError), i, ShuttingDown), i)
    case Broken => Depart(UseSlot(read, i, GettingError), i)
  }

  predicate Asked(s: State, i: nat)
    requires Shape(s) && i < MAX_CLIENTS
  {
    s.fds[i] != FREE && s.ready[i]
  }

  /** The monitoring loop from slot i on; its bound `nfds` is read anew each time round. */
  function MonitorFrom(s: State, i: nat, results: seq<ReadResult>): (t: State)
    requires Shape(s) && |results| == MAX_CLIENTS
    ensures Shape(t)
    decreases MAX_CLIENTS - i
  {
    if i >= s.nfds then s
    else MonitorFrom(if Asked(s, i) then Monitor(s, i, results[i]) else s, i + 1, results)
  }

  /** The state in which the monitoring loop starts, if the iteration gets that far. */
  function BeforeMonitor(s: State, x: Input): (r: (State, bool))
    requires Shape(s) && |x.ready| == MAX_CLIENTS
    ensures Shape(r.0)
  {
    var p := Poll(s, x.ready);
    var (a, ok) := if x.r > 0 && x.accepting then AcceptClient(p, x.fd, x.tls) else (p, true);
    if !ok then (a, false)
    else if x.r > 0 && x.typing then
      if x.stdin <= 0 then (a, false) else (BroadcastFrom(a, FIRST), x.r > 0)
    else (a, x.r > 0)
  }

  /** One iteration of the poll loop. */
  function Step(s: State, x: Input): (t: State)
    requires Shape(s) && |x.ready| == |x.results| == MAX_CLIENTS
    ensures Shape(t)
  {
    var (b, reached) := BeforeMonitor(s, x);
    if reached then MonitorFrom(b, FIRST, x.results) else b
  }

  // ------------------------------------------------------------------ invariant

  ghost predicate TableInv(s: State) {
    Shape(s) && 2 <= s.nfds && s.nfds - 2 <= |Live(s.fds)|
  }

  /** Every live slot holds an open descriptor of its own and a live SSL object bound to it. */
  ghost predicate Holds(s: State, w: World)
    requires Shape(s)
  {
    && (forall i :: i in Live(s.fds) ==>
          && s.fds[i] in w.open && s.ssls[i] != NULL
          && s.ssls[i] in w.ssl && w.ssl[s.ssls[i]] == s.fds[i])
    && (forall i, j :: i in Live(s.fds) && j in Live(s.fds) && i != j ==> s.fds[i] != s.fds[j])
    && w.accepted - w.closed == |Live(s.fds)|
  }

  ghost predicate HeldFd(fds: seq<int>, fd: int) {
    exists i :: i in Live(fds) && fds[i] == fd
  }

  ghost predicate HeldSsl(fds: seq<int>, ssls: seq<nat>, p: nat)
    requires |ssls| == |fds|
  {
    exists i :: i in Live(fds) && ssls[i] == p
  }

  /** Nothing is leaked: what is open or allocated is held by a live slot. */
  ghost predicate NoLeak(s: State, w: World)
    requires Shape(s)
  {
    && (forall fd :: fd in w.open ==> HeldFd(s.fds, fd))
    && (forall p :: p in w.ssl ==> HeldSsl(s.fds, s.ssls, p))
  }

  /** The world is the table's: what is open and allocated is what the live slots hold. */
  ghost predicate Owns(s: State, w: World)
    requires Shape(s)
  {
    Holds(s, w) && NoLeak(s, w)
  }

  ghost predicate Inv(s: State) {
    TableInv(s) && s.world.Some? && Owns(s, s.world.value)
  }

  lemma PollKeepsInv(s: State, ready: seq<bool>)
    requires Inv(s) && |ready| == MAX_CLIENTS
    ensures Inv(Poll(s, ready))
  {
  }

  /** What a successful accept leaves, call by call. */
  lemma AcceptedState(s: State, fd: int, tls: Tls)
    requires Inv(s) && fd >= 0 && fd !in s.world.value.open && TlsOk(tls)
    requires tls.p != NULL && tls.p !in s.world.value.ssl && FirstFree(s.fds, FIRST) < MAX_CLIENTS
    ensures var i, w := FirstFree(s.fds, FIRST), s.world.value;
            AcceptClient(s, fd, tls) ==
              (s.(fds := s.fds[i := fd], ssls := s.ssls[i := tls.p], ready := s.ready[i := false],
                  nfds := Max(s.nfds, i + 1),
                  calls := s.calls + [Accepted(fd), SslNew(tls.p), SetFd(tls.p, fd), Use(tls.p, Handshaking)],
                  world := Some(World(w.open + {fd}, w.ssl[tls.p := fd], w.accepted + 1, w.closed))), true)
  {
    hide Owns;
    var w := s.world.value;
    assert w.ssl[tls.p := UNBOUND][tls.p := fd] == w.ssl[tls.p := fd];
    assert s.calls + [Accepted(fd)] + [SslNew(tls.p)] + [SetFd(tls.p, fd)] + [Use(tls.p, Handshaking)] ==
           s.calls + [Accepted(fd), SslNew(tls.p), SetFd(tls.p, fd), Use(tls.p, Handshaking)];
  }

  /** The calls of a handshake that fails: what it has made it frees, after a shutdown if SSL_accept failed. */
  function FailedCalls(tls: Tls, fd: int): seq<Call> {
    match tls
    case NewFails => []
    case SetFdFails(p) => [SslNew(p), SetFdFailed(p), Free(p)]
    case Handshake(p, r) =>
      if r < 0 then [SslNew(p), SetFd(p, fd), Use(p, Handshaking), Use(p, ShuttingDown), Free(p)]
      else [SslNew(p), SetFd(p, fd), Use(p, Handshaking), Free(p)]
  }

  /** A failed handshake frees the object it made. */
  lemma FailedHandshakeFrees(s: State, i: nat, tls: Tls)
    requires Shape(s) && i < MAX_CLIENTS && s.world.Some? && s.fds[i] in s.world.value.open
    requires !TlsOk(tls) && (tls.NewFails? || (tls.p != NULL && tls.p !in s.world.value.ssl))
    ensures TlsAccept(s, i, tls).world == s.world
    ensures TlsAccept(s, i, tls).calls == s.calls + FailedCalls(tls, s.fds[i])
  {
    var w := s.world.value;
    if !tls.NewFails? {
      assert w.ssl[tls.p := UNBOUND] - {tls.p} == w.ssl;
      assert w.ssl[tls.p := UNBOUND][tls.p := s.fds[i]] - {tls.p} == w.ssl;
    }
  }

  /** What a failed one leaves: everything that was acquired has been given back. */
  lemma RejectedState(s: State, fd: int, tls: Tls)
    requires Inv(s) && fd >= 0 && fd !in s.world.value.open && !TlsOk(tls)
    requires tls.NewFails? || (tls.p != NULL && tls.p !in s.world.value.ssl)
    requires FirstFree(s.fds, FIRST) < MAX_CLIENTS
    ensures var i, w, r := FirstFree(s.fds, FIRST), s.world.value, AcceptClient(s, fd, tls);
            && !r.1 && r.0.fds == s.fds && r.0.nfds == Max(s.nfds, i + 1) - 1
            && |r.0.ssls| == |s.ssls| && (forall j :: 0 <= j < |s.ssls| && j != i ==> r.0.ssls[j] == s.ssls[j])
            && r.0.world == Some(w.(accepted := w.accepted + 1, closed := w.closed + 1))
            && r.0.ready == s.ready[i := false]
            && r.0.calls == s.calls + [Accepted(fd)] + FailedCalls(tls, fd) + [Close(fd)]
  {
    hide Owns;
    var i, w := FirstFree(s.fds, FIRST), s.world.value;
    FailedHandshakeFrees(TcpAccept(s, fd), i, tls);
    assert s.fds[i := fd][i := FREE] == s.fds;
    assert w.open + {fd} - {fd} == w.open;
  }

  /** First fit: filling slot i raises the prefix only over slots that are all taken. */
  lemma FillKeepsCount(s: State, fd: int)
    requires TableInv(s) && FirstFree(s.fds, FIRST) < MAX_CLIENTS && fd != FREE
    ensures var i := FirstFree(s.fds, FIRST);
            Max(s.nfds, i + 1) - 2 <= |Live(s.fds[i := fd])| == |Live(s.fds)| + 1
  {
    var i := FirstFree(s.fds, FIRST);
    FillSlot(s.fds, i, fd);
    assert Upto(i + 1) <= Live(s.fds[i := fd]);
    SubsetSize(Upto(i + 1), Live(s.fds[i := fd]));
  }

  /** t is s with descriptor fd and object p, both new, in the free slot i. */
  ghost predicate Filled(s: State, t: State, i: nat, fd: int, p: nat) {
    && Shape(s) && Shape(t) && s.world.Some?
    && FIRST <= i < MAX_CLIENTS && s.fds[i] == FREE && fd >= 0 && p != NULL
    && fd !in s.world.value.open && p !in s.world.value.ssl
    && t.fds == s.fds[i := fd] && t.ssls == s.ssls[i := p]
    && var w := s.world.value;
       t.world == Some(World(w.open + {fd}, w.ssl[p := fd], w.accepted + 1, w.closed))
  }

  lemma FillKeepsHolds(s: State, t: State, i: nat, fd: int, p: nat)
    requires Filled(s, t, i, fd, p) && Holds(s, s.world.value)
    ensures Holds(t, t.world.value)
  {
    FillSlot(s.fds, i, fd);
  }

  lemma FillLeaksNothing(s: State, t: State, i: nat, fd: int, p: nat)
    requires Filled(s, t, i, fd, p) && NoLeak(s, s.world.value)
    ensures NoLeak(t, t.world.value)
  {
    FillSlot(s.fds, i, fd);
    assert i in Live(t.fds) && t.fds[i] == fd && t.ssls[i] == p;
    forall d | d in t.world.value.open ensures HeldFd(t.fds, d) {
      if d != fd {
        var j :| j in Live(s.fds) && s.fds[j] == d;
        assert j in Live(t.fds) && t.fds[j] == d;
      }
    }
    forall q | q in t.world.value.ssl ensures HeldSsl(t.fds, t.ssls, q) {
      if q != p {
        var j :| j in Live(s.fds) && s.ssls[j] == q;
        assert j in Live(t.fds) && t.ssls[j] == q;
      }
    }
  }

  /** The same table and world up to the counters and to pointers in free slots. */
  lemma SameOwns(s: State, t: State, k: nat)
    requires Shape(s) && s.world.Some? && Owns(s, s.world.value) && Shape(t) && t.fds == s.fds
    requires forall i :: i in Live(s.fds) ==> t.ssls[i] == s.ssls[i]
    requires var w := s.world.value;
             t.world == Some(w.(accepted := w.accepted + k, closed := w.closed + k))
    ensures Owns(t, t.world.value)
  {
    assert forall d :: HeldFd(s.fds, d) ==> HeldFd(t.fds, d);
    forall q | HeldSsl(s.fds, s.ssls, q) ensures HeldSsl(t.fds, t.ssls, q) {
      var j :| j in Live(s.fds) && s.ssls[j] == q;
      assert j in Live(t.fds) && t.ssls[j] == q;
    }
  }

  lemma FullKeepsInv(s: State, fd: int, tls: Tls)
    requires Inv(s) && fd >= 0 && fd !in s.world.value.open && FirstFree(s.fds, FIRST) == MAX_CLIENTS
    ensures Inv(AcceptClient(s, fd, tls).0) && AcceptClient(s, fd, tls).0.fds == s.fds
    ensures AcceptClient(s, fd, tls).0.nfds == s.nfds && AcceptClient(s, fd, tls).0.ssls == s.ssls
    ensures AcceptClient(s, fd, tls).0.ready == s.ready && !AcceptClient(s, fd, tls).1
    ensures AcceptClient(s, fd, tls).0.calls == s.calls + [Accepted(fd), Close(fd)]
  {
    var w := s.world.value;
    assert w.open + {fd} - {fd} == w.open;
    SameOwns(s, AcceptClient(s, fd, tls).0, 1);
  }

  lemma SuccessKeepsInv(s: State, fd: int, tls: Tls)
    requires Inv(s) && fd >= 0 && fd !in s.world.value.open && TlsOk(tls)
    requires tls.p != NULL && tls.p !in s.world.value.ssl && FirstFree(s.fds, FIRST) < MAX_CLIENTS
    ensures Inv(AcceptClient(s, fd, tls).0)
  {
    AcceptedState(s, fd, tls);
    FillKeepsCount(s, fd);
    var i, t := FirstFree(s.fds, FIRST), AcceptClient(s, fd, tls).0;
    assert Filled(s, t, i, fd, tls.p);
    FillKeepsHolds(s, t, i, fd, tls.p);
    FillLeaksNothing(s, t, i, fd, tls.p);
  }

  lemma FailureKeepsInv(s: State, fd: int, tls: Tls)
    requires Inv(s) && fd >= 0 && fd !in s.world.value.open && !TlsOk(tls)
    requires tls.NewFails? || (tls.p != NULL && tls.p !in s.world.value.ssl)
    requires FirstFree(s.fds, FIRST) < MAX_CLIENTS
    ensures Inv(AcceptClient(s, fd, tls).0)
  {
    hide AcceptClient, Owns;
    RejectedState(s, fd, tls);
    FillKeepsCount(s, fd);
    SameOwns(s, AcceptClient(s, fd, tls).0, 1);
  }

  lemma AcceptKeepsInv(s: State, fd: int, tls: Tls)
    requires Inv(s)
    requires fd >= 0 ==> fd !in s.world.value.open
    requires !tls.NewFails? ==> tls.p != NULL && tls.p !in s.world.value.ssl
    ensures Inv(AcceptClient(s, fd, tls).0)
  {
    if fd < 0 {
    } else if FirstFree(s.fds, FIRST) == MAX_CLIENTS {
      FullKeepsInv(s, fd, tls);
    } else if TlsOk(tls) {
      SuccessKeepsInv(s, fd, tls);
    } else {
      FailureKeepsInv(s, fd, tls);
    }
  }

  /** A call on a live slot's object is a legal one and changes nothing in the world. */
  lemma UseIsSafe(s: State, i: nat, op: Op)
    requires Inv(s) && i in Live(s.fds)
    ensures UseSlot(s, i, op) == s.(calls := s.calls + [Use(s.ssls[i], op)])
  {
  }

  /** The invariant does not speak of the calls made. */
  lemma CallsKeepInv(s: State, calls: seq<Call>)
    requires Inv(s)
    ensures Inv(s.(calls := calls))
  {
  }

  /** The clients in the slots from i up to n, in order. */
  function LiveSlots(fds: seq<int>, i: nat, n: int): (slots: seq<nat>)
    requires n <= |fds|
    ensures forall j :: j in slots <==> i <= j < n && fds[j] != -1
    ensures forall x, y :: 0 <= x < y < |slots| ==> slots[x] < slots[y]
    decreases n - i
  {
    if i >= n then []
    else
      var rest := LiveSlots(fds, i + 1, n);
      assert forall x :: 0 <= x < |rest| ==> rest[x] in rest;
      (if fds[i] != -1 then [i] else []) + rest
  }

  /** One SSL_write per slot. */
  function WritesTo(ssls: seq<nat>, slots: seq<nat>): (calls: seq<Call>)
    requires forall k :: 0 <= k < |slots| ==> slots[k] < |ssls|
    ensures |calls| == |slots|
    ensures forall k :: 0 <= k < |calls| ==> calls[k] == Use(ssls[slots[k]], Writing)
  {
    seq(|slots|, k requires 0 <= k < |slots| => Use(ssls[slots[k]], Writing))
  }

  /** The SSL_write calls of a broadcast that starts at slot i. */
  function Writes(s: State, i: nat): seq<Call>
    requires Shape(s)
  {
    var slots := LiveSlots(s.fds, i, s.nfds);
    assert forall k :: 0 <= k < |slots| ==> slots[k] in slots;
    WritesTo(s.ssls, slots)
  }

  lemma WritesNext(s: State, i: nat)
    requires Shape(s) && i < s.nfds
    ensures Writes(s, i) == (if s.fds[i] != -1 then [Use(s.ssls[i], Writing)] else []) + Writes(s, i + 1)
  {
    var slots, rest := LiveSlots(s.fds, i, s.nfds), LiveSlots(s.fds, i + 1, s.nfds);
    if s.fds[i] != -1 {
      assert slots == [i] + rest;
    }
  }

  lemma NoWrites(s: State, i: nat)
    requires Shape(s) && i >= s.nfds
    ensures Writes(s, i) == [] && s.(calls := s.calls + []) == s
  {
    assert s.calls + [] == s.calls;
  }

  lemma SameWrites(s: State, t: State, i: nat)
    requires Shape(s) && t == s.(calls := t.calls)
    ensures Writes(t, i) == Writes(s, i)
  {
  }

  /** A broadcast is one SSL_write to every polled client, in slot order, every one of them legal. */
  lemma {:induction false} BroadcastIsSafe(s: State, i: nat)
    requires Inv(s) && i >= FIRST
    ensures BroadcastFrom(s, i) == s.(calls := s.calls + Writes(s, i))
    decreases MAX_CLIENTS - i
  {
    hide Writes, Owns;
    if i < s.nfds {
      WritesNext(s, i);
      if s.fds[i] != FREE {
        var t := UseSlot(s, i, Writing);
        UseIsSafe(s, i, Writing);
        CallsKeepInv(s, t.calls);
        BroadcastIsSafe(t, i + 1);
        SameWrites(s, t, i + 1);
        assert s.calls + ([Use(s.ssls[i], Writing)] + Writes(s, i + 1)) == t.calls + Writes(s, i + 1);
      } else {
        BroadcastIsSafe(s, i + 1);
        assert [] + Writes(s, i + 1) == Writes(s, i + 1);
      }
    } else {
      NoWrites(s, i);
    }
  }

  lemma DepartKeepsHolds(s: State, i: nat)
    requires Shape(s) && s.world.Some? && Holds(s, s.world.value) && i in Live(s.fds)
    ensures Depart(s, i).world.Some? && Holds(Depart(s, i), Depart(s, i).world.value)
  {
    ClearSlot(s.fds, i);
  }

  lemma DepartWorld(s: State, i: nat)
    requires Shape(s) && s.world.Some? && Holds(s, s.world.value) && i in Live(s.fds)
    ensures var w := s.world.value;
            Depart(s, i).world ==
            Some(World(w.open - {s.fds[i]}, w.ssl - {s.ssls[i]}, w.accepted, w.closed + 1))
  {
  }

  lemma StillHeld(fds: seq<int>, ssls: seq<nat>, i: nat)
    requires |fds| == |ssls| && i in Live(fds)
    ensures forall d :: HeldFd(fds, d) && d != fds[i] ==> HeldFd(fds[i := FREE], d)
    ensures forall q :: HeldSsl(fds, ssls, q) && q != ssls[i] ==> HeldSsl(fds[i := FREE], ssls[i := NULL], q)
  {
    ClearSlot(fds, i);
    forall d | HeldFd(fds, d) && d != fds[i] ensures HeldFd(fds[i := FREE], d) {
      var j :| j in Live(fds) && fds[j] == d;
      assert j in Live(fds[i := FREE]) && fds[i := FREE][j] == d;
    }
    forall q | HeldSsl(fds, ssls, q) && q != ssls[i] ensures HeldSsl(fds[i := FREE], ssls[i := NULL], q) {
      var j :| j in Live(fds) && ssls[j] == q;
      assert j in Live(fds[i := FREE]) && ssls[i := NULL][j] == q;
    }
  }

  lemma DepartLeaksNothing(s: State, i: nat)
    requires Shape(s) && s.world.Some? && Owns(s, s.world.value) && i in Live(s.fds)
    ensures Depart(s, i).world.Some? && NoLeak(Depart(s, i), Depart(s, i).world.value)
  {
    hide HeldFd, HeldSsl, Exec, Holds;
    DepartWorld(s, i);
    StillHeld(s.fds, s.ssls, i);
  }

  predicate Leaves(r: ReadResult) {
    r.Shutdown? || r.Broken?
  }

  /** The calls made on the object p of a client with descriptor fd, by the result of SSL_read. */
  function ReadCalls(p: nat, fd: int, r: ReadResult): seq<Call> {
    match r
    case Data => [Use(p, Reading)]
    case Retry => [Use(p, Reading), Use(p, GettingError)]
    case Shutdown => [Use(p, Reading), Use(p, GettingError), Use(p, ShuttingDown), Free(p), Close(fd)]
    case Broken => [Use(p, Reading), Use(p, GettingError), Free(p), Close(fd)]
  }

  lemma MonitorCallsMade(s: State, i: nat, r: ReadResult)
    requires Shape(s) && i < MAX_CLIENTS
    ensures Monitor(s, i, r).calls == s.calls + ReadCalls(s.ssls[i], s.fds[i], r)
  {
    hide Exec;
  }

  lemma MonitorWorld(s: State, i: nat, r: ReadResult)
    requires Inv(s) && i in Live(s.fds)
    ensures Monitor(s, i, r).(calls := []) == (if Leaves(r) then Depart(s, i) else s).(calls := [])
  {
  }

  lemma DepartKeepsInv(s: State, i: nat)
    requires Inv(s) && i in Live(s.fds) && i < s.nfds
    ensures Inv(Depart(s, i))
  {
    ClearSlot(s.fds, i);
    DepartKeepsHolds(s, i);
    DepartLeaksNothing(s, i);
  }

  /** Monitoring a live, polled client makes these calls, and frees its slot if it leaves. */
  lemma MonitorStep(s: State, i: nat, r: ReadResult)
    requires Inv(s) && i in Live(s.fds) && i < s.nfds
    ensures Monitor(s, i, r) ==
            (if Leaves(r) then Depart(s, i) else s).(calls := s.calls + ReadCalls(s.ssls[i], s.fds[i], r))
    ensures Inv(Monitor(s, i, r))
  {
    hide Owns;
    MonitorCallsMade(s, i, r);
    MonitorWorld(s, i, r);
    if Leaves(r) {
      DepartKeepsInv(s, i);
      CallsKeepInv(Depart(s, i), s.calls + ReadCalls(s.ssls[i], s.fds[i], r));
    } else {
      CallsKeepInv(s, s.calls + ReadCalls(s.ssls[i], s.fds[i], r));
    }
  }

  lemma MonitorNext(s: State, i: nat, results: seq<ReadResult>)
    requires Shape(s) && |results| == MAX_CLIENTS && i < s.nfds
    ensures MonitorFrom(s, i, results) ==
            MonitorFrom(if Asked(s, i) then Monitor(s, i, results[i]) else s, i + 1, results)
  {
    hide Monitor;
  }

  lemma MonitorEnd(s: State, i: nat, results: seq<ReadResult>)
    requires Shape(s) && |results| == MAX_CLIENTS && i >= s.nfds
    ensures MonitorFrom(s, i, results) == s
  {
  }

  lemma {:induction false} MonitorKeepsInv(s: State, i: nat, results: seq<ReadResult>)
    requires Inv(s) && i >= FIRST && |results| == MAX_CLIENTS
    ensures Inv(MonitorFrom(s, i, results))
    decreases MAX_CLIENTS - i
  {
    hide Owns, Monitor, Depart;
    if i < s.nfds {
      if Asked(s, i) {
        MonitorStep(s, i, results[i]);
        MonitorKeepsInv(Monitor(s, i, results[i]), i + 1, results);
      } else {
        MonitorKeepsInv(s, i + 1, results);
      }
    }
  }

  /** The same but for the calls made. */
  predicate SameTable(s: State, t: State) {
    t == s.(calls := t.calls)
  }

  /** Broadcasting changes nothing, so the accepting branch alone decides how the monitoring loop starts. */
  lemma BeforeMonitorIs(s: State, x: Input)
    requires Inv(s) && ValidInput(s, x)
    ensures Inv(Poll(s, x.ready)) && Inv(BeforeMonitor(s, x).0)
    ensures var p, b := Poll(s, x.ready), BeforeMonitor(s, x).0;
            SameTable(if x.r > 0 && x.accepting then AcceptClient(p, x.fd, x.tls).0 else p, b)
  {
    hide AcceptClient, Owns;
    var p := Poll(s, x.ready);
    PollKeepsInv(s, x.ready);
    AcceptKeepsInv(p, x.fd, x.tls);
    var a := if x.r > 0 && x.accepting then AcceptClient(p, x.fd, x.tls).0 else p;
    BroadcastIsSafe(a, FIRST);
    CallsKeepInv(a, BeforeMonitor(s, x).0.calls);
  }

  lemma StepKeepsInv(s: State, x: Input)
    requires Inv(s) && ValidInput(s, x)
    ensures Inv(Step(s, x))
  {
    BeforeMonitorIs(s, x);
    MonitorKeepsInv(BeforeMonitor(s, x).0, FIRST, x.results);
  }

  // ----------------------------------------------------------------- every run

  /** The states at the loop head of a run on the inputs `xs`. */
  ghost predicate IsRun(run: seq<State>, xs: seq<Input>) {
    && |run| == |xs| + 1 && Initial(run[0])
    && (forall k :: 0 <= k < |xs| ==>
          Shape(run[k]) && ValidInput(run[k], xs[k]) && run[k + 1] == Step(run[k], xs[k]))
  }

  lemma {:induction false} RunKeepsInv(run: seq<State>, xs: seq<Input>, k: nat)
    requires IsRun(run, xs) && k < |run|
    ensures Inv(run[k])
  {
    if k == 0 {
      assert Live(run[0].fds) == {};
    } else {
      RunKeepsInv(run, xs, k - 1);
      StepKeepsInv(run[k - 1], xs[k - 1]);
      assert run[k - 1 + 1] == Step(run[k - 1], xs[k - 1]);
    }
  }

  /** No illegal call so far, every client slot equipped, nothing shared, nothing leaked. */
  ghost predicate Sound(s: State) {
    && Shape(s) && s.world.Some?
    && var w := s.world.value;
    && (forall i :: i in Live(s.fds) ==>
          s.fds[i] in w.open && s.ssls[i] in w.ssl && w.ssl[s.ssls[i]] == s.fds[i])
    && (forall i, j :: i in Live(s.fds) && j in Live(s.fds) && i != j ==>
          s.fds[i] != s.fds[j] && s.ssls[i] != s.ssls[j])
    && NoLeak(s, w)
    && w.accepted - w.closed == |Live(s.fds)|
  }

  /**
   In every run, at every loop head: no call has been made on a closed descriptor or a dead SSL
   object, each client slot has an SSL object of its own bound to its own open descriptor, nothing
   is leaked, and accepted minus closed descriptors is the number of clients.
   */
  lemma ObjectsAreSound(run: seq<State>, xs: seq<Input>, k: nat)
    requires IsRun(run, xs) && k < |run|
    ensures Sound(run[k])
  {
    RunKeepsInv(run, xs, k);
    var s := run[k];
    forall i, j | i in Live(s.fds) && j in Live(s.fds) && i != j ensures s.ssls[i] != s.ssls[j] {
      assert s.world.value.ssl[s.ssls[i]] == s.fds[i];
    }
  }

  // -------------------------------------------- what an iteration does with its input

  /** There is a slot for one more client. */
  predicate HasRoom(s: State)
    requires Shape(s)
  {
    exists i :: 2 <= i < 102 && s.fds[i] == -1
  }

  lemma HasRoomIff(s: State)
    requires Shape(s)
    ensures HasRoom(s) <==> FirstFree(s.fds, FIRST) < MAX_CLIENTS
  {
  }

  /** The iteration gets past its accepting branch: nobody is to be accepted, or somebody has been. */
  predicate GetsPast(s: State, x: Input)
    requires Shape(s)
  {
    x.r > 0 && x.accepting ==> x.fd >= 0 && HasRoom(s) && x.tls.Handshake? && x.tls.r > 0
  }

  /** The calls of the accepting branch. */
  function AcceptCalls(s: State, x: Input): seq<Call>
    requires Shape(s)
  {
    if x.r <= 0 || !x.accepting || x.fd < 0 then []
    else if !HasRoom(s) then [Accepted(x.fd), Close(x.fd)]
    else if x.tls.Handshake? && x.tls.r > 0 then
      [Accepted(x.fd), SslNew(x.tls.p), SetFd(x.tls.p, x.fd), Use(x.tls.p, Handshaking)]
    else [Accepted(x.fd)] + FailedCalls(x.tls, x.fd) + [Close(x.fd)]
  }

  /** What poll reports for slot i. */
  predicate IsReady(s: State, x: Input, i: nat)
    requires Shape(s) && |x.ready| == MAX_CLIENTS && i < MAX_CLIENTS
  {
    if i < s.nfds then s.fds[i] != -1 && x.ready[i] else s.ready[i]
  }

  /** b is the table of s after the accepting branch, if the iteration gets past it. */
  ghost predicate AfterBranch(s: State, x: Input, b: State)
    requires Shape(s) && |x.ready| == MAX_CLIENTS
  {
    && Shape(b)
    && if x.r > 0 && x.accepting then
         exists i ::
           && 2 <= i < 102 && s.fds[i] == -1 && (forall j :: 2 <= j < i ==> s.fds[j] != -1)
           && b.fds == s.fds[i := x.fd] && !x.tls.NewFails? && b.ssls == s.ssls[i := x.tls.p]
           && b.nfds == Max(s.nfds, i + 1)
           && (forall j :: 0 <= j < 102 ==> b.ready[j] == (j != i && IsReady(s, x, j)))
       else
         && b.fds == s.fds && b.ssls == s.ssls && b.nfds == s.nfds
         && (forall j :: 0 <= j < 102 ==> b.ready[j] == IsReady(s, x, j))
  }

  lemma NotAccepted(s: State, fd: int, tls: Tls)
    requires Shape(s) && fd < 0
    ensures AcceptClient(s, fd, tls) == (s, false)
  {
  }

  /** The accepting branch: the calls it makes and the table it leaves. */
  lemma BranchCalls(s: State, x: Input)
    requires Inv(s) && ValidInput(s, x)
    ensures var p := Poll(s, x.ready);
            var (a, ok) := if x.r > 0 && x.accepting then AcceptClient(p, x.fd, x.tls) else (p, true);
            && a.calls == s.calls + AcceptCalls(s, x) && ok == GetsPast(s, x)
            && (ok ==> AfterBranch(s, x, a))
  {
    hide AcceptClient, Owns;
    var p := Poll(s, x.ready);
    PollKeepsInv(s, x.ready);
    HasRoomIff(s);
    assert s.calls + [] == s.calls;
    if x.r > 0 && x.accepting {
      if x.fd < 0 {
        NotAccepted(p, x.fd, x.tls);
      } else if !HasRoom(s) {
        FullKeepsInv(p, x.fd, x.tls);
      } else if TlsOk(x.tls) {
        AcceptedState(p, x.fd, x.tls);
      } else {
        RejectedState(p, x.fd, x.tls);
        assert s.calls + [Accepted(x.fd)] + FailedCalls(x.tls, x.fd) + [Close(x.fd)] == s.calls + AcceptCalls(s, x);
      }
    }
  }

  /** A pass of the monitoring loop: the calls made, and the slots whose clients leave. */
  datatype Pass = Pass(calls: seq<Call>, left: set<nat>)

  /**
   The clients that are asked, from slot i on, when n is the bound of the loop: every one that leaves
   lowers the bound by one.
   */
  function Watch(fds: seq<int>, ssls: seq<nat>, ready: seq<bool>, results: seq<ReadResult>, i: nat, n: int): (w: Pass)
    requires |fds| == |ssls| == |ready| == |results| && n <= |fds|
    ensures forall j :: j in w.left ==> i <= j < n
    decreases n - i
  {
    if i >= n then Pass([], {})
    else if fds[i] == -1 || !ready[i] then Watch(fds, ssls, ready, results, i + 1, n)
    else if results[i] in {Data, Retry} then
      var rest := Watch(fds, ssls, ready, results, i + 1, n);
      Pass(ReadCalls(ssls[i], fds[i], results[i]) + rest.calls, rest.left)
    else
      var rest := Watch(fds, ssls, ready, results, i + 1, n - 1);
      Pass(ReadCalls(ssls[i], fds[i], results[i]) + rest.calls, {i} + rest.left)
  }

  /** The loop looks only at the slots ahead of it. */
  lemma {:induction false} WatchAhead(s: State, t: State, results: seq<ReadResult>, i: nat, n: int)
    requires Shape(s) && Shape(t) && |results| == MAX_CLIENTS && n <= MAX_CLIENTS
    requires forall j :: i <= j < MAX_CLIENTS ==>
               t.fds[j] == s.fds[j] && t.ssls[j] == s.ssls[j] && t.ready[j] == s.ready[j]
    ensures Watch(t.fds, t.ssls, t.ready, results, i, n) == Watch(s.fds, s.ssls, s.ready, results, i, n)
    decreases n - i
  {
    if i < n {
      WatchAhead(s, t, results, i + 1, n);
      WatchAhead(s, t, results, i + 1, n - 1);
    }
  }

  /** What a pass does, by the clients that are asked and what they answer. */
  ghost predicate Passed(s: State, w: Pass, t: State)
    requires Shape(s) && Shape(t)
  {
    && t.calls == s.calls + w.calls && t.nfds == s.nfds - |w.left|
    && forall j :: 0 <= j < MAX_CLIENTS ==> t.fds[j] == if j in w.left then -1 else s.fds[j]
  }

  lemma WatchNext(s: State, i: nat, results: seq<ReadResult>)
    requires Shape(s) && |results| == MAX_CLIENTS && i < s.nfds && Asked(s, i)
    ensures var rest := Watch(s.fds, s.ssls, s.ready, results, i + 1, if Leaves(results[i]) then s.nfds - 1 else s.nfds);
            Watch(s.fds, s.ssls, s.ready, results, i, s.nfds) ==
            Pass(ReadCalls(s.ssls[i], s.fds[i], results[i]) + rest.calls,
                 if Leaves(results[i]) then {i} + rest.left else rest.left)
  {
    hide ReadCalls;
  }

  /** One client asked, which makes the calls `made`, and the pass over the rest. */
  lemma JoinPass(s: State, t: State, u: State, i: nat, made: seq<Call>, rest: Pass, leaves: bool)
    requires Shape(s) && Shape(t) && Shape(u) && i < MAX_CLIENTS && i !in rest.left
    requires t.calls == s.calls + made && t.fds == (if leaves then s.fds[i := -1] else s.fds)
    requires t.nfds == if leaves then s.nfds - 1 else s.nfds
    requires Passed(t, rest, u)
    ensures Passed(s, Pass(made + rest.calls, if leaves then {i} + rest.left else rest.left), u)
  {
    assert s.calls + made + rest.calls == s.calls + (made + rest.calls);
    assert leaves ==> |{i} + rest.left| == 1 + |rest.left|;
  }

  lemma NothingPassed(s: State)
    requires Shape(s)
    ensures Passed(s, Pass([], {}), s)
  {
    assert s.calls + [] == s.calls;
  }

  lemma {:induction false} PassIs(s: State, i: nat, results: seq<ReadResult>)
    requires Inv(s) && i >= FIRST && |results| == MAX_CLIENTS
    ensures Passed(s, Watch(s.fds, s.ssls, s.ready, results, i, s.nfds), MonitorFrom(s, i, results))
    decreases MAX_CLIENTS - i
  {
    hide Owns, Monitor, MonitorFrom, ReadCalls, Passed;
    if i >= s.nfds {
      MonitorEnd(s, i, results);
      NothingPassed(s);
    } else {
      MonitorNext(s, i, results);
      if Asked(s, i) {
        assert i in Live(s.fds);
        var t := Monitor(s, i, results[i]);
        MonitorStep(s, i, results[i]);
        PassIs(t, i + 1, results);
        WatchAhead(s, t, results, i + 1, t.nfds);
        WatchNext(s, i, results);
        JoinPass(s, t, MonitorFrom(t, i + 1, results), i, ReadCalls(s.ssls[i], s.fds[i], results[i]),
                 Watch(s.fds, s.ssls, s.ready, results, i + 1, t.nfds), Leaves(results[i]));
      } else {
        PassIs(s, i + 1, results);
      }
    }
  }

  /**
   The whole iteration, from every state of the invariant: the calls of the accepting branch; if the
   iteration gets past it and a line is read from stdin, one SSL_write to every polled client in slot
   order; and if it gets past that too, the pass over the clients that are ready.
   */
  lemma IterationCalls(s: State, x: Input) returns (b: State)
    requires Inv(s) && ValidInput(s, x)
    ensures GetsPast(s, x) ==> AfterBranch(s, x, b)
    ensures !GetsPast(s, x) ==> Step(s, x).calls == s.calls + AcceptCalls(s, x)
    ensures GetsPast(s, x) ==>
              var writes := if x.r > 0 && x.typing && x.stdin > 0 then Writes(b, 2) else [];
              var pass := if x.r > 0 && (x.typing ==> x.stdin > 0)
                          then Watch(b.fds, b.ssls, b.ready, x.results, 2, b.nfds) else Pass([], {});
              && Step(s, x).calls == s.calls + AcceptCalls(s, x) + writes + pass.calls
              && Step(s, x).nfds == b.nfds - |pass.left|
              && (forall j :: 0 <= j < 102 ==> Step(s, x).fds[j] == if j in pass.left then -1 else b.fds[j])
  {
    hide AcceptClient, Owns, AcceptCalls, AfterBranch, GetsPast, Writes, Watch, MonitorFrom;
    var p := Poll(s, x.ready);
    BranchCalls(s, x);
    BeforeMonitorIs(s, x);
    var (a, ok) := if x.r > 0 && x.accepting then AcceptClient(p, x.fd, x.tls) else (p, true);
    b := a;
    if ok {
      AcceptKeepsInv(p, x.fd, x.tls);
      BroadcastIsSafe(a, FIRST);
      var (m, reached) := BeforeMonitor(s, x);
      assert SameTable(a, m);
      assert a.calls + [] == a.calls;
      if reached {
        PassIs(m, FIRST, x.results);
      } else {
        assert m.calls + [] == m.calls;
      }
    }
  }

  // ------------------------------------------------------- which clients are polled

  /** Every client is in the prefix that poll, broadcast and monitor look at. */
  ghost predicate AllPolled(s: State) {
    forall i :: i in Live(s.fds) ==> i < s.nfds
  }

  lemma CompactWhenPolled(s: State)
    requires TableInv(s)
    ensures AllPolled(s) <==> Live(s.fds) == Upto(s.nfds)
  {
    if AllPolled(s) {
      assert Live(s.fds) <= Upto(s.nfds);
      SubsetSize(Live(s.fds), Upto(s.nfds));
    }
  }

  /**
   In every run the prefix stays within the table and never promises more clients than there are;
   so all clients are polled exactly when they fill the slots 2..nfds-1 without a gap.
   */
  lemma PolledIffCompact(run: seq<State>, xs: seq<Input>, k: nat)
    requires IsRun(run, xs) && k < |run|
    ensures 2 <= run[k].nfds <= 102
    ensures run[k].nfds - 2 <= |Live(run[k].fds)|
    ensures AllPolled(run[k]) <==> Live(run[k].fds) == Upto(run[k].nfds)
  {
    RunKeepsInv(run, xs, k);
    CompactWhenPolled(run[k]);
  }

  /**
   From a state in which all clients are polled, a departure keeps it so exactly when the client
   in the last slot leaves; any other departure leaves exactly the last client unpolled.
   */
  lemma DepartureStrandsLast(s: State, i: nat)
    requires TableInv(s) && AllPolled(s) && i in Live(s.fds)
    ensures AllPolled(Depart(s, i)) <==> i == s.nfds - 1
    ensures i != s.nfds - 1 ==>
              forall j :: j in Live(Depart(s, i).fds) ==>
                (j >= Depart(s, i).nfds <==> j == s.nfds - 1)
    ensures i != s.nfds - 1 ==> s.nfds - 1 in Live(Depart(s, i).fds)
  {
    CompactWhenPolled(s);
    ClearSlot(s.fds, i);
    var last: nat := s.nfds - 1;
    var t := Depart(s, i);
    assert last in Upto(s.nfds);
    if i != last {
      assert last in Live(t.fds) && last >= t.nfds;
    } else {
      forall j | j in Live(t.fds) ensures j < t.nfds {
        assert j in Upto(s.nfds);
      }
    }
  }

  /** When all clients are polled, the first free slot is the one just past the prefix. */
  lemma NextSlot(s: State)
    requires TableInv(s) && AllPolled(s)
    ensures FirstFree(s.fds, FIRST) == s.nfds
  {
    CompactWhenPolled(s);
    var n: nat := s.nfds;
    assert forall j :: j in Upto(n) <==> FIRST <= j < n;
    assert n !in Live(s.fds);
  }

  /** No client sits behind a free slot. */
  ghost predicate NoGap(s: State)
    requires Shape(s)
  {
    forall j :: j in Live(s.fds) ==> j < FirstFree(s.fds, FIRST)
  }

  /** The prefix reaches the first free slot or ends before it, if there is no gap. */
  lemma NoGapMeans(s: State)
    requires TableInv(s) && NoGap(s)
    ensures Live(s.fds) == Upto(FirstFree(s.fds, FIRST)) && s.nfds <= FirstFree(s.fds, FIRST)
  {
    assert Live(s.fds) == Upto(FirstFree(s.fds, FIRST));
  }

  lemma AcceptedPolledIff(s: State, t: State, fd: int)
    requires TableInv(s) && FirstFree(s.fds, FIRST) < MAX_CLIENTS && fd != FREE
    requires var i := FirstFree(s.fds, FIRST); t.fds == s.fds[i := fd] && t.nfds == Max(s.nfds, i + 1)
    ensures AllPolled(t) <==> NoGap(s)
  {
    var i := FirstFree(s.fds, FIRST);
    FillSlot(s.fds, i, fd);
    if AllPolled(t) && !NoGap(s) {
      var j :| j in Live(s.fds) && j >= i;
      assert j in Live(t.fds);
      assert Live(s.fds) <= Upto(s.nfds) - {i};
      SubsetSize(Live(s.fds), Upto(s.nfds) - {i});
    }
  }

  lemma RejectedPolledIff(s: State, t: State)
    requires TableInv(s) && FirstFree(s.fds, FIRST) < MAX_CLIENTS
    requires t.fds == s.fds && t.nfds == Max(s.nfds, FirstFree(s.fds, FIRST) + 1) - 1
    ensures AllPolled(t) <==> NoGap(s)
  {
    var i := FirstFree(s.fds, FIRST);
    if NoGap(s) {
      NoGapMeans(s);
    }
    if AllPolled(t) && i < s.nfds {
      assert Live(s.fds) <= Upto(t.nfds);
      SubsetSize(Live(s.fds), Upto(t.nfds));
    }
  }

  /**
   The exact condition for the accepting branch, from every state of the invariant: if a slot is
   given out, even to a handshake that fails, all clients are polled afterwards exactly when there is
   no gap between them; if none is, exactly when they were before.
   */
  lemma AcceptPolledIff(s: State, fd: int, tls: Tls)
    requires Inv(s)
    requires fd >= 0 ==> fd !in s.world.value.open
    requires !tls.NewFails? ==> tls.p != NULL && tls.p !in s.world.value.ssl
    ensures AllPolled(AcceptClient(s, fd, tls).0) <==>
            if fd >= 0 && FirstFree(s.fds, FIRST) < MAX_CLIENTS then NoGap(s) else AllPolled(s)
  {
    hide AcceptClient, Owns;
    var i := FirstFree(s.fds, FIRST);
    if fd < 0 {
      NotAccepted(s, fd, tls);
    } else if i == MAX_CLIENTS {
      FullKeepsInv(s, fd, tls);
    } else if TlsOk(tls) {
      AcceptedState(s, fd, tls);
      AcceptedPolledIff(s, AcceptClient(s, fd, tls).0, fd);
    } else {
      RejectedState(s, fd, tls);
      RejectedPolledIff(s, AcceptClient(s, fd, tls).0);
    }
  }

  /** From a state in which all clients are polled no accept, refusal or failed handshake loses one. */
  lemma AcceptKeepsPolled(s: State, fd: int, tls: Tls)
    requires Inv(s) && AllPolled(s)
    requires fd >= 0 ==> fd !in s.world.value.open
    requires !tls.NewFails? ==> tls.p != NULL && tls.p !in s.world.value.ssl
    ensures AllPolled(AcceptClient(s, fd, tls).0)
  {
    hide AcceptClient, Owns;
    NextSlot(s);
    AcceptPolledIff(s, fd, tls);
  }

  /** Some client that was polled in s is still connected in t and no longer polled. */
  ghost predicate Strands(s: State, t: State) {
    exists j :: j in Live(s.fds) && j < s.nfds && j in Live(t.fds) && j >= t.nfds
  }

  /**
   The exact condition under which the accepting branch stops polling a client it polled before: a
   handshake fails in a slot below the last polled one, and that one is taken.
   */
  lemma AcceptStrandsIff(s: State, fd: int, tls: Tls)
    requires Inv(s)
    requires fd >= 0 ==> fd !in s.world.value.open
    requires !tls.NewFails? ==> tls.p != NULL && tls.p !in s.world.value.ssl
    ensures Strands(s, AcceptClient(s, fd, tls).0) <==>
            && fd >= 0 && !TlsOk(tls)
            && FirstFree(s.fds, FIRST) < s.nfds - 1 && s.nfds - 1 in Live(s.fds)
  {
    hide AcceptClient, Owns;
    var i, t := FirstFree(s.fds, FIRST), AcceptClient(s, fd, tls).0;
    if fd < 0 {
      NotAccepted(s, fd, tls);
    } else if i == MAX_CLIENTS {
      FullKeepsInv(s, fd, tls);
    } else if TlsOk(tls) {
      AcceptedState(s, fd, tls);
    } else {
      RejectedState(s, fd, tls);
      if i < s.nfds - 1 && s.nfds - 1 in Live(s.fds) {
        assert s.nfds - 1 in Live(t.fds) && s.nfds - 1 >= t.nfds;
      }
    }
  }

  /** A client beyond the prefix is out of the monitoring loop's reach and stays there. */
  lemma {:induction false} StrandedStays(s: State, i: nat, results: seq<ReadResult>, j: nat)
    requires Inv(s) && i >= FIRST && |results| == MAX_CLIENTS
    requires j in Live(s.fds) && j >= s.nfds
    ensures j in Live(MonitorFrom(s, i, results).fds) && j >= MonitorFrom(s, i, results).nfds
    decreases MAX_CLIENTS - i
  {
    hide Owns, Monitor;
    if i < s.nfds {
      if Asked(s, i) {
        MonitorStep(s, i, results[i]);
        StrandedStays(Monitor(s, i, results[i]), i + 1, results, j);
      } else {
        StrandedStays(s, i + 1, results, j);
      }
    }
  }

  /** A client that the monitoring loop finds gone. */
  predicate Leaving(s: State, results: seq<ReadResult>, i: nat)
    requires Shape(s) && |results| == MAX_CLIENTS && i < MAX_CLIENTS
  {
    Asked(s, i) && Leaves(results[i])
  }

  /** No client leaves slots i..n-1. */
  ghost predicate NoneLeaves(s: State, results: seq<ReadResult>, i: nat, n: int)
    requires Shape(s) && |results| == MAX_CLIENTS && n <= MAX_CLIENTS
  {
    forall j :: i <= j < n ==> !Leaving(s, results, j)
  }

  lemma LeavingStep(s: State, i: nat, results: seq<ReadResult>)
    requires Inv(s) && FIRST <= i < s.nfds && |results| == MAX_CLIENTS && Leaving(s, results, i)
    ensures i in Live(s.fds) && Inv(Monitor(s, i, results[i])) && SameTable(Depart(s, i), Monitor(s, i, results[i]))
    ensures MonitorFrom(s, i, results) == MonitorFrom(Monitor(s, i, results[i]), i + 1, results)
  {
    assert i in Live(s.fds);
    MonitorStep(s, i, results[i]);
  }

  /** A client leaving a slot other than the last strands the last one for the rest of the pass. */
  lemma LeavingStrands(s: State, i: nat, results: seq<ReadResult>)
    requires Inv(s) && AllPolled(s) && FIRST <= i < s.nfds - 1 && |results| == MAX_CLIENTS
    requires Leaving(s, results, i)
    ensures !AllPolled(MonitorFrom(s, i, results))
  {
    hide Depart, MonitorFrom, Owns;
    LeavingStep(s, i, results);
    DepartureStrandsLast(s, i);
    StrandedStays(Monitor(s, i, results[i]), i + 1, results, s.nfds - 1);
  }

  lemma LastLeaving(s: State, i: nat, results: seq<ReadResult>)
    requires Inv(s) && AllPolled(s) && FIRST <= i == s.nfds - 1 && |results| == MAX_CLIENTS
    requires Leaving(s, results, i)
    ensures AllPolled(MonitorFrom(s, i, results))
  {
    LeavingStep(s, i, results);
    DepartureStrandsLast(s, i);
  }

  /** Once a client is beyond the prefix, a pass of the monitoring loop does not bring it back. */
  lemma MonitorKeepsStranded(s: State, i: nat, results: seq<ReadResult>)
    requires Inv(s) && !AllPolled(s) && i >= FIRST && |results| == MAX_CLIENTS
    ensures !AllPolled(MonitorFrom(s, i, results))
  {
    var j :| j in Live(s.fds) && j >= s.nfds;
    StrandedStays(s, i, results, j);
  }

  lemma SameLeaving(s: State, t: State, i: nat, results: seq<ReadResult>)
    requires Shape(s) && SameTable(s, t) && |results| == MAX_CLIENTS
    ensures NoneLeaves(t, results, i, t.nfds - 1) <==> NoneLeaves(s, results, i, s.nfds - 1)
  {
    assert forall j: nat :: j < MAX_CLIENTS ==> (Leaving(t, results, j) <==> Leaving(s, results, j));
  }

  /** The exact condition for one pass of the monitoring loop: only the last client may leave. */
  lemma {:induction false} MonitorKeepsPolledIff(s: State, i: nat, results: seq<ReadResult>)
    requires Inv(s) && AllPolled(s) && i >= FIRST && |results| == MAX_CLIENTS
    ensures AllPolled(MonitorFrom(s, i, results)) <==> NoneLeaves(s, results, i, s.nfds - 1)
    decreases MAX_CLIENTS - i
  {
    hide Owns, Monitor, Depart, MonitorFrom;
    if i >= s.nfds {
      MonitorEnd(s, i, results);
    } else {
      if Leaving(s, results, i) {
        if i < s.nfds - 1 {
          LeavingStrands(s, i, results);
        } else {
          LastLeaving(s, i, results);
        }
      } else {
        MonitorNext(s, i, results);
        var t := if Asked(s, i) then Monitor(s, i, results[i]) else s;
        if Asked(s, i) {
          assert i in Live(s.fds);
          MonitorStep(s, i, results[i]);
        }
        MonitorKeepsPolledIff(t, i + 1, results);
        SameLeaving(s, t, i + 1, results);
      }
    }
  }

  /** The iteration gives out a slot. */
  ghost predicate TakesSlot(s: State, x: Input)
    requires Shape(s)
  {
    x.r > 0 && x.accepting && x.fd >= 0 && FirstFree(s.fds, FIRST) < MAX_CLIENTS
  }

  /** No client leaves a slot before the last polled one in the iteration, if it gets to the monitoring loop. */
  ghost predicate OnlyLastLeaves(s: State, x: Input)
    requires Shape(s) && |x.ready| == |x.results| == MAX_CLIENTS
  {
    var (b, reached) := BeforeMonitor(s, x);
    reached ==> NoneLeaves(b, x.results, FIRST, b.nfds - 1)
  }

  /**
   The exact condition for one iteration of the poll loop, from every state of the invariant. All
   clients are polled at its end exactly when its accepting branch leaves them all polled, that is,
   there is no gap if it gives out a slot and they were all polled if it does not, and the monitoring
   loop, if it is reached, finds no client gone from a slot other than the last.
   */
  lemma IterationPolledIff(s: State, x: Input)
    requires Inv(s) && ValidInput(s, x)
    ensures AllPolled(Step(s, x)) <==>
            (if TakesSlot(s, x) then NoGap(s) else AllPolled(s)) && OnlyLastLeaves(s, x)
  {
    hide AcceptClient, Owns, BeforeMonitor, MonitorFrom, NoneLeaves;
    var p := Poll(s, x.ready);
    BeforeMonitorIs(s, x);
    var (b, reached) := BeforeMonitor(s, x);
    if x.r > 0 && x.accepting {
      AcceptPolledIff(p, x.fd, x.tls);
    }
    if reached && AllPolled(b) {
      MonitorKeepsPolledIff(b, FIRST, x.results);
    } else if reached {
      MonitorKeepsStranded(b, FIRST, x.results);
    }
  }

  /**
   If all clients are polled at the start of an iteration, they are at its end unless the monitoring
   loop finds a client gone from a slot other than the last.
   */
  lemma IterationKeepsPolledIff(s: State, x: Input)
    requires Inv(s) && ValidInput(s, x) && AllPolled(s)
    ensures AllPolled(Step(s, x)) <==> OnlyLastLeaves(s, x)
  {
    hide Owns, OnlyLastLeaves, Step;
    NextSlot(s);
    IterationPolledIff(s, x);
  }

  lemma {:induction false} CoveredUpTo(run: seq<State>, xs: seq<Input>, k: nat)
    requires IsRun(run, xs) && k < |run|
    requires forall j :: 0 <= j < k ==> OnlyLastLeaves(run[j], xs[j])
    ensures AllPolled(run[k])
  {
    hide OnlyLastLeaves, Step, Owns;
    if k > 0 {
      CoveredUpTo(run, xs, k - 1);
      RunKeepsInv(run, xs, k - 1);
      IterationKeepsPolledIff(run[k - 1], xs[k - 1]);
      assert run[k - 1 + 1] == Step(run[k - 1], xs[k - 1]);
    }
  }

  /**
   Whole runs: all clients are polled at every loop head exactly when in no iteration a client is
   found gone from a slot other than the last.
   */
  lemma CoverageKeptIff(run: seq<State>, xs: seq<Input>)
    requires IsRun(run, xs)
    ensures (forall k :: 0 <= k < |run| ==> AllPolled(run[k])) <==>
            (forall k :: 0 <= k < |xs| ==> OnlyLastLeaves(run[k], xs[k]))
  {
    hide OnlyLastLeaves, Step, Owns;
    if forall k :: 0 <= k < |run| ==> AllPolled(run[k]) {
      forall k | 0 <= k < |xs| ensures OnlyLastLeaves(run[k], xs[k]) {
        RunKeepsInv(run, xs, k);
        IterationKeepsPolledIff(run[k], xs[k]);
        assert run[k + 1] == Step(run[k], xs[k]);
      }
    }
    if forall k :: 0 <= k < |xs| ==> OnlyLastLeaves(run[k], xs[k]) {
      forall k | 0 <= k < |run| ensures AllPolled(run[k]) {
        CoveredUpTo(run, xs, k);
      }
    }
  }

  // ------------------------------------------------------------- coverage is lost

  /** An iteration in which one client connects and nobody else does anything. */
  function Connect(fd: int, p: nat): Input {
    Input(1, true, false, seq(MAX_CLIENTS, _ => false), fd, Handshake(p, 1), 0,
          seq(MAX_CLIENTS, _ => Data))
  }

  /** An iteration in which the client in slot 2 has shut down its connection. */
  function FirstLeaves(): Input {
    Input(1, false, false, seq(MAX_CLIENTS, _ => true), -1, NewFails, 0,
          seq(MAX_CLIENTS, i => if i == FIRST then Shutdown else Data))
  }

  lemma {:induction false} QuietMonitor(s: State, i: nat, results: seq<ReadResult>)
    requires Shape(s) && |results| == MAX_CLIENTS
    requires forall j :: 0 <= j < MAX_CLIENTS && j < s.nfds ==> !s.ready[j]
    ensures MonitorFrom(s, i, results) == s
    decreases MAX_CLIENTS - i
  {
    if i < s.nfds {
      QuietMonitor(s, i + 1, results);
    }
  }

  lemma ConnectReaches(s: State, fd: int, p: nat)
    requires Shape(s) && fd >= 0 && FirstFree(s.fds, FIRST) < MAX_CLIENTS
    ensures var x := Connect(fd, p);
            BeforeMonitor(s, x) == (AcceptClient(Poll(s, x.ready), fd, x.tls).0, true)
  {
  }

  /** Nobody is ready, so the monitoring loop finds nothing to do. */
  lemma ConnectIsQuiet(s: State, b: State, i: nat, results: seq<ReadResult>)
    requires Shape(s) && Shape(b) && s.nfds == i < MAX_CLIENTS && |results| == MAX_CLIENTS
    requires b.ready == Poll(s, seq(MAX_CLIENTS, _ => false)).ready[i := false] && b.nfds == i + 1
    ensures MonitorFrom(b, FIRST, results) == b
  {
    QuietMonitor(b, FIRST, results);
  }

  lemma ConnectAccepts(s: State, fd: int, p: nat)
    requires Inv(s) && AllPolled(s) && s.nfds < MAX_CLIENTS
    requires fd >= 0 && fd !in s.world.value.open && p != NULL && p !in s.world.value.ssl
    ensures FirstFree(s.fds, FIRST) == s.nfds
    ensures var q := Poll(s, seq(MAX_CLIENTS, _ => false));
            var b, w := AcceptClient(q, fd, Handshake(p, 1)).0, s.world.value;
            && b.fds == s.fds[s.nfds := fd] && b.nfds == s.nfds + 1 && b.ready == q.ready[s.nfds := false]
            && b.world == Some(World(w.open + {fd}, w.ssl[p := fd], w.accepted + 1, w.closed))
  {
    hide Owns, AcceptClient;
    var q := Poll(s, seq(MAX_CLIENTS, _ => false));
    PollKeepsInv(s, seq(MAX_CLIENTS, _ => false));
    NextSlot(s);
    AcceptedState(q, fd, Handshake(p, 1));
  }

  lemma ConnectState(s: State, fd: int, p: nat)
    requires Shape(s) && fd >= 0 && FIRST <= FirstFree(s.fds, FIRST) == s.nfds < MAX_CLIENTS
    requires var q := Poll(s, seq(MAX_CLIENTS, _ => false));
             var b := AcceptClient(q, fd, Handshake(p, 1)).0;
             b.nfds == s.nfds + 1 && b.ready == q.ready[s.nfds := false]
    ensures Step(s, Connect(fd, p)) ==
            AcceptClient(Poll(s, seq(MAX_CLIENTS, _ => false)), fd, Handshake(p, 1)).0
  {
    var x := Connect(fd, p);
    var off := seq(MAX_CLIENTS, _ => false);
    assert x.ready == off;
    ConnectReaches(s, fd, p);
    ConnectIsQuiet(s, AcceptClient(Poll(s, off), fd, x.tls).0, s.nfds, x.results);
  }

  lemma ConnectStep(s: State, fd: int, p: nat)
    requires Inv(s) && AllPolled(s) && s.nfds < MAX_CLIENTS
    requires fd >= 0 && fd !in s.world.value.open && p != NULL && p !in s.world.value.ssl
    ensures ValidInput(s, Connect(fd, p))
    ensures var t, w := Step(s, Connect(fd, p)), s.world.value;
            && Inv(t) && AllPolled(t) && t.nfds == s.nfds + 1
            && t.world == Some(World(w.open + {fd}, w.ssl[p := fd], w.accepted + 1, w.closed))
  {
    ConnectAccepts(s, fd, p);
    ConnectState(s, fd, p);
    StepKeepsInv(s, Connect(fd, p));
    FillSlot(s.fds, s.nfds, fd);
  }

  lemma {:induction false} DataMonitor(s: State, i: nat, results: seq<ReadResult>)
    requires Inv(s) && i >= FIRST && |results| == MAX_CLIENTS
    requires forall j :: i <= j < MAX_CLIENTS ==> results[j].Data?
    ensures SameTable(s, MonitorFrom(s, i, results))
    decreases MAX_CLIENTS - i
  {
    hide Owns, Monitor, Depart;
    if i < s.nfds {
      if Asked(s, i) {
        assert i in Live(s.fds);
        MonitorStep(s, i, results[i]);
        DataMonitor(Monitor(s, i, results[i]), i + 1, results);
      } else {
        DataMonitor(s, i + 1, results);
      }
    }
  }

  /** Nobody else leaves, so the iteration is the departure of the client in slot 2. */
  lemma FirstLeavesIs(s: State)
    requires Inv(s) && FIRST in Live(s.fds) && s.nfds > FIRST
    ensures ValidInput(s, FirstLeaves())
    ensures Inv(Step(s, FirstLeaves()))
    ensures SameTable(Depart(Poll(s, seq(MAX_CLIENTS, _ => true)), FIRST), Step(s, FirstLeaves()))
  {
    var x := FirstLeaves();
    var p := Poll(s, x.ready);
    assert x.ready == seq(MAX_CLIENTS, _ => true);
    StepKeepsInv(s, x);
    PollKeepsInv(s, x.ready);
    assert Leaving(p, x.results, FIRST);
    LeavingStep(p, FIRST, x.results);
    DataMonitor(Monitor(p, FIRST, x.results[FIRST]), FIRST + 1, x.results);
  }

  /** An iteration in which SSL_new fails for the client that connects. */
  function FailedConnect(fd: int): Input {
    Input(1, true, false, seq(MAX_CLIENTS, _ => false), fd, NewFails, 0, seq(MAX_CLIENTS, _ => Data))
  }

  lemma FailedConnectStrands(s: State, fd: int)
    requires Inv(s) && fd >= 0 && fd !in s.world.value.open
    requires FirstFree(s.fds, FIRST) < s.nfds - 1 && s.nfds - 1 in Live(s.fds)
    ensures ValidInput(s, FailedConnect(fd)) && Strands(s, Step(s, FailedConnect(fd)))
  {
    hide AcceptClient, Owns;
    var x := FailedConnect(fd);
    var p := Poll(s, x.ready);
    PollKeepsInv(s, x.ready);
    RejectedState(p, fd, x.tls);
    AcceptStrandsIff(p, fd, x.tls);
  }

  /** A run goes on with any valid input. */
  lemma ExtendRun(run: seq<State>, xs: seq<Input>, x: Input) returns (more: seq<State>, ys: seq<Input>)
    requires IsRun(run, xs) && Shape(run[|run| - 1]) && ValidInput(run[|run| - 1], x)
    ensures more == run + [Step(run[|run| - 1], x)] && ys == xs + [x] && IsRun(more, ys)
  {
    hide Step;
    more, ys := run + [Step(run[|run| - 1], x)], xs + [x];
  }

  /** From the empty table, n clients connect one after the other, and are all polled. */
  lemma {:induction false} ConnectMany(s0: State, n: nat) returns (run: seq<State>, xs: seq<Input>)
    requires Initial(s0) && n <= MAX_CLIENTS - 2
    ensures IsRun(run, xs) && run[0] == s0 && |run| == n + 1
    ensures var s := run[n];
            && Inv(s) && AllPolled(s) && s.nfds == n + 2
            && (forall fd :: fd in s.world.value.open ==> 10 <= fd < 10 + n)
            && (forall p :: p in s.world.value.ssl ==> 1 <= p < 1 + n)
  {
    hide Step, Owns;
    if n == 0 {
      run, xs := [s0], [];
      RunKeepsInv(run, xs, 0);
      assert Live(s0.fds) == {};
    } else {
      run, xs := ConnectMany(s0, n - 1);
      var s := run[n - 1];
      ConnectStep(s, 10 + n - 1, n);
      run, xs := ExtendRun(run, xs, Connect(10 + n - 1, n));
    }
  }

  /**
   Coverage is not kept: two clients connect, the first one leaves, and the second is still
   connected but polled no more.
   */
  lemma CoverageIsLost(s0: State) returns (run: seq<State>, xs: seq<Input>)
    requires Initial(s0)
    ensures IsRun(run, xs) && run[0] == s0 && |run| == 4
    ensures !AllPolled(run[3])
  {
    hide Step, Owns;
    run, xs := ConnectMany(s0, 2);
    var s := run[2];
    CompactWhenPolled(s);
    assert FIRST in Upto(s.nfds);
    FirstLeavesIs(s);
    DepartureStrandsLast(Poll(s, seq(MAX_CLIENTS, _ => true)), FIRST);
    run, xs := ExtendRun(run, xs, FirstLeaves());
  }

  lemma GapAfterFirst(s: State)
    requires Shape(s) && s.world.Some? && s.nfds == 5 && Live(s.fds) == Upto(5)
    ensures var t := Depart(Poll(s, seq(MAX_CLIENTS, _ => true)), FIRST);
            && t.nfds == 4 && FirstFree(t.fds, FIRST) == FIRST && 3 in Live(t.fds)
            && (t.world.Some? ==> t.world.value.open <= s.world.value.open)
  {
    assert FIRST in Upto(5) && 3 in Upto(5);
  }

  /**
   A failed handshake can lose a client too, once there is a gap: three clients connect, the first one
   leaves, and a handshake that fails in its slot ends the polling of the second.
   */
  lemma FailedHandshakeLosesClient(s0: State) returns (run: seq<State>, xs: seq<Input>)
    requires Initial(s0)
    ensures IsRun(run, xs) && run[0] == s0 && |run| == 6
    ensures Strands(run[4], run[5])
  {
    hide Step, Owns, Strands;
    run, xs := ConnectMany(s0, 3);
    var s := run[3];
    CompactWhenPolled(s);
    assert FIRST in Upto(s.nfds) && 3 in Upto(s.nfds);
    FirstLeavesIs(s);
    run, xs := ExtendRun(run, xs, FirstLeaves());
    GapAfterFirst(s);
    FailedConnectStrands(run[4], 13);
    run, xs := ExtendRun(run, xs, FailedConnect(13));
  }

  // ----------------------------------------------------------------- the program

  /** The arrays of poll_loop, with the kernel and OpenSSL as a ghost field. */
  class Server {
    const fds: array<int>
    const ssls: array<nat>
    const ready: array<bool>
    var nfds: int
    ghost var world: Option<World>
    ghost var calls: seq<Call>

    ghost predicate Valid()
      reads this
    {
      fds.Length == ssls.Length == ready.Length == MAX_CLIENTS && nfds <= MAX_CLIENTS
    }

    ghost function Abs(): (s: State)
      requires Valid()
      reads this, fds, ssls, ready
      ensures Shape(s)
    {
      State(fds[..], ssls[..], ready[..], nfds, world, calls)
    }

    constructor ()
      ensures Valid() && fresh(fds) && fresh(ssls) && fresh(ready) && Initial(Abs())
    {
      fds := new int[MAX_CLIENTS];
      ssls := new nat[MAX_CLIENTS](_ => NULL);
      ready := new bool[MAX_CLIENTS];
      nfds := 2;
      world, calls := Some(World({}, map[], 0, 0)), [];
      new;
      for i := 2 to MAX_CLIENTS
        invariant forall j :: FIRST <= j < i ==> fds[j] == FREE
        modifies fds
      {
        fds[i] := FREE;
      }
    }

    /** The kernel or OpenSSL is called. */
    ghost method Call(c: Call)
      modifies this`world, this`calls
      ensures world == Exec(old(world), c) && calls == old(calls) + [c]
    {
      world, calls := Exec(world, c), calls + [c];
    }

    method DoPoll(bits: seq<bool>)
      requires Valid() && |bits| == MAX_CLIENTS
      modifies ready
      ensures Valid() && Abs() == Poll(old(Abs()), bits)
    {
      var i := 0;
      while i < nfds
        invariant 0 <= i <= MAX_CLIENTS && (i <= nfds || i == 0)
        invariant forall j :: 0 <= j < i ==> ready[j] == (fds[j] != FREE && bits[j])
        invariant forall j :: i <= j < ready.Length ==> ready[j] == old(ready[j])
      {
        ready[i] := fds[i] != FREE && bits[i];
        i := i + 1;
      }
    }

    /** tcp_accept_function: the slot taken, or MAX_CLIENTS when the table is full. */
    method TcpAcceptFunction(fd: int) returns (i: nat)
      requires Valid()
      modifies this, fds, ready
      ensures Valid() && i == FirstFree(old(fds[..]), FIRST)
      ensures Abs() == TcpAccept(old(Abs()), fd)
    {
      assert fds[..MAX_CLIENTS] == fds[..];
      Call(Accepted(fd));
      i := FindFree(fds, MAX_CLIENTS);
      if i == MAX_CLIENTS {
        Call(Close(fd));
      } else {
        fds[i] := fd;
        ready[i] := false;
        if i >= nfds {
          nfds := i + 1;
        }
      }
    }

    method TlsAcceptFunction(i: nat, tls: Tls) returns (ok: bool)
      requires Valid() && i < MAX_CLIENTS
      modifies this, ssls
      ensures Valid() && ok == TlsOk(tls) && Abs() == TlsAccept(old(Abs()), i, tls)
    {
      if tls.NewFails? {
        ssls[i] := NULL;
        return false;
      }
      ssls[i] := tls.p;
      Call(SslNew(tls.p));
      if tls.SetFdFails? {
        Call(SetFdFailed(tls.p));
        Call(Free(tls.p));
        return false;
      }
      Call(SetFd(tls.p, fds[i]));
      Call(Use(tls.p, Handshaking));
      if tls.r <= 0 {
        if tls.r < 0 {
          Call(Use(tls.p, ShuttingDown));
        }
        Call(Free(tls.p));
        return false;
      }
      return true;
    }

    method AcceptOne(fd: int, tls: Tls) returns (ok: bool)
      requires Valid()
      modifies this, fds, ssls, ready
      ensures Valid() && (Abs(), ok) == AcceptClient(old(Abs()), fd, tls)
    {
      hide Exec, TcpAccept, TlsAccept;
      if fd < 0 {
        return false;
      }
      var i := TcpAcceptFunction(fd);
      if i == MAX_CLIENTS {
        return false;
      }
      ok := TlsAcceptFunction(i, tls);
      if !ok {
        Call(Close(fds[i]));
        fds[i] := FREE;
        nfds := nfds - 1;
      }
    }

    method BroadcastAll()
      requires Valid()
      modifies this
      ensures Valid() && Abs() == BroadcastFrom(old(Abs()), FIRST)
    {
      hide Exec;
      var i := FIRST;
      while i < nfds
        invariant Valid() && FIRST <= i
        invariant BroadcastFrom(Abs(), i) == BroadcastFrom(old(Abs()), FIRST)
        decreases MAX_CLIENTS - i
      {
        if fds[i] != FREE {
          Call(Use(ssls[i], Writing));
        }
        i := i + 1;
      }
    }

    method MonitorOne(i: nat, r: ReadResult)
      requires Valid() && i < MAX_CLIENTS
      modifies this, fds, ssls
      ensures Valid() && Abs() == Monitor(old(Abs()), i, r)
    {
      Call(Use(ssls[i], Reading));
      if r.Data? {
        return;
      }
      Call(Use(ssls[i], GettingError));
      if r.Retry? {
        return;
      }
      if r.Shutdown? {
        Call(Use(ssls[i], ShuttingDown));
      }
      Call(Free(ssls[i]));
      ssls[i] := NULL;
      Call(Close(fds[i]));
      fds[i] := FREE;
      nfds := nfds - 1;
    }

    method MonitorAll(results: seq<ReadResult>)
      requires Valid() && |results| == MAX_CLIENTS
      modifies this, fds, ssls
      ensures Valid() && Abs() == MonitorFrom(old(Abs()), FIRST, results)
    {
      hide MonitorFrom, Monitor, Exec;
      var i := FIRST;
      while i < nfds
        invariant Valid() && FIRST <= i
        invariant MonitorFrom(Abs(), i, results) == MonitorFrom(old(Abs()), FIRST, results)
        decreases MAX_CLIENTS - i
      {
        MonitorNext(Abs(), i, results);
        if fds[i] != FREE && ready[i] {
          MonitorOne(i, results[i]);
        }
        i := i + 1;
      }
      MonitorEnd(Abs(), i, results);
    }

    /** One turn of the endless loop in poll_loop. */
    method Iterate(x: Input)
      requires Valid() && Inv(Abs()) && ValidInput(Abs(), x)
      modifies this, fds, ssls, ready
      ensures Valid() && Abs() == Step(old(Abs()), x) && Inv(Abs())
    {
      StepKeepsInv(Abs(), x);
      DoPoll(x.ready);
      if x.r > 0 && x.accepting {
        var ok := AcceptOne(x.fd, x.tls);
        if !ok {
          return;
        }
      }
      if x.r > 0 && x.typing {
        if x.stdin <= 0 {
          return;
        }
        BroadcastAll();
      }
      if x.r > 0 {
        MonitorAll(x.results);
      }
    }
  }
}
