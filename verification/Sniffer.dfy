/**
 The packet sniffer's capture file: what `main` writes, and a reader of the classic pcap format
 (sections 4 and 5 of draft-ietf-opsawg-pcap) that recovers the captured frames from the bytes.
 */
module Sniffer {
  import opened Common

  const MAX_LEN: nat := 65535
  const TIME_ROTATION: int := 7200

  /** A record as a reader sees it. */
  datatype Packet = Packet(sec: nat, usec: nat, orig: nat, bytes: seq<byte>)

  datatype Received =
    | Failed                                                          // recvfrom returned -1
    | Frame(bytes: seq<byte>, ifname: string, sec: int, usec: int)    // a frame and the clock

  /** What the outside world does during one iteration of the capture loop. */
  datatype Event = Event(
    now: int,         // time(NULL) at the rotation check
    reopens: bool,    // fopen succeeds, if it is called
    restart: int,     // time(NULL) after a rotation
    received: Received)

  // ------------------------------------------------------------------ the writer

  function U32(v: int): (r: nat)
    ensures r < 0x1_0000_0000
  {
    v % 0x1_0000_0000
  }

  /** A uint32_t as a little-endian host writes it. */
  function Put32(v: nat): (r: seq<byte>)
    requires v < 0x1_0000_0000
    ensures |r| == 4
  {
    Little16(v % 0x1_0000) + Little16(v / 0x1_0000)
  }

  /** struct pcap_header */
  function FileHeader(): (r: seq<byte>)
    ensures |r| == 24
  {
    Put32(0xA1B2C3D4) + Little16(2) + Little16(4) + Put32(0) + Put32(0) + Put32(MAX_LEN) + Put32(1)
  }

  /** struct packet_header and the frame. */
  function Record(sec: int, usec: int, bytes: seq<byte>): (r: seq<byte>)
    requires |bytes| <= MAX_LEN
    ensures |r| == 16 + |bytes|
  {
    Put32(U32(sec)) + Put32(U32(usec)) + Put32(|bytes|) + Put32(|bytes|) + bytes
  }

  /** The interface filter: one of the names given, or anything but lo when none was given. */
  predicate Passes(names: seq<string>, ifname: string) {
    if names == [] then ifname != "lo" else ifname in names
  }

  /** The strcmp loop over argv. */
  method Matches(names: seq<string>, ifname: string) returns (ok: bool)
    ensures names == [] ==> (ok <==> ifname != "lo")
    ensures names != [] ==> (ok <==> exists i :: 0 <= i < |names| && names[i] == ifname)
  {
    if names != [] {
      ok := false;
      var i := 0;
      while i < |names|
        invariant 0 <= i <= |names| && !ok
        invariant ifname !in names[..i]
      {
        if ifname == names[i] {
          ok := true;
          break;
        }
        i := i + 1;
      }
    } else {
      ok := ifname != "lo";
    }
  }

  datatype State = State(file: seq<byte>, start: int, running: bool)

  predicate Rotates(s: State, e: Event) {
    e.now - s.start >= TIME_ROTATION
  }

  /** One iteration of the capture loop. */
  function Step(names: seq<string>, s: State, e: Event): State {
    if Rotates(s, e) && !e.reopens then s.(running := false)
    else
      var t := if Rotates(s, e) then s.(file := FileHeader(), start := e.restart) else s;
      match e.received
      case Failed => t.(running := false)
      case Frame(bytes, ifname, sec, usec) =>
        if |bytes| == 0 || |bytes| > MAX_LEN || !Passes(names, ifname) then t
        else t.(file := t.file + Record(sec, usec, bytes))
  }

  function Run(names: seq<string>, start: int, events: seq<Event>): State {
    if events == [] then State(FileHeader(), start, true)
    else
      var s := Run(names, start, events[..|events| - 1]);
      if s.running then Step(names, s, events[|events| - 1]) else s
  }

  lemma {:induction false} StoppedStays(names: seq<string>, start: int, events: seq<Event>, i: nat)
    requires i <= |events| && (i == |events| || !Run(names, start, events[..i]).running)
    ensures Run(names, start, events) == Run(names, start, events[..i])
    decreases |events|
  {
    if i < |events| {
      var front := events[..|events| - 1];
      assert front[..i] == events[..i];
      StoppedStays(names, start, front, i);
    } else {
      assert events[..i] == events;
    }
  }

  /** The loop of `main`, from the first fwrite of the header to its end. */
  method Capture(names: seq<string>, start: int, events: seq<Event>) returns (file: seq<byte>, running: bool)
    ensures file == Run(names, start, events).file && running == Run(names, start, events).running
  {
    file := FileHeader();
    running := true;
    var since := start;
    var i := 0;
    while i < |events| && running
      invariant 0 <= i <= |events|
      invariant State(file, since, running) == Run(names, start, events[..i])
    {
      var e := events[i];
      assert events[..i + 1][..i] == events[..i];
      i := i + 1;
      if e.now - since >= TIME_ROTATION {
        if !e.reopens {
          running := false;
          continue;
        }
        file := FileHeader();
        since := e.restart;
      }
      if e.received.Failed? {
        running := false;
        continue;
      }
      var len := |e.received.bytes|;
      if len == 0 || len > MAX_LEN {
        continue;
      }
      var ok := Matches(names, e.received.ifname);
      if !ok {
        continue;
      }
      file := file + Record(e.received.sec, e.received.usec, e.received.bytes);
    }
    StoppedStays(names, start, events, i);
  }

  // ------------------------------------------------------------------ the reader

  function Get16(s: seq<byte>, at: nat): nat
    requires at + 2 <= |s|
  {
    Word(s[at], s[at + 1])
  }

  function Get32(s: seq<byte>, at: nat): nat
    requires at + 4 <= |s|
  {
    Get16(s, at) + 0x1_0000 * Get16(s, at + 2)
  }

  /** Little-endian microsecond pcap, version 2.4, snap length 65535, Ethernet. */
  predicate IsHeader(s: seq<byte>) {
    && |s| >= 24
    && Get32(s, 0) == 0xA1B2C3D4 && Get16(s, 4) == 2 && Get16(s, 6) == 4
    && Get32(s, 8) == 0 && Get32(s, 12) == 0
    && Get32(s, 16) == 65535 && Get32(s, 20) == 1
  }

  function ReadRecords(s: seq<byte>): Option<seq<Packet>>
    decreases |s|
  {
    if s == [] then Some([])
    else if |s| < 16 || |s| < 16 + Get32(s, 8) then None
    else
      var n := 16 + Get32(s, 8);
      var rest := ReadRecords(s[n..]);
      if rest.None? then None
      else Some([Packet(Get32(s, 0), Get32(s, 4), Get32(s, 12), s[16..n])] + rest.value)
  }

  /** The frames of a capture file; nothing if it is not one. */
  function ReadFile(s: seq<byte>): Option<seq<Packet>> {
    if IsHeader(s) then ReadRecords(s[24..]) else None
  }

  // ------------------------------------------------- what the file should contain

  /** An interface the user named, or, when none was named, any but the loopback interface. */
  predicate Wanted(names: seq<string>, ifname: string) {
    || (names == [] && ifname != "lo")
    || exists i :: 0 <= i < |names| && names[i] == ifname
  }

  /** The frame an event contributes, as a reader should see it. */
  function Kept(names: seq<string>, e: Event): seq<Packet> {
    if e.received.Frame? && 1 <= |e.received.bytes| <= 65535 && Wanted(names, e.received.ifname)
    then [Packet(U32(e.received.sec), U32(e.received.usec), |e.received.bytes|, e.received.bytes)]
    else []
  }

  function AllKept(names: seq<string>, events: seq<Event>): seq<Packet> {
    if events == [] then []
    else AllKept(names, events[..|events| - 1]) + Kept(names, events[|events| - 1])
  }

  /** The event with which the current file begins, and the time it began. */
  function LastRotation(start: int, events: seq<Event>): (r: (nat, int))
    ensures r.0 <= |events|
  {
    if events == [] then (0, start)
    else
      var last := events[|events| - 1];
      var (from, since) := LastRotation(start, events[..|events| - 1]);
      if last.now - since >= 7200 then (|events| - 1, last.restart) else (from, since)
  }

  // ------------------------------------------------------------------- the proofs

  lemma Get16At(s: seq<byte>, at: nat, v: nat)
    requires v < 0x1_0000 && at + 2 <= |s| && s[at..at + 2] == Little16(v)
    ensures Get16(s, at) == v
  {
    WordLittle16(v);
    assert s[at] == s[at..at + 2][0] && s[at + 1] == s[at..at + 2][1];
  }

  lemma Get32At(s: seq<byte>, at: nat, v: nat)
    requires v < 0x1_0000_0000 && at + 4 <= |s| && s[at..at + 4] == Put32(v)
    ensures Get32(s, at) == v
  {
    hide Get16, Little16;
    var low, high := Little16(v % 0x1_0000), Little16(v / 0x1_0000);
    assert s[at..at + 2] == s[at..at + 4][..2] == low;
    assert s[at + 2..at + 4] == s[at..at + 4][2..] == high;
    Get16At(s, at, v % 0x1_0000);
    Get16At(s, at + 2, v / 0x1_0000);
  }

  /** Where the middle one of three pieces is. */
  lemma Middle(a: seq<byte>, b: seq<byte>, c: seq<byte>)
    ensures (a + b + c)[|a|..|a| + |b|] == b
  {
  }

  lemma Get32Put32(a: seq<byte>, v: nat, b: seq<byte>)
    requires v < 0x1_0000_0000
    ensures Get32(a + Put32(v) + b, |a|) == v
  {
    hide Get32, Put32;
    Middle(a, Put32(v), b);
    Get32At(a + Put32(v) + b, |a|, v);
  }

  lemma Get16Put16(a: seq<byte>, v: nat, b: seq<byte>)
    requires v < 0x1_0000
    ensures Get16(a + Little16(v) + b, |a|) == v
  {
    hide Get16, Little16;
    Middle(a, Little16(v), b);
    Get16At(a + Little16(v) + b, |a|, v);
  }

  /** The file header reads as one, whatever follows it. */
  lemma HeaderReads(rest: seq<byte>)
    ensures IsHeader(FileHeader() + rest)
    ensures (FileHeader() + rest)[24..] == rest
  {
    hide Put32, Little16, Get32, Get16;
    var s := FileHeader() + rest;
    var magic, major, minor, zero := Put32(0xA1B2C3D4), Little16(2), Little16(4), Put32(0);
    var tail := Put32(MAX_LEN) + Put32(1) + rest;
    assert s == [] + magic + (major + minor + zero + zero + tail);
    Get32Put32([], 0xA1B2C3D4, major + minor + zero + zero + tail);
    assert s == magic + major + (minor + zero + zero + tail);
    Get16Put16(magic, 2, minor + zero + zero + tail);
    assert s == (magic + major) + minor + (zero + zero + tail);
    Get16Put16(magic + major, 4, zero + zero + tail);
    assert s == (magic + major + minor) + zero + (zero + tail);
    Get32Put32(magic + major + minor, 0, zero + tail);
    assert s == (magic + major + minor + zero) + zero + tail;
    Get32Put32(magic + major + minor + zero, 0, tail);
    var front := magic + major + minor + zero + zero;
    assert s == front + Put32(MAX_LEN) + (Put32(1) + rest);
    Get32Put32(front, MAX_LEN, Put32(1) + rest);
    assert s == (front + Put32(MAX_LEN)) + Put32(1) + rest;
    Get32Put32(front + Put32(MAX_LEN), 1, rest);
  }

  /** A record, whatever follows it, reads back as its packet. */
  lemma RecordReads(sec: int, usec: int, bytes: seq<byte>, rest: seq<byte>)
    requires |bytes| <= MAX_LEN
    ensures var s := Record(sec, usec, bytes) + rest;
            && Get32(s, 0) == U32(sec) && Get32(s, 4) == U32(usec)
            && Get32(s, 8) == |bytes| && Get32(s, 12) == |bytes|
            && s[16..16 + |bytes|] == bytes && s[16 + |bytes|..] == rest
  {
    hide Put32, Get32, U32;
    var s := Record(sec, usec, bytes) + rest;
    var a, b, n := Put32(U32(sec)), Put32(U32(usec)), Put32(|bytes|);
    assert s == [] + a + (b + n + n + bytes + rest);
    Get32Put32([], U32(sec), b + n + n + bytes + rest);
    assert s == a + b + (n + n + bytes + rest);
    Get32Put32(a, U32(usec), n + n + bytes + rest);
    assert s == (a + b) + n + (n + bytes + rest);
    Get32Put32(a + b, |bytes|, n + bytes + rest);
    assert s == (a + b + n) + n + (bytes + rest);
    Get32Put32(a + b + n, |bytes|, bytes + rest);
  }

  /** A packet the sniffer can write: untruncated, with 32-bit times. */
  predicate Writable(p: Packet) {
    && p.sec < 0x1_0000_0000 && p.usec < 0x1_0000_0000
    && 1 <= |p.bytes| <= MAX_LEN && p.orig == |p.bytes|
  }

  predicate AllWritable(ps: seq<Packet>) {
    forall i :: 0 <= i < |ps| ==> Writable(ps[i])
  }

  ghost function Encode(ps: seq<Packet>): seq<byte>
    requires AllWritable(ps)
  {
    if ps == [] then []
    else Record(ps[0].sec, ps[0].usec, ps[0].bytes) + Encode(ps[1..])
  }

  lemma SmallU32(v: nat)
    requires v < 0x1_0000_0000
    ensures U32(v) == v
  {
  }

  lemma {:induction false} EncodeReads(ps: seq<Packet>)
    requires AllWritable(ps)
    ensures ReadRecords(Encode(ps)) == Some(ps)
  {
    hide Record, Get32, U32;
    if ps != [] {
      var p, rest := ps[0], Encode(ps[1..]);
      EncodeReads(ps[1..]);
      RecordReads(p.sec, p.usec, p.bytes, rest);
      SmallU32(p.sec);
      SmallU32(p.usec);
      assert ps == [p] + ps[1..];
    }
  }

  lemma {:induction false} EncodeAppend(ps: seq<Packet>, p: Packet)
    requires AllWritable(ps) && Writable(p)
    ensures AllWritable(ps + [p])
    ensures Encode(ps + [p]) == Encode(ps) + Record(p.sec, p.usec, p.bytes)
  {
    hide Record;
    var last := Record(p.sec, p.usec, p.bytes);
    if ps == [] {
      assert ps + [p] == [p];
      assert Encode([p]) == last + Encode([]);
    } else {
      var first, rest := Record(ps[0].sec, ps[0].usec, ps[0].bytes), ps[1..];
      assert (ps + [p])[1..] == rest + [p];
      EncodeAppend(rest, p);
      assert Encode(ps + [p]) == first + (Encode(rest) + last);
      assert first + (Encode(rest) + last) == (first + Encode(rest)) + last;
    }
  }

  /** The events of the current file. */
  function Current(start: int, events: seq<Event>): seq<Event> {
    events[LastRotation(start, events).0..]
  }

  /** The file is one header and the records of the frames these events contribute. */
  ghost predicate Holds(names: seq<string>, events: seq<Event>, file: seq<byte>) {
    && AllWritable(AllKept(names, events))
    && file == FileHeader() + Encode(AllKept(names, events))
  }

  lemma NewFileHolds(names: seq<string>)
    ensures Holds(names, [], FileHeader())
  {
    hide FileHeader;
    assert FileHeader() + [] == FileHeader();
  }

  /** One iteration, in terms of the frame it keeps. */
  lemma StepIs(names: seq<string>, s: State, e: Event)
    requires Step(names, s, e).running
    ensures Step(names, s, e).start == if Rotates(s, e) then e.restart else s.start
    ensures var file := if Rotates(s, e) then FileHeader() else s.file;
            Step(names, s, e).file ==
            if Kept(names, e) == [] then file
            else file + Record(e.received.sec, e.received.usec, e.received.bytes)
  {
    hide Record, FileHeader, U32;
  }

  lemma AllKeptAppend(names: seq<string>, events: seq<Event>, e: Event)
    ensures AllKept(names, events + [e]) == AllKept(names, events) + Kept(names, e)
  {
    assert (events + [e])[..|events|] == events;
  }

  lemma SameRecord(sec: int, usec: int, bytes: seq<byte>)
    requires |bytes| <= MAX_LEN
    ensures Record(U32(sec), U32(usec), bytes) == Record(sec, usec, bytes)
  {
    SmallU32(U32(sec));
    SmallU32(U32(usec));
  }

  lemma KeptIs(names: seq<string>, e: Event)
    requires Kept(names, e) != []
    ensures e.received.Frame? && |e.received.bytes| <= MAX_LEN
    ensures var p := Kept(names, e)[0];
            && Kept(names, e) == [p] && Writable(p)
            && Record(p.sec, p.usec, p.bytes) == Record(e.received.sec, e.received.usec, e.received.bytes)
  {
    hide Record;
    SameRecord(e.received.sec, e.received.usec, e.received.bytes);
  }

  /** Receiving one more frame appends its record exactly when the frame is kept. */
  lemma AppendHolds(names: seq<string>, events: seq<Event>, e: Event, file: seq<byte>)
    requires Holds(names, events, file)
    ensures Kept(names, e) == [] ==> Holds(names, events + [e], file)
    ensures Kept(names, e) != [] ==>
              && e.received.Frame? && |e.received.bytes| <= MAX_LEN
              && Holds(names, events + [e], file + Record(e.received.sec, e.received.usec, e.received.bytes))
  {
    hide Record, FileHeader, Kept, AllKept, Writable, Encode;
    var ps := AllKept(names, events);
    AllKeptAppend(names, events, e);
    if Kept(names, e) == [] {
      assert ps + [] == ps;
    } else {
      KeptIs(names, e);
      var p := Kept(names, e)[0];
      var last := Record(p.sec, p.usec, p.bytes);
      EncodeAppend(ps, p);
      assert FileHeader() + (Encode(ps) + last) == (FileHeader() + Encode(ps)) + last;
    }
  }

  /** One iteration of a run that goes on. */
  lemma StepHolds(names: seq<string>, start: int, events: seq<Event>, e: Event, s: State)
    requires s.start == LastRotation(start, events).1 && Holds(names, Current(start, events), s.file)
    requires Step(names, s, e).running
    ensures Step(names, s, e).start == LastRotation(start, events + [e]).1
    ensures Holds(names, Current(start, events + [e]), Step(names, s, e).file)
  {
    hide Record, FileHeader, U32, Step, Kept, Holds;
    var all := events + [e];
    assert all[..|all| - 1] == events;
    StepIs(names, s, e);
    if Rotates(s, e) {
      assert Current(start, all) == [] + [e];
      NewFileHolds(names);
      AppendHolds(names, [], e, FileHeader());
    } else {
      assert Current(start, all) == Current(start, events) + [e];
      AppendHolds(names, Current(start, events), e, s.file);
    }
  }

  /** At every loop head the file is one header and the records of the frames kept since truncation. */
  lemma {:induction false} FileIs(names: seq<string>, start: int, events: seq<Event>)
    requires Run(names, start, events).running
    ensures Run(names, start, events).start == LastRotation(start, events).1
    ensures Holds(names, Current(start, events), Run(names, start, events).file)
  {
    hide Holds, Step, FileHeader;
    if events == [] {
      assert Current(start, events) == [];
      NewFileHolds(names);
    } else {
      var front, e := events[..|events| - 1], events[|events| - 1];
      assert events == front + [e];
      FileIs(names, start, front);
      StepHolds(names, start, front, e, Run(names, start, front));
    }
  }

  /**
   At every loop head of every run with successful writes, the file reads as one pcap header and
   exactly the frames of length 1..65535 that passed the filter since the last truncation, in
   order, each whole and with its time.
   */
  lemma CaptureReadsBack(names: seq<string>, start: int, events: seq<Event>)
    requires Run(names, start, events).running
    ensures ReadFile(Run(names, start, events).file) == Some(AllKept(names, Current(start, events)))
  {
    FileIs(names, start, events);
    var ps := AllKept(names, Current(start, events));
    HeaderReads(Encode(ps));
    EncodeReads(ps);
  }

  /** The 24 bytes on disk. */
  lemma HeaderBytes()
    ensures FileHeader() == [0xD4, 0xC3, 0xB2, 0xA1, 2, 0, 4, 0, 0, 0, 0, 0, 0, 0, 0, 0, 0xFF, 0xFF, 0, 0, 1, 0, 0, 0]
  {
    assert Put32(0xA1B2C3D4) == [0xD4, 0xC3, 0xB2, 0xA1];
    assert Little16(2) == [2, 0] && Little16(4) == [4, 0];
    assert Put32(0) == [0, 0, 0, 0] && Put32(65535) == [0xFF, 0xFF, 0, 0] && Put32(1) == [1, 0, 0, 0];
    hide Put32, Little16;
  }

  /** Event k comes two hours or more after the current file was begun. */
  ghost predicate IsDue(start: int, events: seq<Event>, k: nat)
    requires k < |events|
  {
    events[k].now - LastRotation(start, events[..k]).1 >= 7200
  }

  lemma LastStep(names: seq<string>, s: State, e: Event)
    requires s.running
    ensures Step(names, s, e).running <==>
            e.received.Frame? && (e.now - s.start >= 7200 ==> e.reopens)
    ensures !Step(names, s, e).running ==>
            Step(names, s, e).file == if e.now - s.start >= 7200 && e.reopens then FileHeader() else s.file
  {
    hide FileHeader, Record;
  }

  /** Event k brings a frame, and if a rotation is due the file is opened. */
  ghost predicate GoesOn(start: int, events: seq<Event>, k: nat)
    requires k < |events|
  {
    events[k].received.Frame? && (IsDue(start, events, k) ==> events[k].reopens)
  }

  lemma SameInPrefix(start: int, events: seq<Event>, n: nat, k: nat)
    requires k < n <= |events|
    ensures GoesOn(start, events[..n], k) <==> GoesOn(start, events, k)
  {
    assert events[..n][..k] == events[..k];
  }

  lemma LastGoesOn(names: seq<string>, start: int, events: seq<Event>, s: State)
    requires events != [] && s.running && s.start == LastRotation(start, events[..|events| - 1]).1
    ensures Step(names, s, events[|events| - 1]).running <==> GoesOn(start, events, |events| - 1)
  {
    LastStep(names, s, events[|events| - 1]);
  }

  /** The loop has gone on so far exactly when it did at every event. */
  lemma {:induction false} RunsIff(names: seq<string>, start: int, events: seq<Event>)
    ensures Run(names, start, events).running <==> forall k :: 0 <= k < |events| ==> GoesOn(start, events, k)
  {
    hide Step, GoesOn, Holds, LastRotation, FileHeader;
    if events != [] {
      var n := |events| - 1;
      var front := events[..n];
      RunsIff(names, start, front);
      forall k | 0 <= k < n ensures GoesOn(start, front, k) <==> GoesOn(start, events, k) {
        SameInPrefix(start, events, n, k);
      }
      if Run(names, start, front).running {
        FileIs(names, start, front);
        LastGoesOn(names, start, events, Run(names, start, front));
      }
    }
  }
}
