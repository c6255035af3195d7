/** Values shared by the models: bytes, an optional value, ranges of numbers. */
module Common {

  type byte = b: int | 0 <= b < 256

  datatype Option<+T> = None | Some(value: T)

  function Min(a: nat, b: nat): nat {
    if a <= b then a else b
  }

  function Max(a: int, b: int): int {
    if a < b then b else a
  }

  /** A uint16_t as a little-endian host stores it. */
  function Little16(v: nat): (r: seq<byte>)
    requires v < 0x1_0000
    ensures |r| == 2
  {
    [v % 256, v / 256]
  }

  /** The number two bytes make, the low one given first. */
  function Word(low: int, high: int): int {
    low + 256 * high
  }

  lemma WordLittle16(v: nat)
    requires v < 0x1_0000
    ensures Word(Little16(v)[0], Little16(v)[1]) == v
  {
  }

  /** A uint16_t in network byte order. */
  function Big16(v: nat): (r: seq<byte>)
    requires v < 0x1_0000
    ensures |r| == 2
  {
    [v / 256, v % 256]
  }

  /** The numbers from `lo` up to but not including `hi`. */
  function Range(lo: nat, hi: nat): (s: set<nat>)
    requires lo <= hi
    ensures forall i: nat :: i in s <==> lo <= i < hi
    ensures |s| == hi - lo
  {
    if lo == hi then {} else Range(lo, hi - 1) + {hi - 1}
  }

  lemma {:induction false} SubsetSize(a: set<nat>, b: set<nat>)
    requires a <= b
    ensures |a| <= |b|
    ensures |a| == |b| ==> a == b
  {
    if a != {} {
      var x :| x in a;
      SubsetSize(a - {x}, b - {x});
      assert a == (a - {x}) + {x} && b == (b - {x}) + {x};
    } else if |a| == |b| {
      assert b == {};
    }
  }
}

/**
 The per-process descriptor table of a Unix process: descriptor numbers mapped to
 the open file each one names. A pipe contributes two open files, its two ends;
 everything a process had open before the program started is `Inherited`.
 */
module Descriptors {

  datatype OpenFile =
    | Inherited(k: nat)
    | ReadEnd(pipe: nat)
    | WriteEnd(pipe: nat)

  type FdTable = map<nat, OpenFile>

  const STDIN: nat := 0
  const STDOUT: nat := 1

  /** dup2: `to` becomes another name for what `from` names; a bad `from` changes nothing. */
  function Dup2(t: FdTable, from: nat, to: nat): FdTable {
    if from in t then t[to := t[from]] else t
  }

  function Close(t: FdTable, fd: nat): FdTable {
    t - {fd}
  }

  /** The table of a process that has ended: the kernel closes everything. */
  const NoFds: FdTable := map[]

  ghost predicate Holds(t: FdTable, f: OpenFile) {
    exists fd :: fd in t && t[fd] == f
  }

  /** A table as the program finds it: 0, 1 and 2 are open and no pipe of ours exists yet. */
  ghost predicate Initial(t: FdTable) {
    && 0 in t && 1 in t && 2 in t
    && (forall fd :: fd in t ==> t[fd].Inherited?)
  }
}
