/**
 The client table both chat servers keep: a poll array whose slots 0 and 1 are the listening
 socket and stdin, and whose other slots hold a client's descriptor or -1.
 */
module Slots {
  import opened Common

  const FIRST: nat := 2
  const FREE: int := -1

  /** The slots that hold a client. */
  function Live(fds: seq<int>): (s: set<nat>)
    ensures forall i :: i in s <==> FIRST <= i < |fds| && fds[i] != FREE
  {
    set i: nat | FIRST <= i < |fds| && fds[i] != FREE
  }

  /** The first free slot at or after `from`; the length when there is none. */
  function FirstFree(fds: seq<int>, from: nat): (i: nat)
    requires from <= |fds|
    ensures from <= i <= |fds|
    ensures i < |fds| ==> fds[i] == FREE
    ensures forall j :: from <= j < i ==> fds[j] != FREE
    decreases |fds| - from
  {
    if from == |fds| || fds[from] == FREE then from else FirstFree(fds, from + 1)
  }

  /** The scan of the accept functions. */
  method FindFree(a: array<int>, limit: nat) returns (i: nat)
    requires FIRST <= limit <= a.Length
    ensures i == FirstFree(a[..limit], FIRST)
  {
    i := FIRST;
    while i < limit && a[i] != FREE
      invariant FIRST <= i <= limit
      invariant forall j :: FIRST <= j < i ==> a[j] != FREE
    {
      i := i + 1;
    }
  }

  /** The slots from FIRST up to `n`. */
  function Upto(n: nat): set<nat>
    requires n >= FIRST
  {
    Range(FIRST, n)
  }

  lemma FillSlot(fds: seq<int>, i: nat, fd: int)
    requires FIRST <= i < |fds| && fds[i] == FREE && fd != FREE
    ensures Live(fds[i := fd]) == Live(fds) + {i}
    ensures |Live(fds[i := fd])| == |Live(fds)| + 1
  {
  }

  lemma ClearSlot(fds: seq<int>, i: nat)
    requires FIRST <= i < |fds| && fds[i] != FREE
    ensures Live(fds[i := FREE]) == Live(fds) - {i}
    ensures |Live(fds[i := FREE])| == |Live(fds)| - 1
  {
  }
}
