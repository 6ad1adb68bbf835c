/**
 * The solver's frontier: a min-priority queue of cells. Only its contract is
 * modelled: `Put` inserts, `Get` removes an entry of least priority (the
 * earliest inserted one among equals), `IsEmpty` reports whether any remain.
 */
module PriorityQueues {
  import opened Helpers

  datatype Entry = Entry(cell: Cell, priority: int)

  /** The position of the earliest entry of least priority. */
  function MinIndex(q: seq<Entry>): (k: nat)
    requires q != []
    ensures k < |q|
    ensures forall j :: 0 <= j < |q| ==> q[k].priority <= q[j].priority
    ensures forall j :: 0 <= j < k ==> q[j].priority > q[k].priority
  {
    if |q| == 1 then 0
    else
      var m := MinIndex(q[1..]) + 1;
      if q[0].priority <= q[m].priority then 0 else m
  }

  /** `q` without its `k`-th entry, the others in their order. */
  function RemoveAt(q: seq<Entry>, k: nat): (r: seq<Entry>)
    requires k < |q|
    ensures |r| == |q| - 1
    ensures forall i :: 0 <= i < k ==> r[i] == q[i]
    ensures forall i :: k <= i < |r| ==> r[i] == q[i + 1]
    ensures multiset(r) + multiset{q[k]} == multiset(q)
  {
    assert q == q[..k] + [q[k]] + q[k + 1..];
    q[..k] + q[k + 1..]
  }

  class PriorityQueue {
    /** The entries in insertion order. */
    var entries: seq<Entry>

    constructor ()
      ensures entries == []
    {
      entries := [];
    }

    method Put(c: Cell, priority: int)
      modifies this
      ensures entries == old(entries) + [Entry(c, priority)]
    {
      entries := entries + [Entry(c, priority)];
    }

    /** Removes and returns the cell of the earliest entry of least priority. */
    method Get() returns (c: Cell)
      requires entries != []
      modifies this
      ensures c == old(entries)[MinIndex(old(entries))].cell
      ensures entries == RemoveAt(old(entries), MinIndex(old(entries)))
    {
      var k := MinIndex(entries);
      c := entries[k].cell;
      entries := RemoveAt(entries, k);
    }

    method IsEmpty() returns (empty: bool)
      ensures empty <==> entries == []
    {
      empty := |entries| == 0;
    }
  }
}
