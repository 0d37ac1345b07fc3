/** Intrusive reference counting (RefCounted) and the owning smart pointer rp<T> of mirv.h.

    The heap holds the count of every live RefCounted object; an object leaves the heap when a
    Release brings its count to zero (`delete this`). Each rp<T> is a cell of the heap holding a
    pointer or null. When every reference is owned by an rp, the heap is Balanced: the count of
    every object equals the number of cells that point at it. */
module RefCounting {

  type ObjectId = nat

  /** The raw pointer held by an rp. */
  datatype Ptr = Null | To(id: ObjectId)

  /** A snapshot of the heap: live objects with their counts, and the rp cells. */
  datatype HeapState = HeapState(counts: map<ObjectId, nat>, cells: seq<Ptr>)

  /** 1 if `p` points at `o`, else 0. */
  function Indicator(p: Ptr, o: ObjectId): nat {
    if p == To(o) then 1 else 0
  }

  /** Number of cells of `cells` that point at `o`. */
  function Holders(cells: seq<Ptr>, o: ObjectId): nat {
    if cells == [] then 0
    else Holders(cells[..|cells| - 1], o) + Indicator(cells[|cells| - 1], o)
  }

  /** The reference count of `o`, 0 for an object that is not alive. */
  function CountOf(counts: map<ObjectId, nat>, o: ObjectId): nat {
    if o in counts then counts[o] else 0
  }

  /** The ownership invariant: every object's count equals the number of rp cells holding it
      (so no cell holds a destroyed object). */
  ghost predicate Balanced(s: HeapState) {
    && (forall o :: Holders(s.cells, o) == CountOf(s.counts, o))
    && (forall i :: 0 <= i < |s.cells| && s.cells[i].To? ==> s.cells[i].id in s.counts && s.counts[s.cells[i].id] >= 1)
  }

  /** Overwriting one cell changes the holders of `o` by what leaves and what enters that cell. */
  lemma {:induction false} HoldersUpdate(cells: seq<Ptr>, i: nat, p: Ptr, o: ObjectId)
    requires i < |cells|
    ensures Holders(cells[i := p], o) + Indicator(cells[i], o) == Holders(cells, o) + Indicator(p, o)
  {
    var n := |cells| - 1;
    if i < n {
      assert cells[i := p][..n] == cells[..n][i := p];
      HoldersUpdate(cells[..n], i, p, o);
    } else {
      assert cells[i := p][..n] == cells[..n];
    }
  }

  /** A new cell adds one holder to what it points at. */
  lemma HoldersAppend(cells: seq<Ptr>, p: Ptr, o: ObjectId)
    ensures Holders(cells + [p], o) == Holders(cells, o) + Indicator(p, o)
  {
    assert (cells + [p])[..|cells|] == cells;
  }

  /** An object held by some cell has at least one holder. */
  lemma HoldersPositive(cells: seq<Ptr>, i: nat)
    requires i < |cells| && cells[i].To?
    ensures Holders(cells, cells[i].id) >= 1
  {
    HoldersUpdate(cells, i, Null, cells[i].id);
  }

  /** When the counts match the holders, every pointer held by a cell is alive with a positive
      count. */
  lemma HoldersMatchIsBalanced(s: HeapState)
    requires forall o :: Holders(s.cells, o) == CountOf(s.counts, o)
    ensures Balanced(s)
  {
    forall i | 0 <= i < |s.cells| && s.cells[i].To?
      ensures s.cells[i].id in s.counts && s.counts[s.cells[i].id] >= 1
    {
      HoldersPositive(s.cells, i);
    }
  }

  /** Counts after AddRef on `p` (no change for null). */
  function Retain(counts: map<ObjectId, nat>, p: Ptr): map<ObjectId, nat>
    requires p.To? ==> p.id in counts
  {
    if p.To? then counts[p.id := counts[p.id] + 1] else counts
  }

  /** Counts after Release on `p` (no change for null); the object is destroyed when its count
      reaches zero. */
  function Drop(counts: map<ObjectId, nat>, p: Ptr): map<ObjectId, nat>
    requires p.To? ==> p.id in counts && counts[p.id] > 0
  {
    if p.Null? then counts
    else if counts[p.id] == 1 then counts - {p.id}
    else counts[p.id := counts[p.id] - 1]
  }

  /** rp::Swap(x): AddRef the new pointer, store it, then Release the old one. */
  function Swapped(s: HeapState, c: nat, p: Ptr): HeapState
    requires Balanced(s) && c < |s.cells| && (p.To? ==> p.id in s.counts)
  {
    HeapState(Drop(Retain(s.counts, p), s.cells[c]), s.cells[c := p])
  }

  /** A swap retains the new referent once and releases the old one once: every object's count
      moves by exactly what enters and leaves the cell. */
  lemma SwapCounts(s: HeapState, c: nat, p: Ptr, o: ObjectId)
    requires Balanced(s) && c < |s.cells| && (p.To? ==> p.id in s.counts)
    ensures CountOf(Swapped(s, c, p).counts, o) + Indicator(s.cells[c], o) == CountOf(s.counts, o) + Indicator(p, o)
  {
  }

  /** Swapping keeps the ownership invariant. */
  lemma SwapKeepsBalance(s: HeapState, c: nat, p: Ptr)
    requires Balanced(s) && c < |s.cells| && (p.To? ==> p.id in s.counts)
    ensures Balanced(Swapped(s, c, p))
  {
    var t := Swapped(s, c, p);
    forall o ensures Holders(t.cells, o) == CountOf(t.counts, o) {
      HoldersUpdate(s.cells, c, p, o);
      SwapCounts(s, c, p, o);
    }
    HoldersMatchIsBalanced(t);
  }

  /** Because the new pointer is retained before the old one is released, storing into a cell the
      pointer it already holds leaves every count as it was and the object alive. */
  lemma SwapSamePointer(s: HeapState, c: nat)
    requires Balanced(s) && c < |s.cells| && s.cells[c].To?
    ensures Swapped(s, c, s.cells[c]) == s
  {
    assert s.cells[c := s.cells[c]] == s.cells;
    assert Drop(Retain(s.counts, s.cells[c]), s.cells[c]) == s.counts;
  }

  /** Had rp released before retaining, storing into the only holder of an object the pointer it
      already holds would destroy that object before the AddRef. */
  lemma ReleaseFirstDestroysSoleReferent(s: HeapState, c: nat)
    requires Balanced(s) && c < |s.cells| && s.cells[c].To?
    requires Holders(s.cells, s.cells[c].id) == 1
    ensures s.cells[c].id !in Drop(s.counts, s.cells[c])
  {
  }

  /** Exchanging the contents of two cells changes no object's holders. */
  lemma HoldersExchange(cells: seq<Ptr>, c: nat, d: nat, o: ObjectId)
    requires c < |cells| && d < |cells|
    ensures Holders(cells[c := cells[d]][d := cells[c]], o) == Holders(cells, o)
  {
    HoldersUpdate(cells, c, cells[d], o);
    HoldersUpdate(cells[c := cells[d]], d, cells[c], o);
  }

  /** The counts of all RefCounted objects and all rp cells. */
  class Heap {
    var counts: map<ObjectId, nat>
    var cells: seq<Ptr>
    var nextId: ObjectId

    ghost predicate Valid()
      reads this
    {
      Balanced(State()) && forall o :: o in counts ==> o < nextId
    }

    function State(): HeapState
      reads this
    {
      HeapState(counts, cells)
    }

    constructor ()
      ensures Valid() && counts == map[] && cells == []
    {
      counts, cells, nextId := map[], [], 0;
    }

    /** RefCounted(): a new object starts with count 0 and no owner. */
    method NewObject() returns (o: ObjectId)
      requires Valid()
      modifies this`counts, this`nextId
      ensures Valid()
      ensures o !in old(counts) && counts == old(counts)[o := 0]
    {
      o := nextId;
      counts := counts[o := 0];
      nextId := nextId + 1;
    }

    /** RefCounted::AddRef: the count goes up by exactly one. */
    method AddRef(o: ObjectId)
      requires o in counts
      modifies this`counts
      ensures counts == old(counts)[o := old(counts[o]) + 1]
    {
      counts := counts[o := counts[o] + 1];
    }

    /** RefCounted::Release: the count goes down by one; the object is destroyed exactly when it
        reaches zero. Releasing a zero count is the underflow the source asserts against. */
    method Release(o: ObjectId) returns (destroyed: bool)
      requires o in counts && counts[o] > 0
      modifies this`counts
      ensures destroyed <==> old(counts[o]) == 1
      ensures destroyed ==> counts == old(counts) - {o}
      ensures !destroyed ==> counts == old(counts)[o := old(counts[o]) - 1]
    {
      destroyed := counts[o] == 1;
      if destroyed {
        counts := counts - {o};
      } else {
        counts := counts[o := counts[o] - 1];
      }
    }

    /** rp::Swap(x): retain `p`, store it in cell `c`, release what the cell held. */
    method Swap(c: nat, p: Ptr)
      requires Valid() && c < |cells| && (p.To? ==> p.id in counts)
      modifies this`counts, this`cells
      ensures Valid()
      ensures State() == Swapped(old(State()), c, p)
    {
      ghost var s := State();
      if p.To? {
        AddRef(p.id);
      }
      var was := cells[c];
      cells := cells[c := p];
      if was.To? {
        var _ := Release(was.id);
      }
      SwapKeepsBalance(s, c, p);
    }

    /** rp() and rp(nullptr): a new null cell. */
    method NewNull() returns (c: nat)
      requires Valid()
      modifies this`cells
      ensures Valid()
      ensures c == |old(cells)| && cells == old(cells) + [Null]
    {
      forall o ensures Holders(cells + [Null], o) == Holders(cells, o) {
        HoldersAppend(cells, Null, o);
      }
      c := |cells|;
      cells := cells + [Null];
    }

    /** rp(U* x): a new cell that takes a reference to `p`. */
    method NewFrom(p: Ptr) returns (c: nat)
      requires Valid() && (p.To? ==> p.id in counts)
      modifies this`counts, this`cells
      ensures Valid()
      ensures c == |old(cells)| && cells == old(cells) + [p]
      ensures counts == Retain(old(counts), p)
    {
      c := NewNull();
      Swap(c, p);
    }

    /** rp(const rp& x): a new cell sharing the referent of cell `src`, with one more reference. */
    method NewCopy(src: nat) returns (c: nat)
      requires Valid() && src < |cells|
      modifies this`counts, this`cells
      ensures Valid()
      ensures c == |old(cells)| && cells == old(cells) + [old(cells[src])]
      ensures counts == Retain(old(counts), old(cells[src]))
    {
      var p := cells[src];
      c := NewFrom(p);
    }

    /** rp(rp&& x): a new cell takes over the referent of `src`, which becomes null; no count
        changes. */
    method NewMove(src: nat) returns (c: nat)
      requires Valid() && src < |cells|
      modifies this`cells
      ensures Valid()
      ensures c == |old(cells)| && cells == old(cells)[src := Null] + [old(cells[src])]
      ensures counts == old(counts)
    {
      var p := cells[src];
      forall o ensures Holders(cells[src := Null] + [p], o) == Holders(cells, o) {
        HoldersAppend(cells[src := Null], p, o);
        HoldersUpdate(cells, src, Null, o);
      }
      c := |cells|;
      cells := cells[src := Null] + [p];
    }

    /** ~rp(): releases the referent once and leaves the cell null. */
    method Destroy(c: nat)
      requires Valid() && c < |cells|
      modifies this`counts, this`cells
      ensures Valid()
      ensures cells == old(cells)[c := Null]
      ensures counts == Drop(old(counts), old(cells[c]))
    {
      Swap(c, Null);
    }

    /** rp::operator=(U* x): retain `p`, then release the old referent. */
    method AssignRaw(c: nat, p: Ptr)
      requires Valid() && c < |cells| && (p.To? ==> p.id in counts)
      modifies this`counts, this`cells
      ensures Valid()
      ensures State() == Swapped(old(State()), c, p)
    {
      Swap(c, p);
    }

    /** rp::operator=(const rp& x): cell `c` takes the referent of `src` (which may be `c` itself). */
    method Assign(c: nat, src: nat)
      requires Valid() && c < |cells| && src < |cells|
      modifies this`counts, this`cells
      ensures Valid()
      ensures State() == Swapped(old(State()), c, old(cells[src]))
      ensures old(cells[src]) == old(cells[c]) ==> State() == old(State())
    {
      var p := cells[src];
      if p == cells[c] && p.To? {
        SwapSamePointer(State(), c);
      }
      Swap(c, p);
    }

    /** rp::operator=(rp&& x): std::swap of the two cells' pointers; no count changes. */
    method MoveAssign(c: nat, src: nat)
      requires Valid() && c < |cells| && src < |cells|
      modifies this`cells
      ensures Valid()
      ensures cells == old(cells)[c := old(cells[src])][src := old(cells[c])]
      ensures counts == old(counts)
    {
      forall o ensures Holders(cells[c := cells[src]][src := cells[c]], o) == Holders(cells, o) {
        HoldersExchange(cells, c, src, o);
      }
      cells := cells[c := cells[src]][src := cells[c]];
    }

    /** rp::asOutVar(): releases the referent, leaves the cell null and hands out the cell itself
        for a creation call to fill, without taking a reference. */
    method AsOutVar(c: nat) returns (slot: nat)
      requires Valid() && c < |cells|
      modifies this`counts, this`cells
      ensures Valid()
      ensures slot == c && cells == old(cells)[c := Null]
      ensures counts == Drop(old(counts), old(cells[c]))
    {
      Swap(c, Null);
      slot := c;
    }
  }
}
