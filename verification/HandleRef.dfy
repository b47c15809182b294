/** The handle classes: one pointer field, reassigned in place, and a library that counts. */
module HandleRef {
  import opened Handles

  /** The C library's reference counts. `handles` and `loose` record who owns them. */
  class Library {
    var counts: map<nat, nat>
    ghost var handles: set<HandleRef>
    ghost var loose: multiset<nat>

    ghost function View(): Own<HandleRef>
      reads this, handles
    {
      Own(counts, map h | h in handles :: h.ptr, loose)
    }

    ghost predicate Valid()
      reads this, handles
    {
      Conserved(View())
    }

    /** TRef: counts a live object up and hands the pointer back; null is left alone. */
    method AddRef(p: Ptr) returns (r: Ptr)
      requires Safe(counts, Ref(p))
      modifies this`counts
      ensures counts == Do(old(counts), Ref(p)) && r == p
    {
      if p.To? {
        counts := counts[p.obj := Count(counts, p.obj) + 1];
      }
      r := p;
    }

    /** TUnRef: counts a live object down. */
    method Release(p: Ptr)
      requires Safe(counts, Unref(p))
      modifies this`counts
      ensures counts == Do(old(counts), Unref(p))
    {
      if p.To? {
        counts := counts[p.obj := Count(counts, p.obj) - 1];
      }
    }

    /** A C function that hands out a new reference to `o`. */
    method HandOut(o: nat)
      requires Valid()
      modifies this`counts, this`loose
      ensures Valid() && View() == Apply(old(View()), Op.Obtain(o))
      ensures loose == old(loose) + multiset{o} && counts == old(counts)[o := Count(old(counts), o) + 1]
    {
      StepConserves(View(), Op.Obtain(o));
      counts := counts[o := Count(counts, o) + 1];
      loose := loose + multiset{o};
      assert View().slots == old(View()).slots;
    }

    /** Client code gives back a reference of its own. */
    method GiveBack(o: nat)
      requires Valid() && o in loose
      modifies this`counts, this`loose
      ensures Valid() && View() == Apply(old(View()), Op.Release(o))
      ensures loose == old(loose) - multiset{o} && counts == Do(old(counts), Unref(To(o)))
    {
      hide Conserved, Holders, Do;
      StepConserves(View(), Op.Release(o));
      CallsAreSafe(View(), Op.Release(o));
      DoOne(counts, Unref(To(o)));
      Release(To(o));
      loose := loose - multiset{o};
      assert View().slots == old(View()).slots;
    }
  }

  class HandleRef {
    var ptr: Ptr

    /** `explicit HandleRef(THandle* ptr)`: takes over the caller's reference. */
    constructor Attach(lib: Library, p: Ptr)
      requires lib.Valid() && (p.To? ==> p.obj in lib.loose)
      modifies lib`handles, lib`loose
      ensures lib.Valid() && lib.View() == Apply(old(lib.View()), Op.Attach(this, p))
      ensures lib.handles == old(lib.handles) + {this} && ptr == p
      ensures lib.loose == if p.To? then old(lib.loose) - multiset{p.obj} else old(lib.loose)
    {
      ptr := p;
      new;
      hide Conserved, Holders;
      StepConserves(lib.View(), Op.Attach(this, p));
      if p.To? {
        lib.loose := lib.loose - multiset{p.obj};
      }
      lib.handles := lib.handles + {this};
      assert lib.View().slots == old(lib.View()).slots[this := p];
    }

    /** Wrapping a pointer with a reference of its own. */
    constructor Wrap(lib: Library, p: Ptr)
      requires lib.Valid() && Safe(lib.counts, Ref(p))
      modifies lib`counts, lib`handles
      ensures lib.Valid() && lib.View() == Apply(old(lib.View()), Op.Wrap(this, p))
      ensures lib.handles == old(lib.handles) + {this} && ptr == p && lib.counts == Do(old(lib.counts), Ref(p))
    {
      ptr := p;
      new;
      hide Conserved, Holders, Do;
      StepConserves(lib.View(), Op.Wrap(this, p));
      DoOne(lib.counts, Ref(p));
      var _ := lib.AddRef(p);
      lib.handles := lib.handles + {this};
      assert lib.View().slots == old(lib.View()).slots[this := p];
    }

    /** Copy construction. */
    constructor CopyNew(lib: Library, other: HandleRef)
      requires lib.Valid() && other in lib.handles
      modifies lib`counts, lib`handles
      ensures lib.Valid() && lib.View() == Apply(old(lib.View()), Op.CopyNew(this, other))
      ensures lib.handles == old(lib.handles) + {this}
      ensures ptr == other.ptr && lib.counts == Do(old(lib.counts), Ref(other.ptr))
    {
      ptr := other.ptr;
      new;
      hide Conserved, Holders, Do;
      StepConserves(lib.View(), Op.CopyNew(this, other));
      CallsAreSafe(lib.View(), Op.CopyNew(this, other));
      DoOne(lib.counts, Ref(other.ptr));
      var _ := lib.AddRef(other.ptr);
      lib.handles := lib.handles + {this};
      assert lib.View().slots == old(lib.View()).slots[this := other.ptr];
    }

    /** Move construction: the source is left empty. */
    constructor MoveNew(lib: Library, other: HandleRef)
      requires lib.Valid() && other in lib.handles
      modifies lib`handles, other
      ensures lib.Valid() && lib.View() == Apply(old(lib.View()), Op.MoveNew(this, other))
      ensures lib.handles == old(lib.handles) + {this} && ptr == old(other.ptr) && other.ptr == Null
    {
      ptr := other.ptr;
      new;
      StepConserves(lib.View(), Op.MoveNew(this, other));
      other.ptr := Null;
      lib.handles := lib.handles + {this};
      assert lib.View().slots == old(lib.View()).slots[this := old(other.ptr)][other := Null];
    }

    /** Copy assignment. */
    method CopyFrom(lib: Library, other: HandleRef)
      requires lib.Valid() && this in lib.handles && other in lib.handles
      modifies this, lib`counts
      ensures lib.Valid() && lib.View() == Apply(old(lib.View()), Op.CopyTo(this, other))
      ensures ptr == old(other.ptr) && other.ptr == old(other.ptr)
    {
      hide Conserved, Holders, Do;
      StepConserves(lib.View(), Op.CopyTo(this, other));
      CallsAreSafe(lib.View(), Op.CopyTo(this, other));
      if this == other {
        return;
      }
      DoTwo(lib.counts, Unref(ptr), Ref(other.ptr));
      lib.Release(ptr);
      ptr := lib.AddRef(other.ptr);
      assert lib.View().slots == old(lib.View()).slots[this := other.ptr];
    }

    /** Move assignment. */
    method MoveFrom(lib: Library, other: HandleRef)
      requires lib.Valid() && this in lib.handles && other in lib.handles
      modifies this, other, lib`counts
      ensures lib.Valid() && lib.View() == Apply(old(lib.View()), Op.MoveTo(this, other))
      ensures ptr == old(other.ptr) && (this != other ==> other.ptr == Null)
    {
      hide Conserved, Holders, Do;
      StepConserves(lib.View(), Op.MoveTo(this, other));
      CallsAreSafe(lib.View(), Op.MoveTo(this, other));
      if this == other {
        return;
      }
      DoOne(lib.counts, Unref(ptr));
      lib.Release(ptr);
      ptr := other.ptr;
      other.ptr := Null;
      assert lib.View().slots == old(lib.View()).slots[this := old(other.ptr)][other := Null];
    }

    /** The destructor. */
    method Destroy(lib: Library)
      requires lib.Valid() && this in lib.handles
      modifies lib`counts, lib`handles
      ensures lib.Valid() && lib.View() == Apply(old(lib.View()), Op.Drop(this))
      ensures lib.handles == old(lib.handles) - {this} && lib.counts == Do(old(lib.counts), Unref(ptr))
    {
      hide Conserved, Holders, Do;
      StepConserves(lib.View(), Op.Drop(this));
      CallsAreSafe(lib.View(), Op.Drop(this));
      DoOne(lib.counts, Unref(ptr));
      lib.Release(ptr);
      lib.handles := lib.handles - {this};
      assert lib.View().slots == old(lib.View()).slots - {this};
    }
  }
}
