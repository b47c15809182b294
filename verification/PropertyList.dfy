/** Turning a C property list into a vector of handles. */
module PropertyList {
  import opened Handles
  import opened HandleRef

  datatype Answer = Failed | Got(obj: nat)

  /** The entries that could be read, in list order. */
  function Obtained(entries: seq<Answer>): seq<nat> {
    if entries == [] then []
    else
      var rest := Obtained(entries[..|entries| - 1]);
      match entries[|entries| - 1]
      case Failed => rest
      case Got(o) => rest + [o]
  }

  /** `push_back(prop_attach<T>(entry))`: the temporary takes over the entry's reference, the
      element is a copy of it, and the temporary goes. */
  method PushAttached(lib: Library, o: nat) returns (element: HandleRef)
    requires lib.Valid() && o in lib.loose
    modifies lib`counts, lib`handles, lib`loose
    ensures lib.Valid() && fresh(element) && element.ptr == To(o)
    ensures lib.handles == old(lib.handles) + {element}
    ensures lib.loose == old(lib.loose) - multiset{o}
    ensures forall q: nat :: Count(lib.counts, q) == Count(old(lib.counts), q)
  {
    hide Apply, Conserved;
    var temporary := new HandleRef.Attach(lib, To(o));
    element := new HandleRef.CopyNew(lib, temporary);
    temporary.Destroy(lib);
    assert lib.handles == old(lib.handles) + {element};
  }

  /** `after` has one reference more for each object listed. */
  ghost predicate Grown(before: map<nat, nat>, after: map<nat, nat>, objs: seq<nat>) {
    forall o: nat :: Count(after, o) == Count(before, o) + multiset(objs)[o]
  }

  lemma GrownByOne(before: map<nat, nat>, now: map<nat, nat>, after: map<nat, nat>, objs: seq<nat>, o: nat)
    requires Grown(before, now, objs)
    requires forall q: nat :: Count(after, q) == Count(now, q) + Holds(To(o), q)
    ensures Grown(before, after, objs + [o])
  {
  }

  lemma GrownSame(before: map<nat, nat>, now: map<nat, nat>, after: map<nat, nat>, objs: seq<nat>)
    requires Grown(before, now, objs) && forall q: nat :: Count(after, q) == Count(now, q)
    ensures Grown(before, after, objs)
  {
  }

  /** Taking a reference first and giving it back last leaves what was added in between. */
  lemma GrownAround(before: map<nat, nat>, now: map<nat, nat>, list: nat, objs: seq<nat>)
    requires Grown(before[list := Count(before, list) + 1], now, objs)
    ensures Grown(before, Do(now, Unref(To(list))), objs)
  {
  }

  /** Distinct new handles, one for each object listed. */
  ghost predicate Owns(handles: seq<HandleRef>, objs: seq<nat>)
    reads handles
  {
    && |handles| == |objs|
    && (forall i :: 0 <= i < |objs| ==> handles[i].ptr == To(objs[i]))
    && forall i, j :: 0 <= i < j < |handles| ==> handles[i] != handles[j]
  }

  /** The live handles afterwards: those before and the result's. */
  ghost predicate Joined(before: set<HandleRef>, result: seq<HandleRef>, after: set<HandleRef>) {
    after == before + (set h | h in result)
  }

  lemma JoinedOne(before: set<HandleRef>, result: seq<HandleRef>, now: set<HandleRef>, h: HandleRef)
    requires Joined(before, result, now)
    ensures Joined(before, result + [h], now + {h})
  {
  }

  /** One entry of the list: read it, and if that works push a handle for it. */
  method PushEntry(lib: Library, handles: seq<HandleRef>, ghost objs: seq<nat>, entry: Answer)
    returns (result: seq<HandleRef>)
    requires lib.Valid() && Owns(handles, objs) && (forall h :: h in handles ==> h in lib.handles)
    modifies lib
    ensures lib.Valid() && lib.loose == old(lib.loose)
    ensures Owns(result, if entry.Got? then objs + [entry.obj] else objs)
    ensures entry.Failed? ==> result == handles && lib.handles == old(lib.handles)
    ensures entry.Got? ==> |result| == |handles| + 1 && result == handles + [result[|handles|]]
    ensures entry.Got? ==> fresh(result[|handles|]) && lib.handles == old(lib.handles) + {result[|handles|]}
    ensures forall q: nat :: Count(lib.counts, q)
              == Count(old(lib.counts), q) + (if entry.Got? then Holds(To(entry.obj), q) else 0)
  {
    hide Apply, Conserved;
    result := handles;
    if entry.Got? {
      lib.HandOut(entry.obj);
      var element := PushAttached(lib, entry.obj);
      result := result + [element];
    }
  }

  /** The loop over the entries. */
  method PushEntries(lib: Library, entries: seq<Answer>) returns (result: seq<HandleRef>)
    requires lib.Valid()
    modifies lib
    ensures lib.Valid() && lib.loose == old(lib.loose)
    ensures fresh(result) && Joined(old(lib.handles), result, lib.handles)
    ensures Owns(result, Obtained(entries)) && Grown(old(lib.counts), lib.counts, Obtained(entries))
  {
    hide Apply, Conserved, Count, Holds;
    result := [];
    NothingYet(lib.counts, lib.handles);
    for i := 0 to |entries|
      invariant lib.Valid() && lib.loose == old(lib.loose)
      invariant fresh(result) && Joined(old(lib.handles), result, lib.handles)
      invariant Owns(result, Obtained(entries[..i])) && Grown(old(lib.counts), lib.counts, Obtained(entries[..i]))
    {
      hide Grown, Owns, Joined;
      assert entries[..i + 1][..i] == entries[..i];
      ghost var now := lib.counts;
      ghost var objs := Obtained(entries[..i]);
      ghost var was, live := result, lib.handles;
      result := PushEntry(lib, result, objs, entries[i]);
      if entries[i].Got? {
        JoinedOne(old(lib.handles), was, live, result[|was|]);
        GrownByOne(old(lib.counts), now, lib.counts, objs, entries[i].obj);
      } else {
        GrownSame(old(lib.counts), now, lib.counts, objs);
      }
    }
    assert entries[..|entries|] == entries;
  }

  lemma NothingYet(counts: map<nat, nat>, live: set<HandleRef>)
    ensures Grown(counts, counts, []) && Owns([], []) && Joined(live, [], live)
  {
  }

  /** The answers of the C calls are inputs. On every path the list is given back as often
      as it was obtained, and each entry reference obtained belongs to one element. */
  method ReturnPropertyList(lib: Library, list: Answer, sizeOk: bool, entries: seq<Answer>)
    returns (result: seq<HandleRef>, listUnrefs: nat)
    requires lib.Valid()
    modifies lib
    ensures lib.Valid() && lib.loose == old(lib.loose)
    ensures listUnrefs == if list.Got? then 1 else 0
    ensures fresh(result) && Joined(old(lib.handles), result, lib.handles)
    ensures Owns(result, if list.Got? && sizeOk then Obtained(entries) else [])
    ensures Grown(old(lib.counts), lib.counts, if list.Got? && sizeOk then Obtained(entries) else [])
  {
    hide Apply, Conserved, Do, Grown, Owns, Joined, Count;
    result, listUnrefs := [], 0;
    NothingYet(lib.counts, lib.handles);
    if list.Failed? {
      return;
    }
    ghost var before := lib.counts;
    lib.HandOut(list.obj);
    if !sizeOk {
      NothingYet(lib.counts, lib.handles);
      GrownAround(before, lib.counts, list.obj, []);
      lib.GiveBack(list.obj);
      listUnrefs := listUnrefs + 1;
      return;
    }
    result := PushEntries(lib, entries);
    GrownAround(before, lib.counts, list.obj, Obtained(entries));
    lib.GiveBack(list.obj);
    listUnrefs := listUnrefs + 1;
  }
}
