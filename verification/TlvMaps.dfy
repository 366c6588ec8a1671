/**
 * What the round trip means for the readers of a parsed tree: they look entries up by id, and
 * every lookup gives what the printed tree held.
 */
module TlvMaps {
  import opened Wrappers
  import opened Lists
  import opened TlvValues
  import opened TlvTree

  /** Every entry is listed under its own id, and no id twice. */
  predicate LeavesKeyed(xs: seq<Binding<Leaf>>) {
    DistinctKeys(xs) && forall i :: 0 <= i < |xs| ==> xs[i].key == xs[i].value.id
  }

  predicate ResourcesKeyed(rs: seq<Binding<Resource>>) {
    && DistinctKeys(rs)
    && forall i :: 0 <= i < |rs| ==> rs[i].key == rs[i].value.id && LeavesKeyed(rs[i].value.instances)
  }

  predicate InstancesKeyed(os: seq<Binding<Instance>>) {
    && DistinctKeys(os)
    && forall i :: 0 <= i < |os| ==> os[i].key == os[i].value.id && ResourcesKeyed(os[i].value.resources)
  }

  /** A stored value that one crossing leaves alone; only executable resources have none. */
  predicate StableOptional(v: Option<Value>, t: ValueType) {
    match v
    case Some(value) => HasType(value, t) && Representable(value) && Stable(value)
    case None => t == NONE
  }

  predicate LeavesStable(xs: seq<Binding<Leaf>>) {
    forall i :: 0 <= i < |xs| ==> StableOptional(xs[i].value.value, xs[i].value.rtype)
  }

  /** The field a resource does not use is empty. */
  predicate ResourceStable(r: Resource) {
    if r.multiple then r.value == None && LeavesStable(r.instances)
    else r.instances == [] && StableOptional(r.value, r.rtype)
  }

  predicate ResourcesStable(rs: seq<Binding<Resource>>) {
    forall i :: 0 <= i < |rs| ==> ResourceStable(rs[i].value)
  }

  predicate InstancesStable(os: seq<Binding<Instance>>) {
    forall i :: 0 <= i < |os| ==> ResourcesStable(os[i].value.resources)
  }

  // ---------------------------------------------------------------- equal as maps

  ghost predicate SameLeaves(a: seq<Binding<Leaf>>, b: seq<Binding<Leaf>>) {
    forall id :: Lookup(a, id) == Lookup(b, id)
  }

  ghost predicate SameResource(a: Resource, b: Resource) {
    && a.id == b.id && a.rtype == b.rtype && a.multiple == b.multiple && a.value == b.value
    && SameLeaves(a.instances, b.instances)
  }

  ghost predicate SameResources(a: seq<Binding<Resource>>, b: seq<Binding<Resource>>) {
    forall id ::
      match (Lookup(a, id), Lookup(b, id))
      case (Some(x), Some(y)) => SameResource(x, y)
      case (x, y) => x.None? && y.None?
  }

  ghost predicate SameInstances(a: seq<Binding<Instance>>, b: seq<Binding<Instance>>) {
    forall id ::
      match (Lookup(a, id), Lookup(b, id))
      case (Some(x), Some(y)) => x.id == y.id && SameResources(x.resources, y.resources)
      case (x, y) => x.None? && y.None?
  }

  // ---------------------------------------------------------------- lookups after a crossing

  lemma {:induction false} LookupAppend<V>(bs: seq<Binding<V>>, b: Binding<V>, key: int)
    ensures Lookup(bs + [b], key) ==
            if Lookup(bs, key).Some? then Lookup(bs, key) else if b.key == key then Some(b.value) else None
  {
    if bs == [] {
      assert [] + [b] == [b];
      assert [b][1..] == [];
      assert Lookup([b], key) == if b.key == key then Some(b.value) else Lookup([b][1..], key);
    } else {
      assert (bs + [b])[1..] == bs[1..] + [b];
      LookupAppend(bs[1..], b, key);
    }
  }

  lemma LookupNotAgain<V>(bs: seq<Binding<V>>)
    requires bs != [] && DistinctKeys(bs)
    ensures Lookup(bs[1..], bs[0].key) == None && DistinctKeys(bs[1..])
  {
    LookupMember(bs[1..], bs[0].key);
  }

  lemma {:induction false} LookupCrossedLeaf(xs: seq<Binding<Leaf>>, id: int)
    requires LeavesKeyed(xs) && LeavesStable(xs)
    ensures Lookup(CrossLeaves(xs), id) == Lookup(xs, id)
  {
    if xs != [] {
      var x := xs[0].value;
      LookupNotAgain(xs);
      assert LeavesKeyed(xs[1..]) && LeavesStable(xs[1..]);
      LookupCrossedLeaf(xs[1..], id);
      if x.value.Some? {
        StableIsFixed(x.value.value);
      }
      assert CrossLeaf(x) == x;
      LookupAppend(CrossLeaves(xs[1..]), Binding(x.id, x), id);
    }
  }

  lemma CrossedResourceSame(r: Resource)
    requires LeavesKeyed(r.instances) && ResourceStable(r)
    ensures SameResource(CrossResource(r), r)
  {
    if r.multiple {
      forall id ensures Lookup(CrossLeaves(r.instances), id) == Lookup(r.instances, id) {
        LookupCrossedLeaf(r.instances, id);
      }
    } else if r.value.Some? {
      StableIsFixed(r.value.value);
    }
  }

  lemma {:induction false} LookupCrossedResource(rs: seq<Binding<Resource>>, id: int)
    requires ResourcesKeyed(rs)
    ensures Lookup(CrossResources(rs), id) ==
            if Lookup(rs, id).Some? then Some(CrossResource(Lookup(rs, id).value)) else None
  {
    if rs != [] {
      LookupNotAgain(rs);
      assert ResourcesKeyed(rs[1..]);
      LookupCrossedResource(rs[1..], id);
      LookupAppend(CrossResources(rs[1..]), Binding(rs[0].value.id, CrossResource(rs[0].value)), id);
    }
  }

  lemma CrossedResourcesSame(rs: seq<Binding<Resource>>)
    requires ResourcesKeyed(rs) && ResourcesStable(rs)
    ensures SameResources(CrossResources(rs), rs)
  {
    forall id
      ensures match (Lookup(CrossResources(rs), id), Lookup(rs, id))
              case (Some(x), Some(y)) => SameResource(x, y)
              case (x, y) => x.None? && y.None?
    {
      LookupCrossedResource(rs, id);
      LookupMember(rs, id);
      if Lookup(rs, id).Some? {
        var b := Binding(id, Lookup(rs, id).value);
        var i :| 0 <= i < |rs| && rs[i] == b;
        CrossedResourceSame(b.value);
      }
    }
  }

  lemma {:induction false} LookupCrossedInstance(os: seq<Binding<Instance>>, id: int)
    requires InstancesKeyed(os)
    ensures Lookup(CrossInstances(os), id) ==
            if Lookup(os, id).Some?
            then Some(Lookup(os, id).value.(resources := CrossResources(Lookup(os, id).value.resources)))
            else None
  {
    if os != [] {
      LookupNotAgain(os);
      assert InstancesKeyed(os[1..]);
      LookupCrossedInstance(os[1..], id);
      var i := os[0].value;
      LookupAppend(CrossInstances(os[1..]), Binding(i.id, i.(resources := CrossResources(i.resources))), id);
    }
  }

  lemma CrossedInstancesSame(os: seq<Binding<Instance>>)
    requires InstancesKeyed(os) && InstancesStable(os)
    ensures SameInstances(CrossInstances(os), os)
  {
    forall id
      ensures match (Lookup(CrossInstances(os), id), Lookup(os, id))
              case (Some(x), Some(y)) => x.id == y.id && SameResources(x.resources, y.resources)
              case (x, y) => x.None? && y.None?
    {
      LookupCrossedInstance(os, id);
      LookupMember(os, id);
      if Lookup(os, id).Some? {
        var b := Binding(id, Lookup(os, id).value);
        var i :| 0 <= i < |os| && os[i] == b;
        CrossedResourcesSame(b.value.resources);
      }
    }
  }

  /**
   * Parsing a printed object gives, at every level, the same map from ids to values: texts,
   * opaque data, flags, integers below 255 and every other value that reads the same in both
   * byte orders.
   */
  lemma ParsedObjectIsSame(signed: bool, def: seq<ResourceDef>, os: seq<Binding<Instance>>)
    requires InstancesFit(signed, def, os) && InstancesKeyed(os) && InstancesStable(os)
    ensures var bytes := ObjectBytes(os);
      var r := ParseObject(signed, def, bytes, 0, |bytes|);
      r.Ok? && SameInstances(r.value, os) && |r.value| == |os|
  {
    hide InstancesFit, InstancesKeyed, InstancesStable, SameInstances, ObjectBytes, ParseObject, CrossInstances;
    var bytes := ObjectBytes(os);
    assert bytes[0..|bytes|] == bytes;
    ObjectRoundTrip(signed, def, os, bytes, 0);
    CrossedInstancesSame(os);
    CrossedSize(os);
  }

  lemma {:induction false} CrossedSize(os: seq<Binding<Instance>>)
    ensures |CrossInstances(os)| == |os|
    ensures forall i :: 0 <= i < |os| ==> CrossInstances(os)[i].key == os[|os| - 1 - i].value.id
  {
    if os != [] {
      CrossedSize(os[1..]);
    }
  }
}
