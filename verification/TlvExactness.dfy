/**
 * The other half of the TLV round trip: entries outside the surviving ranges are never read
 * back, so the conditions of the round trip are exactly right.
 */
module TlvExactness {
  import opened Wrappers
  import opened Bits
  import opened Lists
  import opened TlvHeader
  import opened TlvValues
  import opened TlvTree

  /** An entry that does not survive is read back under another id, or cut short. */
  lemma UnreadEntry(
      signed: bool, id: int, code: int, payload: seq<byte>, rest: seq<byte>, buf: seq<byte>, at: nat)
    requires IsType(code) && Holds(buf, at, EntryBytes(id, code, payload) + rest)
    requires !EntrySurvives(signed, id, payload)
    ensures var r := DecodeHeader(signed, buf, at);
      r.Ok? && r.value.0.id == id ==> r.value.0.length < |payload| && |payload| >= 128
  {
    var h := HeaderBytes(id, code, |payload|);
    HoldsSplit(buf, at, h + payload, rest);
    HoldsSplit(buf, at, h, payload);
    HoldsSurrounded(buf, at, h);
    var pre, post := buf[..at], buf[at + |h|..];
    if GetIntBytes(|payload|) == 4 {
      DecodeOversizedHeader(signed, id, code, |payload|, pre, post);
    } else {
      DecodePrintedHeader(signed, id, code, |payload|, pre, post);
      IdReadsBack(signed, id);
      LengthReadsBack(signed, |payload|);
    }
  }

  lemma {:induction false} UntilNulShrinks(bs: seq<byte>)
    ensures |UntilNul(bs)| <= |bs|
  {
    if bs != [] && bs[0] != 0 {
      UntilNulShrinks(bs[1..]);
    }
  }

  /** Only texts and opaque data are long, and a shorter read of one is a different value. */
  lemma ShortReadDiffers(v: Option<Value>, t: ValueType, buf: seq<byte>, at: nat, len: nat)
    requires Printable(v, t) && |OptionalBytes(v)| >= 128 && len < |OptionalBytes(v)|
    ensures DecodeValue(buf, at, len, t) != Ok(TransitOptional(v, t))
  {
    assert t == STRING || t == OPAQUE;
    if at + len <= |buf| {
      UntilNulShrinks(buf[at..at + len]);
    }
  }

  lemma LastDiffers<T>(a: seq<T>, x: T, b: seq<T>, y: T)
    requires a + [x] == b + [y]
    ensures a == b && x == y
  {
    var s := a + [x];
    assert s[|s| - 1] == x && s[..|s| - 1] == a;
    assert s[|s| - 1] == y && s[..|s| - 1] == b;
  }

  /**
   * Resource instances, exactly: a printed list of them is read back, each value crossed
   * once, if and only if every id and every length survives.
   */
  lemma {:induction false} LeavesExact(
      signed: bool, d: ResourceDef, xs: seq<Binding<Leaf>>, buf: seq<byte>, at: nat)
    requires LeavesTyped(d, xs) && Holds(buf, at, LeavesBytes(xs))
    ensures ParseLeaves(signed, d, buf, at, at + |LeavesBytes(xs)|) == Ok(CrossLeaves(xs))
            <==> LeavesSurvive(signed, xs)
  {
    hide DecodeHeader, DecodeValue, EntryBytes, EntrySurvives, Holds, OptionalBytes, CrossLeaf;
    if LeavesSurvive(signed, xs) {
      LeavesRoundTrip(signed, d, xs, buf, at);
    } else {
      var x, rest := xs[0].value, LeavesBytes(xs[1..]);
      var end := at + |LeavesBytes(xs)|;
      EntryNonEmpty(x.id, RESOURCE_INSTANCE_TYPE, OptionalBytes(x.value));
      if LeafSurvives(signed, x) {
        var next := EntryReadsBack(
            signed, x.id, RESOURCE_INSTANCE_TYPE, OptionalBytes(x.value), rest, buf, at);
        LeavesExact(signed, d, xs[1..], buf, next + |OptionalBytes(x.value)|);
        LeavesSurviveSplit(signed, xs);
        FirstLeafParsed(signed, d, xs, buf, at, end);
      } else {
        UnreadEntry(signed, x.id, RESOURCE_INSTANCE_TYPE, OptionalBytes(x.value), rest, buf, at);
        FirstLeafParsed(signed, d, xs, buf, at, end);
      }
    }
  }

  lemma EntryNonEmpty(id: int, code: int, payload: seq<byte>)
    requires IsType(code)
    ensures |EntryBytes(id, code, payload)| > 0
  {
  }

  lemma LeavesSurviveSplit(signed: bool, xs: seq<Binding<Leaf>>)
    requires xs != []
    ensures LeavesSurvive(signed, xs) <==> LeafSurvives(signed, xs[0].value) && LeavesSurvive(signed, xs[1..])
  {
    if LeafSurvives(signed, xs[0].value) && LeavesSurvive(signed, xs[1..]) {
      forall i | 0 <= i < |xs| ensures LeafSurvives(signed, xs[i].value) {
        if i > 0 {
          assert xs[1..][i - 1] == xs[i];
        }
      }
    }
  }

  /** A list read back as expected has its first entry read back as expected. */
  lemma FirstLeafParsed(
      signed: bool, d: ResourceDef, xs: seq<Binding<Leaf>>, buf: seq<byte>, at: nat, end: nat)
    requires xs != [] && at < end && LeavesTyped(d, xs)
    requires !(var r := DecodeHeader(signed, buf, at);
      && r.Ok? && r.value.0.length >= 0 && r.value.0.id == xs[0].value.id
      && r.value.0.length == |OptionalBytes(xs[0].value.value)|
      && ParseLeaves(signed, d, buf, r.value.1 + r.value.0.length, end) == Ok(CrossLeaves(xs[1..])))
    requires var r := DecodeHeader(signed, buf, at);
      r.Ok? && r.value.0.id == xs[0].value.id && r.value.0.length != |OptionalBytes(xs[0].value.value)| ==>
        r.value.0.length < |OptionalBytes(xs[0].value.value)| && |OptionalBytes(xs[0].value.value)| >= 128
    ensures ParseLeaves(signed, d, buf, at, end) != Ok(CrossLeaves(xs))
  {
    hide DecodeHeader, DecodeValue;
    var x := xs[0].value;
    if ParseLeaves(signed, d, buf, at, end) == Ok(CrossLeaves(xs)) {
      var (h, next) := DecodeHeader(signed, buf, at).value;
      var value := DecodeValue(buf, next, h.length, d.rtype).value;
      var rest := ParseLeaves(signed, d, buf, next + h.length, end).value;
      LastDiffers(rest, Binding(h.id, Leaf(h.id, d.rtype, value)),
                  CrossLeaves(xs[1..]), Binding(x.id, CrossLeaf(x)));
      if h.length != |OptionalBytes(x.value)| {
        ShortReadDiffers(x.value, d.rtype, buf, next, h.length);
      }
    }
  }

  /** The definition table is indexed by resource id. */
  predicate IndexedDefinitions(def: seq<ResourceDef>) {
    forall i :: 0 <= i < |def| ==> def[i].id == i
  }

  /** The multiple resources, but for one at the end, are announced with their own length. */
  predicate MultipleLengthsSurvive(signed: bool, rs: seq<Binding<Resource>>) {
    forall i :: 0 <= i < |rs| - 1 && rs[i].value.multiple ==> LengthSurvives(signed, |ResourcePayload(rs[i].value)|)
  }

  lemma ResourcesSurviveSplit(signed: bool, rs: seq<Binding<Resource>>)
    requires rs != []
    ensures ResourcesSurvive(signed, rs) <==>
            ResourceSurvives(signed, rs[0].value) && ResourcesSurvive(signed, rs[1..])
  {
    if ResourceSurvives(signed, rs[0].value) && ResourcesSurvive(signed, rs[1..]) {
      forall i | 0 <= i < |rs| ensures ResourceSurvives(signed, rs[i].value) {
        if i > 0 {
          assert rs[1..][i - 1] == rs[i];
        }
      }
    }
  }

  /** The header of an entry whose id reads back ends where the payload begins. */
  lemma HeaderOfEntry(signed: bool, id: int, code: int, payload: seq<byte>, buf: seq<byte>, at: nat)
    requires IsType(code) && Holds(buf, at, EntryBytes(id, code, payload))
    requires DecodeHeader(signed, buf, at).Ok? && DecodeHeader(signed, buf, at).value.0.length < |payload|
    requires DecodeHeader(signed, buf, at).value.0.id == id
    ensures DecodeHeader(signed, buf, at).value.1 + DecodeHeader(signed, buf, at).value.0.length
            < at + |EntryBytes(id, code, payload)|
  {
    var h := HeaderBytes(id, code, |payload|);
    HoldsSplit(buf, at, h, payload);
    HoldsSurrounded(buf, at, h);
    var pre, post := buf[..at], buf[at + |h|..];
    if GetIntBytes(|payload|) == 4 {
      DecodeOversizedHeader(signed, id, code, |payload|, pre, post);
    } else {
      DecodePrintedHeader(signed, id, code, |payload|, pre, post);
    }
  }

  /** Where the parts of a printed entry stand. */
  lemma EntryStands(id: int, code: int, payload: seq<byte>, rest: seq<byte>, buf: seq<byte>, at: nat)
    requires IsType(code) && Holds(buf, at, EntryBytes(id, code, payload) + rest)
    ensures var h := HeaderBytes(id, code, |payload|);
      && |EntryBytes(id, code, payload)| == |h| + |payload| && |h| > 0 && at + |h| <= |buf|
      && buf == buf[..at] + h + buf[at + |h|..]
      && Holds(buf, at + |h|, payload) && Holds(buf, at + |h| + |payload|, rest)
  {
    var h := HeaderBytes(id, code, |payload|);
    HoldsSplit(buf, at, h + payload, rest);
    HoldsSplit(buf, at, h, payload);
    HoldsSurrounded(buf, at, h);
  }

  /** A header whose length survives is read with it, and with its own id exactly if that survives. */
  lemma LengthKept(
      signed: bool, id: int, code: int, payload: seq<byte>, rest: seq<byte>, buf: seq<byte>, at: nat)
    returns (read: int, next: nat)
    requires IsType(code) && Holds(buf, at, EntryBytes(id, code, payload) + rest)
    requires LengthSurvives(signed, |payload|)
    ensures DecodeHeader(signed, buf, at) == Ok((Header(code, |payload|, read), next))
    ensures read == id <==> EntrySurvives(signed, id, payload)
    ensures Holds(buf, next, payload) && Holds(buf, next + |payload|, rest)
    ensures next + |payload| == at + |EntryBytes(id, code, payload)| > at
  {
    assert GetIntBytes(|payload|) < 4;
    hide DecodeHeader, EntryBytes, HeaderBytes, Holds, IdAt, LengthAt, IdBytes, LengthBytes, GetIntBytes, IdSurvives;
    EntryStands(id, code, payload, rest, buf, at);
    next := at + |HeaderBytes(id, code, |payload|)|;
    DecodePrintedHeader(signed, id, code, |payload|, buf[..at], buf[next..]);
    IdReadsBack(signed, id);
    LengthReadsBack(signed, |payload|);
    read := IdAt(signed, IdBytes(id), 0, |IdBytes(id)|);
  }

  /** An instance that is read back has its first resource, and the others, read back. */
  lemma FirstResource(
      signed: bool, def: seq<ResourceDef>, rs: seq<Binding<Resource>>, buf: seq<byte>, at: nat, end: nat)
    returns (h: Header, next: nat)
    requires rs != [] && at < end && IndexedDefinitions(def)
    requires ParseInstance(signed, def, buf, at, end) == Ok(CrossResources(rs))
    ensures DecodeHeader(signed, buf, at) == Ok((h, next)) && h.length >= 0 && h.id == rs[0].value.id
    ensures ParseResource(signed, def, buf, h, next) == Ok(CrossResource(rs[0].value))
    ensures ParseInstance(signed, def, buf, next + h.length, end) == Ok(CrossResources(rs[1..]))
  {
    hide DecodeHeader, DecodeValue;
    var found := DecodeHeader(signed, buf, at).value;
    h, next := found.0, found.1;
    var resource := ParseResource(signed, def, buf, h, next).value;
    var rest := ParseInstance(signed, def, buf, next + h.length, end).value;
    LastDiffers(rest, Binding(resource.id, resource),
                CrossResources(rs[1..]), Binding(rs[0].value.id, CrossResource(rs[0].value)));
  }

  /** A resource read back from its own header and length has its instances read back. */
  lemma ResourceExact(signed: bool, def: seq<ResourceDef>, r: Resource, buf: seq<byte>, at: nat)
    requires ResourceTyped(def, r) && Holds(buf, at, ResourcePayload(r))
    requires ParseResource(signed, def, buf, Header(ResourceCode(r), |ResourcePayload(r)|, r.id), at) ==
             Ok(CrossResource(r))
    ensures r.multiple ==> LeavesSurvive(signed, r.instances)
  {
    hide DecodeValue, ParseLeaves, Holds, LeavesTyped;
    if r.multiple {
      LeavesExact(signed, def[r.id], r.instances, buf, at);
    }
  }

  /** A single-valued resource cut short is read as something else. */
  lemma ShortResourceDiffers(signed: bool, def: seq<ResourceDef>, r: Resource, buf: seq<byte>, h: Header, at: nat)
    requires ResourceTyped(def, r) && IndexedDefinitions(def) && !r.multiple
    requires 0 <= h.length < |ResourcePayload(r)| && |ResourcePayload(r)| >= 128 && h.id == r.id
    ensures ParseResource(signed, def, buf, h, at) != Ok(CrossResource(r))
  {
    ShortReadDiffers(r.value, r.rtype, buf, at, h.length);
    hide DecodeValue, ParseLeaves;
  }

  /** A parser with bytes left reads something. */
  lemma LeftoverRead(signed: bool, def: seq<ResourceDef>, buf: seq<byte>, at: nat, end: nat)
    requires at < end
    ensures ParseInstance(signed, def, buf, at, end) != Ok([]) && ParseObject(signed, def, buf, at, end) != Ok([])
  {
    hide DecodeHeader, ParseResource;
  }

  /** Of an instance that is read back the first resource survives. */
  lemma FirstSurvives(
      signed: bool, def: seq<ResourceDef>, rs: seq<Binding<Resource>>, buf: seq<byte>, at: nat)
    requires rs != [] && ResourcesTyped(def, rs) && IndexedDefinitions(def) && MultipleLengthsSurvive(signed, rs)
    requires Holds(buf, at, InstanceBytes(rs))
    ensures ParseInstance(signed, def, buf, at, at + |InstanceBytes(rs)|) == Ok(CrossResources(rs)) ==>
              ResourceSurvives(signed, rs[0].value)
  {
    hide DecodeHeader, EntryBytes, Holds, ParseResource, CrossResource, ResourcePayload, IndexedDefinitions,
         LeavesSurvive, IdSurvives, LengthSurvives, ParseInstance;
    var r, rest, end := rs[0].value, InstanceBytes(rs[1..]), at + |InstanceBytes(rs)|;
    EntryNonEmpty(r.id, ResourceCode(r), ResourcePayload(r));
    if ParseInstance(signed, def, buf, at, end) != Ok(CrossResources(rs)) {
      return;
    }
    var h, next := FirstResource(signed, def, rs, buf, at, end);
    if LengthSurvives(signed, |ResourcePayload(r)|) {
      var read, from := LengthKept(signed, r.id, ResourceCode(r), ResourcePayload(r), rest, buf, at);
      ResourceExact(signed, def, r, buf, from);
    } else {
      UnreadEntry(signed, r.id, ResourceCode(r), ResourcePayload(r), rest, buf, at);
      if r.multiple {
        HoldsSplit(buf, at, EntryBytes(r.id, ResourceCode(r), ResourcePayload(r)), rest);
        HeaderOfEntry(signed, r.id, ResourceCode(r), ResourcePayload(r), buf, at);
        LeftoverRead(signed, def, buf, next + h.length, end);
      } else {
        ShortResourceDiffers(signed, def, r, buf, h, next);
      }
    }
  }

  /**
   * Instances, exactly: unless a multiple resource before the last one has its length cut, a
   * printed instance is read back if and only if every id and length survives, those of the
   * entries within multiple resources included.
   */
  lemma {:induction false} InstanceExact(
      signed: bool, def: seq<ResourceDef>, rs: seq<Binding<Resource>>, buf: seq<byte>, at: nat)
    requires ResourcesTyped(def, rs) && IndexedDefinitions(def) && MultipleLengthsSurvive(signed, rs)
    requires Holds(buf, at, InstanceBytes(rs))
    ensures ParseInstance(signed, def, buf, at, at + |InstanceBytes(rs)|) == Ok(CrossResources(rs))
            <==> ResourcesSurvive(signed, rs)
  {
    hide DecodeHeader, EntryBytes, EntrySurvives, Holds, ParseResource, CrossResource, ResourcePayload,
         ResourceTyped, IndexedDefinitions, ParseInstance, ResourceSurvives;
    if ResourcesSurvive(signed, rs) {
      InstanceRoundTrip(signed, def, rs, buf, at);
    } else if ParseInstance(signed, def, buf, at, at + |InstanceBytes(rs)|) == Ok(CrossResources(rs)) {
      var r, rest := rs[0].value, InstanceBytes(rs[1..]);
      FirstSurvives(signed, def, rs, buf, at);
      SurvivingEntry(signed, r);
      EntryNonEmpty(r.id, ResourceCode(r), ResourcePayload(r));
      var next := EntryReadsBack(signed, r.id, ResourceCode(r), ResourcePayload(r), rest, buf, at);
      var h, from := FirstResource(signed, def, rs, buf, at, at + |InstanceBytes(rs)|);
      InstanceExact(signed, def, rs[1..], buf, next + |ResourcePayload(r)|);
      ResourcesSurviveSplit(signed, rs);
    }
  }

  lemma SurvivingEntry(signed: bool, r: Resource)
    requires ResourceSurvives(signed, r)
    ensures EntrySurvives(signed, r.id, ResourcePayload(r))
  {
  }

  // ---------------------------------------------------------------- objects

  /** The instances, but for the last one, are announced with their own length. */
  predicate InstanceLengthsSurvive(signed: bool, os: seq<Binding<Instance>>) {
    forall k :: 0 <= k < |os| - 1 ==> LengthSurvives(signed, |InstanceBytes(os[k].value.resources)|)
  }

  /** Instances as the object defines them, whose own lists have no nested length cut but at their ends. */
  predicate InstancesTyped(signed: bool, def: seq<ResourceDef>, os: seq<Binding<Instance>>) {
    forall k :: 0 <= k < |os| ==>
      ResourcesTyped(def, os[k].value.resources) && MultipleLengthsSurvive(signed, os[k].value.resources)
  }

  lemma InstancesFitSplit(signed: bool, def: seq<ResourceDef>, os: seq<Binding<Instance>>)
    requires os != []
    ensures InstancesFit(signed, def, os) <==>
            InstanceFits(signed, def, os[0].value) && InstancesFit(signed, def, os[1..])
  {
    if InstanceFits(signed, def, os[0].value) && InstancesFit(signed, def, os[1..]) {
      forall k | 0 <= k < |os| ensures InstanceFits(signed, def, os[k].value) {
        if k > 0 {
          assert os[1..][k - 1] == os[k];
        }
      }
    }
  }

  /** An object that is read back has its first instance, and the others, read back. */
  lemma FirstInstance(
      signed: bool, def: seq<ResourceDef>, os: seq<Binding<Instance>>, buf: seq<byte>, at: nat, end: nat)
    returns (h: Header, next: nat)
    requires os != [] && at < end
    requires ParseObject(signed, def, buf, at, end) == Ok(CrossInstances(os))
    ensures DecodeHeader(signed, buf, at) == Ok((h, next)) && h.length >= 0 && h.id == os[0].value.id
    ensures ParseInstance(signed, def, buf, next, next + h.length) == Ok(CrossResources(os[0].value.resources))
    ensures ParseObject(signed, def, buf, next + h.length, end) == Ok(CrossInstances(os[1..]))
  {
    hide DecodeHeader, ParseInstance;
    var found := DecodeHeader(signed, buf, at).value;
    h, next := found.0, found.1;
    var i := os[0].value;
    var resources := ParseInstance(signed, def, buf, next, next + h.length).value;
    var rest := ParseObject(signed, def, buf, next + h.length, end).value;
    LastDiffers(rest, Binding(h.id, Instance(h.id, resources)),
                CrossInstances(os[1..]), Binding(i.id, i.(resources := CrossResources(i.resources))));
  }

  /** Of an object that is read back the first instance's own entry survives. */
  lemma FirstEntrySurvives(
      signed: bool, def: seq<ResourceDef>, os: seq<Binding<Instance>>, buf: seq<byte>, at: nat)
    requires os != [] && InstanceLengthsSurvive(signed, os) && Holds(buf, at, ObjectBytes(os))
    ensures ParseObject(signed, def, buf, at, at + |ObjectBytes(os)|) == Ok(CrossInstances(os)) ==>
              EntrySurvives(signed, os[0].value.id, InstanceBytes(os[0].value.resources))
  {
    hide DecodeHeader, EntryBytes, Holds, ParseInstance, ParseObject, IdSurvives, LengthSurvives, InstanceBytes;
    var i, rest, end := os[0].value, ObjectBytes(os[1..]), at + |ObjectBytes(os)|;
    var payload := InstanceBytes(i.resources);
    EntryNonEmpty(i.id, OBJECT_INSTANCE_TYPE, payload);
    if ParseObject(signed, def, buf, at, end) != Ok(CrossInstances(os)) {
      return;
    }
    var h, next := FirstInstance(signed, def, os, buf, at, end);
    if LengthSurvives(signed, |payload|) {
      var read, from := LengthKept(signed, i.id, OBJECT_INSTANCE_TYPE, payload, rest, buf, at);
    } else {
      UnreadEntry(signed, i.id, OBJECT_INSTANCE_TYPE, payload, rest, buf, at);
      HoldsSplit(buf, at, EntryBytes(i.id, OBJECT_INSTANCE_TYPE, payload), rest);
      HeaderOfEntry(signed, i.id, OBJECT_INSTANCE_TYPE, payload, buf, at);
      LeftoverRead(signed, def, buf, next + h.length, end);
    }
  }

  /**
   * The nested round trip, exactly: unless an instance before the last one, or a multiple
   * resource before the last one of its instance, has its length cut, a printed object is read
   * back if and only if every id and every length survives, at all three levels.
   */
  lemma {:induction false} ObjectExact(
      signed: bool, def: seq<ResourceDef>, os: seq<Binding<Instance>>, buf: seq<byte>, at: nat)
    requires IndexedDefinitions(def) && InstancesTyped(signed, def, os) && InstanceLengthsSurvive(signed, os)
    requires Holds(buf, at, ObjectBytes(os))
    ensures ParseObject(signed, def, buf, at, at + |ObjectBytes(os)|) == Ok(CrossInstances(os))
            <==> InstancesFit(signed, def, os)
  {
    hide DecodeHeader, EntryBytes, EntrySurvives, Holds, ParseInstance, ParseObject, InstanceBytes, ResourcesTyped,
         ResourcesSurvive, MultipleLengthsSurvive, IndexedDefinitions;
    if InstancesFit(signed, def, os) {
      ObjectRoundTrip(signed, def, os, buf, at);
    } else if ParseObject(signed, def, buf, at, at + |ObjectBytes(os)|) == Ok(CrossInstances(os)) {
      var i, rest, end := os[0].value, ObjectBytes(os[1..]), at + |ObjectBytes(os)|;
      var payload := InstanceBytes(i.resources);
      FirstEntrySurvives(signed, def, os, buf, at);
      EntryNonEmpty(i.id, OBJECT_INSTANCE_TYPE, payload);
      var next := EntryReadsBack(signed, i.id, OBJECT_INSTANCE_TYPE, payload, rest, buf, at);
      var h, from := FirstInstance(signed, def, os, buf, at, end);
      InstanceExact(signed, def, i.resources, buf, next);
      ObjectExact(signed, def, os[1..], buf, next + |payload|);
      InstancesFitSplit(signed, def, os);
    }
  }

  /**
   * One instance on its own, exactly: the object is read back if and only if the instance's own
   * id and length survive and its resources do. A length cut short leaves bytes behind that are
   * taken for further instances.
   */
  lemma SingleInstanceExact(
      signed: bool, def: seq<ResourceDef>, i: Instance, key: int, buf: seq<byte>, at: nat)
    requires ResourcesTyped(def, i.resources)
    requires ResourcesSurvive(signed, i.resources) ||
             (IndexedDefinitions(def) && MultipleLengthsSurvive(signed, i.resources))
    requires Holds(buf, at, ObjectBytes([Binding(key, i)]))
    ensures var os := [Binding(key, i)];
      ParseObject(signed, def, buf, at, at + |ObjectBytes(os)|) == Ok(CrossInstances(os))
      <==> EntrySurvives(signed, i.id, InstanceBytes(i.resources)) && ResourcesSurvive(signed, i.resources)
  {
    hide DecodeHeader, EntryBytes, EntrySurvives, Holds, ResourcesTyped, ResourcesSurvive, InstanceBytes, ParseObject;
    var os := [Binding(key, i)];
    assert InstancesFit(signed, def, os) <==> InstanceFits(signed, def, os[0].value);
    if ResourcesSurvive(signed, i.resources) {
      if InstancesFit(signed, def, os) {
        ObjectRoundTrip(signed, def, os, buf, at);
      } else if ParseObject(signed, def, buf, at, at + |ObjectBytes(os)|) == Ok(CrossInstances(os)) {
        FirstEntrySurvives(signed, def, os, buf, at);
      }
    } else {
      ObjectExact(signed, def, os, buf, at);
    }
  }
}
