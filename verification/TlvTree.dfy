/**
 * The nested TLV format: an object is a list of instances, an instance a list of resources,
 * a multiple resource a list of resource instances, each entry a header and a payload.
 *
 * The printer functions give the bytes of each level. The parser functions read a list that
 * occupies positions `curr..end` of a buffer; like the pointers they stand for, nested reads
 * are bounded by the buffer and not by the enclosing entry. Parsing prepends every entry it
 * meets, so each list comes out reversed.
 */
module TlvTree {
  import opened Wrappers
  import opened Bits
  import opened Lists
  import opened TlvHeader
  import opened TlvValues

  datatype Leaf = Leaf(id: int, rtype: ValueType, value: Option<Value>)

  datatype Resource = Resource(
    id: int, rtype: ValueType, multiple: bool, value: Option<Value>, instances: seq<Binding<Leaf>>)

  datatype Instance = Instance(id: int, resources: seq<Binding<Resource>>)

  datatype ResourceDef = ResourceDef(id: int, rtype: ValueType, multiple: bool)

  // ---------------------------------------------------------------- printer

  function EntryBytes(id: int, code: int, payload: seq<byte>): seq<byte>
    requires IsType(code)
  {
    HeaderBytes(id, code, |payload|) + payload
  }

  function LeavesBytes(xs: seq<Binding<Leaf>>): seq<byte> {
    if xs == [] then []
    else
      var x := xs[0].value;
      EntryBytes(x.id, RESOURCE_INSTANCE_TYPE, OptionalBytes(x.value)) + LeavesBytes(xs[1..])
  }

  function ResourcePayload(r: Resource): seq<byte> {
    if r.multiple then LeavesBytes(r.instances) else OptionalBytes(r.value)
  }

  function ResourceCode(r: Resource): (code: byte)
    ensures IsType(code)
  {
    if r.multiple then MULTIPLE_RESOURCE_TYPE else RESOURCE_TYPE
  }

  function InstanceBytes(rs: seq<Binding<Resource>>): seq<byte> {
    if rs == [] then []
    else
      var r := rs[0].value;
      EntryBytes(r.id, ResourceCode(r), ResourcePayload(r)) + InstanceBytes(rs[1..])
  }

  function ObjectBytes(os: seq<Binding<Instance>>): seq<byte> {
    if os == [] then []
    else
      var i := os[0].value;
      EntryBytes(i.id, OBJECT_INSTANCE_TYPE, InstanceBytes(i.resources)) + ObjectBytes(os[1..])
  }

  // ---------------------------------------------------------------- parser

  function ParseLeaves(signed: bool, d: ResourceDef, buf: seq<byte>, curr: nat, end: nat)
    : Result<seq<Binding<Leaf>>, ParseError>
    decreases end - curr
  {
    if curr >= end then Ok([])
    else
      var (h, at) :- DecodeHeader(signed, buf, curr);
      if h.length < 0 then Err(NegativeLength)
      else
        var value :- DecodeValue(buf, at, h.length, d.rtype);
        var rest :- ParseLeaves(signed, d, buf, at + h.length, end);
        Ok(rest + [Binding(h.id, Leaf(h.id, d.rtype, value))])
  }

  /** The entry of one resource whose header `h` has been read; its payload starts at `at`. */
  function ParseResource(signed: bool, def: seq<ResourceDef>, buf: seq<byte>, h: Header, at: nat)
    : Result<Resource, ParseError>
    requires h.length >= 0
  {
    if !(0 <= h.id < |def|) then Err(NoSuchDefinition)
    else
      var d := def[h.id];
      if h.code == MULTIPLE_RESOURCE_TYPE then
        if !(0 <= d.id < |def|) then Err(NoSuchDefinition)
        else
          var leaves :- ParseLeaves(signed, def[d.id], buf, at, at + h.length);
          Ok(Resource(d.id, d.rtype, true, None, leaves))
      else
        var value :- DecodeValue(buf, at, h.length, d.rtype);
        Ok(Resource(d.id, d.rtype, d.multiple, value, []))
  }

  /**
   * The type in the header decides how an entry is read, and the definition of its id what it is:
   * an entry of the multiple type becomes a multiple resource whatever its definition says, any
   * other a single value; an id without a definition stops the parser.
   */
  lemma TypeInHeaderDecides(signed: bool, def: seq<ResourceDef>, buf: seq<byte>, h: Header, at: nat)
    requires h.length >= 0
    ensures var r := ParseResource(signed, def, buf, h, at);
      && (!(0 <= h.id < |def|) ==> r == Err(NoSuchDefinition))
      && (r.Ok? ==>
            && r.value.id == def[h.id].id && r.value.rtype == def[h.id].rtype
            && r.value.multiple == (h.code == 128 || def[h.id].multiple)
            && (h.code == 128 ==> r.value.value == None)
            && (h.code != 128 ==>
                  r.value.instances == [] && DecodeValue(buf, at, h.length, r.value.rtype) == Ok(r.value.value)))
      && (0 <= h.id < |def| && h.code != 128 ==>
            (r.Ok? <==> DecodeValue(buf, at, h.length, def[h.id].rtype).Ok?))
  {
    hide DecodeValue, ParseLeaves;
  }

  function ParseInstance(signed: bool, def: seq<ResourceDef>, buf: seq<byte>, curr: nat, end: nat)
    : Result<seq<Binding<Resource>>, ParseError>
    decreases end - curr
  {
    if curr >= end then Ok([])
    else
      var (h, at) :- DecodeHeader(signed, buf, curr);
      if h.length < 0 then Err(NegativeLength)
      else
        var resource :- ParseResource(signed, def, buf, h, at);
        var rest :- ParseInstance(signed, def, buf, at + h.length, end);
        Ok(rest + [Binding(resource.id, resource)])
  }

  function ParseObject(signed: bool, def: seq<ResourceDef>, buf: seq<byte>, curr: nat, end: nat)
    : Result<seq<Binding<Instance>>, ParseError>
    decreases end - curr
  {
    if curr >= end then Ok([])
    else
      var (h, at) :- DecodeHeader(signed, buf, curr);
      if h.length < 0 then Err(NegativeLength)
      else
        var resources :- ParseInstance(signed, def, buf, at, at + h.length);
        var rest :- ParseObject(signed, def, buf, at + h.length, end);
        Ok(rest + [Binding(h.id, Instance(h.id, resources))])
  }

  /**
   * Entries within a multiple resource and at the top are read alike whatever type their headers
   * announce: here those with a length below 8, and the ids that are one byte below 128.
   */
  lemma TypeIsIgnored(signed: bool, d: ResourceDef, def: seq<ResourceDef>, buf: seq<byte>, at: nat, code: byte,
                      n: byte, id: byte, end: nat)
    requires code in {0, 64, 128, 192} && n < 8 && id < 128
    requires at < end && at + 2 <= |buf| && buf[at] == code + n && buf[at + 1] == id
    ensures ParseLeaves(signed, d, buf, at, end) ==
            var value := DecodeValue(buf, at + 2, n as int, d.rtype);
            var rest := ParseLeaves(signed, d, buf, at + 2 + n as int, end);
            if value.Err? then Err(value.error) else if rest.Err? then rest
            else Ok(rest.value + [Binding(id as int, Leaf(id as int, d.rtype, value.value))])
    ensures ParseObject(signed, def, buf, at, end) ==
            var resources := ParseInstance(signed, def, buf, at + 2, at + 2 + n as int);
            var rest := ParseObject(signed, def, buf, at + 2 + n as int, end);
            if resources.Err? then Err(resources.error) else if rest.Err? then rest
            else Ok(rest.value + [Binding(id as int, Instance(id as int, resources.value))])
  {
    hide DecodeHeader, DecodeValue, ParseLeaves, ParseInstance, ParseObject;
    var h := Header(code as int, n as int, id as int);
    ShortHeader(signed, buf, at, code, n);
    LeafNext(signed, d, buf, at, end, h, at + 2);
    InstanceNext(signed, def, buf, at, end, h, at + 2);
  }

  lemma ShortHeader(signed: bool, buf: seq<byte>, at: nat, code: byte, n: byte)
    requires code in {0, 64, 128, 192} && n < 8 && at + 2 <= |buf| && buf[at] == code + n && buf[at + 1] < 128
    ensures DecodeHeader(signed, buf, at) == Ok((Header(code as int, n as int, buf[at + 1] as int), at + 2))
  {
    ByteFields(code, 0, 0, n);
  }

  lemma LeafNext(signed: bool, d: ResourceDef, buf: seq<byte>, curr: nat, end: nat, h: Header, at: nat)
    requires curr < end && h.length >= 0 && at > curr && DecodeHeader(signed, buf, curr) == Ok((h, at))
    ensures ParseLeaves(signed, d, buf, curr, end) ==
            var value := DecodeValue(buf, at, h.length, d.rtype);
            var rest := ParseLeaves(signed, d, buf, at + h.length, end);
            if value.Err? then Err(value.error) else if rest.Err? then rest
            else Ok(rest.value + [Binding(h.id, Leaf(h.id, d.rtype, value.value))])
  {
    hide DecodeHeader, DecodeValue;
  }

  lemma InstanceNext(signed: bool, def: seq<ResourceDef>, buf: seq<byte>, curr: nat, end: nat, h: Header, at: nat)
    requires curr < end && h.length >= 0 && at > curr && DecodeHeader(signed, buf, curr) == Ok((h, at))
    ensures ParseObject(signed, def, buf, curr, end) ==
            var resources := ParseInstance(signed, def, buf, at, at + h.length);
            var rest := ParseObject(signed, def, buf, at + h.length, end);
            if resources.Err? then Err(resources.error) else if rest.Err? then rest
            else Ok(rest.value + [Binding(h.id, Instance(h.id, resources.value))])
  {
    hide DecodeHeader, ParseInstance;
  }

  // ---------------------------------------------------------------- what a crossing yields

  function CrossLeaf(x: Leaf): Leaf {
    x.(value := TransitOptional(x.value, x.rtype))
  }

  function CrossLeaves(xs: seq<Binding<Leaf>>): seq<Binding<Leaf>> {
    if xs == [] then []
    else CrossLeaves(xs[1..]) + [Binding(xs[0].value.id, CrossLeaf(xs[0].value))]
  }

  function CrossResource(r: Resource): Resource {
    if r.multiple then r.(value := None, instances := CrossLeaves(r.instances))
    else r.(value := TransitOptional(r.value, r.rtype), instances := [])
  }

  function CrossResources(rs: seq<Binding<Resource>>): seq<Binding<Resource>> {
    if rs == [] then []
    else CrossResources(rs[1..]) + [Binding(rs[0].value.id, CrossResource(rs[0].value))]
  }

  function CrossInstances(os: seq<Binding<Instance>>): seq<Binding<Instance>> {
    if os == [] then []
    else
      CrossInstances(os[1..]) +
      [Binding(os[0].value.id, os[0].value.(resources := CrossResources(os[0].value.resources)))]
  }

  // ---------------------------------------------------------------- domains

  predicate EntrySurvives(signed: bool, id: int, payload: seq<byte>) {
    IdSurvives(signed, id) && LengthSurvives(signed, |payload|)
  }

  predicate LeafSurvives(signed: bool, x: Leaf) {
    EntrySurvives(signed, x.id, OptionalBytes(x.value))
  }

  predicate LeavesSurvive(signed: bool, xs: seq<Binding<Leaf>>) {
    forall i :: 0 <= i < |xs| ==> LeafSurvives(signed, xs[i].value)
  }

  predicate LeavesTyped(d: ResourceDef, xs: seq<Binding<Leaf>>) {
    forall i :: 0 <= i < |xs| ==> xs[i].value.rtype == d.rtype && Printable(xs[i].value.value, d.rtype)
  }

  /** A resource as the object defines it, with values of its type. */
  predicate ResourceTyped(def: seq<ResourceDef>, r: Resource) {
    && 0 <= r.id < |def|
    && def[r.id] == ResourceDef(r.id, r.rtype, r.multiple)
    && (if r.multiple then LeavesTyped(def[r.id], r.instances) else Printable(r.value, r.rtype))
  }

  predicate ResourcesTyped(def: seq<ResourceDef>, rs: seq<Binding<Resource>>) {
    forall i :: 0 <= i < |rs| ==> ResourceTyped(def, rs[i].value)
  }

  predicate ResourceSurvives(signed: bool, r: Resource) {
    && EntrySurvives(signed, r.id, ResourcePayload(r))
    && (r.multiple ==> LeavesSurvive(signed, r.instances))
  }

  predicate ResourcesSurvive(signed: bool, rs: seq<Binding<Resource>>) {
    forall i :: 0 <= i < |rs| ==> ResourceSurvives(signed, rs[i].value)
  }

  predicate InstanceFits(signed: bool, def: seq<ResourceDef>, i: Instance) {
    && EntrySurvives(signed, i.id, InstanceBytes(i.resources))
    && ResourcesTyped(def, i.resources)
    && ResourcesSurvive(signed, i.resources)
  }

  predicate InstancesFit(signed: bool, def: seq<ResourceDef>, os: seq<Binding<Instance>>) {
    forall k :: 0 <= k < |os| ==> InstanceFits(signed, def, os[k].value)
  }

  // ---------------------------------------------------------------- round trips

  /** The bytes `bs` stand at position `at` of the buffer. */
  predicate Holds(buf: seq<byte>, at: nat, bs: seq<byte>) {
    at + |bs| <= |buf| && buf[at..at + |bs|] == bs
  }

  lemma HoldsSplit(buf: seq<byte>, at: nat, a: seq<byte>, b: seq<byte>)
    requires Holds(buf, at, a + b)
    ensures Holds(buf, at, a) && Holds(buf, at + |a|, b)
  {
    var s := buf[at..at + |a + b|];
    assert s[..|a|] == a && s[|a|..] == b;
  }

  lemma HoldsSurrounded(buf: seq<byte>, at: nat, bs: seq<byte>)
    requires Holds(buf, at, bs)
    ensures buf == buf[..at] + bs + buf[at + |bs|..]
  {
  }

  /** A surviving entry is read back where it stands, and its payload follows its header. */
  lemma EntryReadsBack(
      signed: bool, id: int, code: int, payload: seq<byte>, rest: seq<byte>, buf: seq<byte>, at: nat)
    returns (next: nat)
    requires IsType(code) && Holds(buf, at, EntryBytes(id, code, payload) + rest)
    requires EntrySurvives(signed, id, payload)
    ensures DecodeHeader(signed, buf, at) == Ok((Header(code, |payload|, id), next))
    ensures Holds(buf, next, payload) && Holds(buf, next + |payload|, rest)
    ensures next + |payload| == at + |EntryBytes(id, code, payload)| > at
  {
    var h := HeaderBytes(id, code, |payload|);
    HoldsSplit(buf, at, h + payload, rest);
    HoldsSplit(buf, at, h, payload);
    HoldsSurrounded(buf, at, h);
    HeaderExactDomain(signed, id, code, |payload|, buf[..at], buf[at + |h|..]);
    next := at + |h|;
  }

  lemma ValueReadsBack(v: Option<Value>, t: ValueType, buf: seq<byte>, at: nat)
    requires Printable(v, t) && Holds(buf, at, OptionalBytes(v))
    ensures DecodeValue(buf, at, |OptionalBytes(v)|, t) == Ok(TransitOptional(v, t))
  {
    HoldsSurrounded(buf, at, OptionalBytes(v));
    ValueRoundTrip(v, t, buf[..at], buf[at + |OptionalBytes(v)|..]);
  }

  lemma {:induction false} LeavesRoundTrip(
      signed: bool, d: ResourceDef, xs: seq<Binding<Leaf>>, buf: seq<byte>, at: nat)
    requires LeavesTyped(d, xs) && LeavesSurvive(signed, xs) && Holds(buf, at, LeavesBytes(xs))
    ensures ParseLeaves(signed, d, buf, at, at + |LeavesBytes(xs)|) == Ok(CrossLeaves(xs))
  {
    hide DecodeHeader, DecodeValue, EntryBytes, EntrySurvives, Holds;
    if xs != [] {
      var x, rest := xs[0].value, LeavesBytes(xs[1..]);
      var next := EntryReadsBack(
          signed, x.id, RESOURCE_INSTANCE_TYPE, OptionalBytes(x.value), rest, buf, at);
      ValueReadsBack(x.value, d.rtype, buf, next);
      LeavesRoundTrip(signed, d, xs[1..], buf, next + |OptionalBytes(x.value)|);
    }
  }

  lemma ResourceReadsBack(signed: bool, def: seq<ResourceDef>, r: Resource, buf: seq<byte>, at: nat)
    requires ResourceTyped(def, r) && ResourceSurvives(signed, r)
    requires Holds(buf, at, ResourcePayload(r))
    ensures CrossResource(r).id == r.id
    ensures ParseResource(signed, def, buf, Header(ResourceCode(r), |ResourcePayload(r)|, r.id), at) ==
            Ok(CrossResource(r))
  {
    hide Holds, DecodeValue, EntrySurvives, ParseLeaves, CrossLeaves, LeavesBytes, OptionalBytes, LeavesSurvive,
         LeavesTyped, Printable;
    if r.multiple {
      LeavesRoundTrip(signed, def[r.id], r.instances, buf, at);
    } else {
      ValueReadsBack(r.value, r.rtype, buf, at);
    }
  }

  lemma {:induction false} InstanceRoundTrip(
      signed: bool, def: seq<ResourceDef>, rs: seq<Binding<Resource>>, buf: seq<byte>, at: nat)
    requires ResourcesTyped(def, rs) && ResourcesSurvive(signed, rs) && Holds(buf, at, InstanceBytes(rs))
    ensures ParseInstance(signed, def, buf, at, at + |InstanceBytes(rs)|) == Ok(CrossResources(rs))
  {
    hide DecodeHeader, EntryBytes, EntrySurvives, Holds, ParseResource, CrossResource, ResourcePayload, ResourceTyped;
    if rs != [] {
      var r, rest := rs[0].value, InstanceBytes(rs[1..]);
      var next := EntryReadsBack(signed, r.id, ResourceCode(r), ResourcePayload(r), rest, buf, at);
      ResourceReadsBack(signed, def, r, buf, next);
      InstanceRoundTrip(signed, def, rs[1..], buf, next + |ResourcePayload(r)|);
    }
  }

  /** The nested round trip: every list reversed, every value crossed once. */
  lemma {:induction false} ObjectRoundTrip(
      signed: bool, def: seq<ResourceDef>, os: seq<Binding<Instance>>, buf: seq<byte>, at: nat)
    requires InstancesFit(signed, def, os) && Holds(buf, at, ObjectBytes(os))
    ensures ParseObject(signed, def, buf, at, at + |ObjectBytes(os)|) == Ok(CrossInstances(os))
  {
    hide DecodeHeader, EntryBytes, EntrySurvives, Holds, ResourcesTyped, ResourcesSurvive, InstanceBytes;
    if os != [] {
      var i, rest := os[0].value, ObjectBytes(os[1..]);
      assert InstanceFits(signed, def, i);
      var next := EntryReadsBack(
          signed, i.id, OBJECT_INSTANCE_TYPE, InstanceBytes(i.resources), rest, buf, at);
      InstanceRoundTrip(signed, def, i.resources, buf, next);
      ObjectRoundTrip(signed, def, os[1..], buf, next + |InstanceBytes(i.resources)|);
    }
  }
}
