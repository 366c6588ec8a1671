/**
 * Why a nested length that is cut before the end of its list has no exact condition of this kind:
 * a tree of three instances, the first too long for its header, and an instance of three
 * resources, the first multiple and too long, whose leftover bytes happen to be read as just the
 * other two.
 */
module TlvLeftover {
  import opened Wrappers
  import opened Bits
  import opened Lists
  import opened TlvHeader
  import opened TlvValues
  import opened TlvTree
  import opened TlvExactness

  const DEFINITIONS := [ResourceDef(0, OPAQUE, false), ResourceDef(1, STRING, false)]

  /** Opaque data that starts like an instance with the id 7 and one text, and runs on with zeros. */
  function Data(): (data: seq<byte>)
    ensures |data| == 254
  {
    [16, 7, 1, 1, 208, 1, 0, 253, 120, 0] + seq(244, _ => 0)
  }

  function Opaque(): Resource {
    Resource(0, OPAQUE, false, Some(OpaqueValue(Data())), [])
  }

  function Text(): Resource {
    Resource(1, STRING, false, Some(StringValue([120])), [])
  }

  function Tree(): seq<Binding<Instance>> {
    [Binding(0, Instance(0, [Binding(0, Opaque())])),
     Binding(254, Instance(254, [])),
     Binding(7, Instance(7, [Binding(1, Text())]))]
  }

  function Printed(): seq<byte> {
    [16, 0, 0, 1] + ([200, 0, 254] + Data()) + [0, 254] + [3, 7, 193, 1, 120]
  }

  lemma TreeIsPrinted()
    ensures ObjectBytes(Tree()) == Printed()
  {
    var os := Tree();
    var a, b, c := os[0].value, os[1].value, os[2].value;
    hide Data;
    assert a.resources[1..] == [] && c.resources[1..] == [];
    assert EntryBytes(0, RESOURCE_TYPE, Data()) == [200, 0, 254] + Data();
    assert InstanceBytes(a.resources) == [200, 0, 254] + Data();
    assert EntryBytes(1, RESOURCE_TYPE, [120]) == [193, 1, 120];
    assert InstanceBytes(c.resources) == [193, 1, 120];
    assert EntryBytes(0, OBJECT_INSTANCE_TYPE, InstanceBytes(a.resources)) == [16, 0, 0, 1] + ([200, 0, 254] + Data());
    assert EntryBytes(254, OBJECT_INSTANCE_TYPE, InstanceBytes(b.resources)) == [0, 254];
    assert EntryBytes(7, OBJECT_INSTANCE_TYPE, InstanceBytes(c.resources)) == [3, 7, 193, 1, 120];
    assert os[1..][1..][1..] == [] && os[1..][1..][0] == os[2] && os[1..][0] == os[1];
    assert ObjectBytes(os[1..][1..]) == [3, 7, 193, 1, 120];
    assert ObjectBytes(os[1..]) == [0, 254] + [3, 7, 193, 1, 120];
  }

  /** The headers that the parser meets, and the two values it reads. */
  lemma HeadersMet(buf: seq<byte>)
    requires buf == Printed()
    ensures |buf| == 268
    ensures DecodeHeader(false, buf, 0) == Ok((Header(0, 1, 0), 4))
    ensures DecodeHeader(false, buf, 4) == Ok((Header(192, 254, 0), 7))
    ensures DecodeHeader(false, buf, 5) == Ok((Header(0, 0, 254), 7))
    ensures DecodeHeader(false, buf, 7) == Ok((Header(0, 257, 7), 11))
    ensures DecodeHeader(false, buf, 11) == Ok((Header(192, 253, 1), 15))
    ensures buf[7..261] == Data() && buf[15] == 120 && buf[16] == 0
  {
  }

  lemma TextMet(buf: seq<byte>)
    requires buf == Printed()
    ensures DecodeValue(buf, 15, 253, STRING) == Ok(Some(StringValue([120])))
  {
    HeadersMet(buf);
    hide Printed, DecodeHeader;
    var text := buf[15..268];
    assert text[0] == 120 && text[1..][0] == 0;
    assert UntilNul(text[1..]) == [] && UntilNul(text) == [120];
  }

  /** One round of the instance parser. */
  lemma InstanceStep(buf: seq<byte>, curr: nat, end: nat, h: Header, at: nat, r: Resource)
    requires curr < end <= at + h.length && h.length >= 0 && DecodeHeader(false, buf, curr) == Ok((h, at))
    requires ParseResource(false, DEFINITIONS, buf, h, at) == Ok(r)
    ensures ParseInstance(false, DEFINITIONS, buf, curr, end) == Ok([Binding(r.id, r)])
  {
    hide DecodeHeader, ParseResource;
    assert ParseInstance(false, DEFINITIONS, buf, at + h.length, end) == Ok([]);
    assert [] + [Binding(r.id, r)] == [Binding(r.id, r)];
  }

  /** One round of the object parser. */
  lemma ObjectStep(buf: seq<byte>, curr: nat, end: nat, h: Header, at: nat, rs: seq<Binding<Resource>>,
                   rest: seq<Binding<Instance>>)
    requires curr < end && h.length >= 0 && DecodeHeader(false, buf, curr) == Ok((h, at)) && at > curr
    requires ParseInstance(false, DEFINITIONS, buf, at, at + h.length) == Ok(rs)
    requires ParseObject(false, DEFINITIONS, buf, at + h.length, end) == Ok(rest)
    ensures ParseObject(false, DEFINITIONS, buf, curr, end) == Ok(rest + [Binding(h.id, Instance(h.id, rs))])
  {
    hide DecodeHeader, ParseInstance;
  }

  lemma InstancesMet(buf: seq<byte>)
    requires buf == Printed()
    ensures ParseInstance(false, DEFINITIONS, buf, 4, 5) == Ok([Binding(0, Opaque())])
    ensures ParseInstance(false, DEFINITIONS, buf, 7, 7) == Ok([])
    ensures ParseInstance(false, DEFINITIONS, buf, 11, 268) == Ok([Binding(1, Text())])
  {
    HeadersMet(buf);
    TextMet(buf);
    assert DecodeValue(buf, 7, 254, OPAQUE) == Ok(Some(OpaqueValue(Data())));
    hide DecodeHeader, DecodeValue, Data, Printed, ParseInstance;
    InstanceStep(buf, 4, 5, Header(192, 254, 0), 7, Opaque());
    InstanceStep(buf, 11, 268, Header(192, 253, 1), 15, Text());
    NothingParsed(buf, 7, 7);
  }

  lemma NothingParsed(buf: seq<byte>, curr: nat, end: nat)
    requires end <= curr
    ensures ParseInstance(false, DEFINITIONS, buf, curr, end) == Ok([])
    ensures ParseObject(false, DEFINITIONS, buf, curr, end) == Ok([])
  {
  }

  lemma ObjectMet(buf: seq<byte>)
    requires buf == Printed()
    ensures ParseObject(false, DEFINITIONS, buf, 0, 268) == Ok([Tree()[2], Tree()[1], Tree()[0]])
  {
    HeadersMet(buf);
    InstancesMet(buf);
    NothingParsed(buf, 268, 268);
    hide DecodeHeader, ParseInstance, ParseObject, Data, Printed, Opaque, Text;
    var a, b, c := Tree()[0], Tree()[1], Tree()[2];
    var none: seq<Binding<Instance>> := [];
    assert c == Binding(7, Instance(7, [Binding(1, Text())])) && b == Binding(254, Instance(254, []));
    assert a == Binding(0, Instance(0, [Binding(0, Opaque())]));
    hide Tree;
    assert none + [c] == [c] && [c] + [b] == [c, b] && [c, b] + [a] == [c, b, a];
    ObjectStep(buf, 7, 268, Header(0, 257, 7), 11, [Binding(1, Text())], none);
    ObjectStep(buf, 5, 268, Header(0, 0, 254), 7, [], [c]);
    ObjectStep(buf, 0, 268, Header(0, 1, 0), 4, [Binding(0, Opaque())], [c, b]);
  }

  lemma TreeCrosses()
    ensures CrossInstances(Tree()) == [Tree()[2], Tree()[1], Tree()[0]]
  {
    hide Data;
    var os := Tree();
    var a, c := os[0].value, os[2].value;
    assert a.resources[1..] == [] && c.resources[1..] == [];
    assert CrossResource(Opaque()) == Opaque() && CrossResource(Text()) == Text();
    assert CrossResources(a.resources) == a.resources && CrossResources(c.resources) == c.resources;
    assert CrossResources([]) == [];
    hide CrossResources;
    assert os[1..][1..][1..] == [] && os[1..][1..][0] == os[2] && os[1..][0] == os[1];
    assert CrossInstances(os[1..][1..]) == [os[2]];
    assert CrossInstances(os[1..]) == [os[2], os[1]];
  }

  /** The tree does not fit its headers, and is read back all the same. */
  lemma LeftoverBytesCanMatch()
    ensures !InstancesFit(false, DEFINITIONS, Tree())
    ensures var bytes := ObjectBytes(Tree());
      ParseObject(false, DEFINITIONS, bytes, 0, |bytes|) == Ok(CrossInstances(Tree()))
  {
    TreeIsPrinted();
    HeadersMet(Printed());
    ObjectMet(Printed());
    TreeCrosses();
    DoesNotFit();
    hide ObjectBytes, ParseObject, CrossInstances, Printed, Tree, InstancesFit;
  }

  lemma DoesNotFit()
    ensures !InstancesFit(false, DEFINITIONS, Tree())
  {
    hide Data;
    var a := Tree()[0].value;
    assert a.resources[1..] == [];
    assert |InstanceBytes(a.resources)| == 257;
    assert !InstanceFits(false, DEFINITIONS, a);
  }

  // ---------------------------------------------------------------- within an instance

  /** Resource 0 is multiple, resource 7 a text, all others opaque. */
  function Definitions(): (def: seq<ResourceDef>)
    ensures |def| == 255 && IndexedDefinitions(def)
    ensures def[0] == ResourceDef(0, OPAQUE, true) && def[7] == ResourceDef(7, STRING, false)
    ensures def[254] == ResourceDef(254, OPAQUE, false)
  {
    seq(255, i => ResourceDef(i, if i == 7 then STRING else OPAQUE, i == 0))
  }

  /** Opaque data that starts like a resource with the id 7 and a text, and runs on with zeros. */
  function Inner(): (data: seq<byte>)
    ensures |data| == 254
  {
    [16, 7, 0, 255, 120, 0] + seq(248, _ => 0)
  }

  function Multiple(): Resource {
    Resource(0, OPAQUE, true, None, [Binding(0, Leaf(0, OPAQUE, Some(OpaqueValue(Inner()))))])
  }

  function Resources(): seq<Binding<Resource>> {
    [Binding(0, Multiple()),
     Binding(254, Resource(254, OPAQUE, false, Some(OpaqueValue([])), [])),
     Binding(7, Resource(7, STRING, false, Some(StringValue([120])), []))]
  }

  function PrintedResources(): seq<byte> {
    [144, 0, 0, 1] + ([72, 0, 254] + Inner()) + [192, 254] + [193, 7, 120]
  }

  lemma ResourcesArePrinted()
    ensures InstanceBytes(Resources()) == PrintedResources()
    ensures |ResourcePayload(Multiple())| == 257
  {
    var rs := Resources();
    var a, b, c := rs[0].value, rs[1].value, rs[2].value;
    hide Inner;
    assert a.instances[1..] == [];
    assert EntryBytes(0, RESOURCE_INSTANCE_TYPE, Inner()) == [72, 0, 254] + Inner();
    assert ResourcePayload(a) == [72, 0, 254] + Inner();
    assert EntryBytes(0, MULTIPLE_RESOURCE_TYPE, ResourcePayload(a)) == [144, 0, 0, 1] + ([72, 0, 254] + Inner());
    assert EntryBytes(254, RESOURCE_TYPE, []) == [192, 254];
    assert EntryBytes(7, RESOURCE_TYPE, [120]) == [193, 7, 120];
    assert rs[1..][1..][1..] == [] && rs[1..][1..][0] == rs[2] && rs[1..][0] == rs[1];
    assert InstanceBytes(rs[1..][1..]) == [193, 7, 120];
    assert InstanceBytes(rs[1..]) == [192, 254] + [193, 7, 120];
  }

  lemma ResourceHeadersMet(buf: seq<byte>)
    requires buf == PrintedResources()
    ensures |buf| == 266
    ensures DecodeHeader(false, buf, 0) == Ok((Header(128, 1, 0), 4))
    ensures DecodeHeader(false, buf, 4) == Ok((Header(64, 254, 0), 7))
    ensures DecodeHeader(false, buf, 5) == Ok((Header(0, 0, 254), 7))
    ensures DecodeHeader(false, buf, 7) == Ok((Header(0, 255, 7), 11))
    ensures buf[7..261] == Inner() && buf[11] == 120 && buf[12] == 0
  {
  }

  lemma ValuesMet(buf: seq<byte>)
    requires buf == PrintedResources()
    ensures DecodeValue(buf, 7, 254, OPAQUE) == Ok(Some(OpaqueValue(Inner())))
    ensures DecodeValue(buf, 7, 0, OPAQUE) == Ok(Some(OpaqueValue([])))
    ensures DecodeValue(buf, 11, 255, STRING) == Ok(Some(StringValue([120])))
  {
    ResourceHeadersMet(buf);
    hide PrintedResources, DecodeHeader;
    var text := buf[11..266];
    assert text[0] == 120 && text[1..][0] == 0;
    assert UntilNul(text[1..]) == [] && UntilNul(text) == [120];
    assert buf[7..7] == [];
  }

  /** The one entry that the multiple resource is taken to have reaches over its announced end. */
  lemma LeavesMet(buf: seq<byte>)
    requires buf == PrintedResources()
    ensures ParseLeaves(false, Definitions()[0], buf, 4, 5) == Ok(Multiple().instances)
  {
    ResourceHeadersMet(buf);
    ValuesMet(buf);
    hide PrintedResources, DecodeHeader, DecodeValue, Inner;
    var none: seq<Binding<Leaf>> := [];
    assert ParseLeaves(false, Definitions()[0], buf, 261, 5) == Ok(none);
    assert none + Multiple().instances == Multiple().instances;
  }

  /** One round of the instance parser, with more to come. */
  lemma ResourceStep(buf: seq<byte>, curr: nat, end: nat, h: Header, at: nat, r: Resource, rest: seq<Binding<Resource>>)
    requires curr < end && h.length >= 0 && DecodeHeader(false, buf, curr) == Ok((h, at)) && at > curr
    requires ParseResource(false, Definitions(), buf, h, at) == Ok(r)
    requires ParseInstance(false, Definitions(), buf, at + h.length, end) == Ok(rest)
    ensures ParseInstance(false, Definitions(), buf, curr, end) == Ok(rest + [Binding(r.id, r)])
  {
    hide DecodeHeader, ParseResource, Definitions;
  }

  lemma ResourcesMet(buf: seq<byte>)
    requires buf == PrintedResources()
    ensures ParseInstance(false, Definitions(), buf, 0, 266) == Ok([Resources()[2], Resources()[1], Resources()[0]])
  {
    ResourceHeadersMet(buf);
    ValuesMet(buf);
    LeavesMet(buf);
    var a, b, c := Resources()[0], Resources()[1], Resources()[2];
    var none: seq<Binding<Resource>> := [];
    hide DecodeHeader, DecodeValue, ParseLeaves, ParseInstance, Inner, PrintedResources, Definitions;
    assert ParseInstance(false, Definitions(), buf, 266, 266) == Ok(none) by {
      NoneParsed(Definitions(), buf, 266);
    }
    assert none + [c] == [c] && [c] + [b] == [c, b] && [c, b] + [a] == [c, b, a];
    ResourceStep(buf, 7, 266, Header(0, 255, 7), 11, c.value, none);
    ResourceStep(buf, 5, 266, Header(0, 0, 254), 7, b.value, [c]);
    ResourceStep(buf, 0, 266, Header(128, 1, 0), 4, a.value, [c, b]);
  }

  lemma NoneParsed(def: seq<ResourceDef>, buf: seq<byte>, at: nat)
    ensures ParseInstance(false, def, buf, at, at) == Ok([])
  {
  }

  lemma ResourcesCross()
    ensures CrossResources(Resources()) == [Resources()[2], Resources()[1], Resources()[0]]
  {
    hide Inner;
    var rs := Resources();
    assert rs[0].value.instances[1..] == [];
    assert forall i :: 0 <= i < 3 ==> CrossResource(rs[i].value) == rs[i].value;
    hide CrossResource;
    assert rs[1..][1..][1..] == [] && rs[1..][1..][0] == rs[2] && rs[1..][0] == rs[1];
    assert CrossResources(rs[1..][1..]) == [rs[2]];
    assert CrossResources(rs[1..]) == [rs[2], rs[1]];
  }

  lemma ResourcesDoNotSurvive()
    ensures ResourcesTyped(Definitions(), Resources()) && !ResourcesSurvive(false, Resources())
  {
    ResourcesArePrinted();
    hide Inner, Definitions, ResourcePayload, LeavesSurvive;
    var rs, def := Resources(), Definitions();
    assert ResourceTyped(def, rs[0].value) && ResourceTyped(def, rs[1].value) && ResourceTyped(def, rs[2].value);
    assert !ResourceSurvives(false, rs[0].value);
  }

  /**
   * The same within an instance: a multiple resource, not the last one, is too long for its
   * header, and the instance is read back all the same.
   */
  lemma NestedLeftoverCanMatch()
    ensures ResourcesTyped(Definitions(), Resources()) && !ResourcesSurvive(false, Resources())
    ensures var bytes := InstanceBytes(Resources());
      ParseInstance(false, Definitions(), bytes, 0, |bytes|) == Ok(CrossResources(Resources()))
  {
    ResourcesArePrinted();
    ResourceHeadersMet(PrintedResources());
    ResourcesMet(PrintedResources());
    ResourcesCross();
    ResourcesDoNotSurvive();
    hide *;
  }
}
