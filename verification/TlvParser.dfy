/**
 * The deserializer as it runs: a cursor walks over the buffer, reads a header, reads or
 * descends into the payload, and prepends what it made to the list.
 */
module TlvParser {
  import opened Wrappers
  import opened Bits
  import opened Lists
  import opened TlvHeader
  import opened TlvValues
  import opened TlvTree

  method ParseValue(buf: seq<byte>, at: nat, len: nat, t: ValueType)
    returns (r: Result<Option<Value>, ParseError>)
    ensures r == DecodeValue(buf, at, len, t)
  {
    match t
    case INTEGER =>
      if len > 4 { return Err(UndefinedShift); }
      if at + len > |buf| { return Err(OutOfBounds); }
      var value := ParseInt(buf[at..at + len]);
      return Ok(Some(IntValue(value)));
    case BOOLEAN =>
      if len > 4 { return Err(UndefinedShift); }
      if at + len > |buf| { return Err(OutOfBounds); }
      var value := ParseInt(buf[at..at + len]);
      return Ok(Some(BoolValue(value != 0)));
    case DOUBLE =>
      if at + 8 > |buf| { return Err(OutOfBounds); }
      if len == 4 { return Err(FloatWidth); }
      var m := buf[at..at + 8];
      var reversed := [m[7], m[6], m[5], m[4], m[3], m[2], m[1], m[0]];
      assert reversed == Reverse(m);
      return Ok(Some(DoubleValue(if len == 8 then reversed else seq(8, _ => 0))));
    case STRING =>
      if at + len > |buf| { return Err(OutOfBounds); }
      var chars := StringLength(buf[at..at + len]);
      return Ok(Some(StringValue(buf[at..at + len][..chars])));
    case OPAQUE =>
      if at + len > |buf| { return Err(OutOfBounds); }
      return Ok(Some(OpaqueValue(buf[at..at + len])));
    case LINK =>
      if at + 4 > |buf| { return Err(OutOfBounds); }
      var objectId := ParseInt(buf[at + 2..at + 4]);
      var instanceId := ParseInt(buf[at..at + 2]);
      PairFits(buf[at + 2..at + 4]);
      PairFits(buf[at..at + 2]);
      return Ok(Some(LinkValue(objectId, instanceId)));
    case NONE =>
      return Ok(None);
  }

  lemma PairFits(bs: seq<byte>)
    requires |bs| == 2
    ensures Wrap32(FromBig(bs)) == FromBig(bs)
  {
    FromBigPair(bs[0], bs[1]);
    assert bs == [bs[0], bs[1]];
  }

  /** `strlen` of the bytes with a NUL put after them. */
  method StringLength(bs: seq<byte>) returns (n: nat)
    ensures n <= |bs| && bs[..n] == UntilNul(bs)
  {
    n := 0;
    assert bs[..0] == [] && bs[0..] == bs;
    while n < |bs| && bs[n] != 0
      invariant n <= |bs|
      invariant bs[..n] + UntilNul(bs[n..]) == UntilNul(bs)
    {
      assert bs[n..][1..] == bs[n + 1..];
      n := n + 1;
    }
  }

  /** What a cursor at `curr` with `done` already read will make of a list. */
  ghost function Resumed<V>(rest: Result<seq<V>, ParseError>, done: seq<V>): Result<seq<V>, ParseError> {
    match rest
    case Ok(more) => Ok(more + done)
    case Err(e) => Err(e)
  }

  lemma ResumedDone<V>(done: seq<V>)
    ensures Resumed(Ok([]), done) == Ok(done)
  {
    assert [] + done == done;
  }

  lemma ResumedStart<V>(rest: Result<seq<V>, ParseError>)
    ensures Resumed(rest, []) == rest
  {
    if rest.Ok? {
      assert rest.value + [] == rest.value;
    }
  }

  /** Prepending the entry just read is what appending it after the rest amounts to. */
  lemma ResumedStep<V>(rest: Result<seq<V>, ParseError>, entry: V, done: seq<V>)
    ensures rest.Ok? ==> Resumed(Ok(rest.value + [entry]), done) == Resumed(rest, [entry] + done)
  {
    if rest.Ok? {
      assert (rest.value + [entry]) + done == rest.value + ([entry] + done);
    }
  }

  method ParseMultipleResource(signed: bool, d: ResourceDef, buf: seq<byte>, message: nat, messageLen: nat)
    returns (r: Result<seq<Binding<Leaf>>, ParseError>)
    ensures r == ParseLeaves(signed, d, buf, message, message + messageLen)
  {
    hide DecodeHeader, DecodeValue, Resumed;
    var resources: seq<Binding<Leaf>> := [];
    var curr, end := message, message + messageLen;
    ResumedStart(ParseLeaves(signed, d, buf, message, end));
    while curr < end
      invariant Resumed(ParseLeaves(signed, d, buf, curr, end), resources) ==
                ParseLeaves(signed, d, buf, message, end)
    {
      ghost var whole := ParseLeaves(signed, d, buf, curr, end);
      var decoded := ParseTlvHeader(signed, buf, curr);
      if decoded.Err? {
        ResumedError<Binding<Leaf>>(decoded.error, resources);
        return Err(decoded.error);
      }
      var (h, at) := decoded.value;
      if h.length < 0 {
        ResumedError<Binding<Leaf>>(NegativeLength, resources);
        return Err(NegativeLength);
      }
      var value := ParseValue(buf, at, h.length, d.rtype);
      if value.Err? {
        ResumedError<Binding<Leaf>>(value.error, resources);
        return Err(value.error);
      }
      var entry := Binding(h.id, Leaf(h.id, d.rtype, value.value));
      ghost var rest := ParseLeaves(signed, d, buf, at + h.length, end);
      ResumedStep(rest, entry, resources);
      if rest.Err? {
        ResumedError<Binding<Leaf>>(rest.error, resources);
        ResumedError<Binding<Leaf>>(rest.error, [entry] + resources);
      }
      resources := [entry] + resources;
      curr := at + h.length;
    }
    ResumedDone(resources);
    return Ok(resources);
  }

  lemma ResumedError<V>(e: ParseError, done: seq<V>)
    ensures Resumed<V>(Err(e), done) == Err(e)
  {
  }

  method ParseResourceEntry(signed: bool, def: seq<ResourceDef>, buf: seq<byte>, h: Header, at: nat)
    returns (r: Result<Resource, ParseError>)
    requires h.length >= 0
    ensures r == ParseResource(signed, def, buf, h, at)
  {
    hide DecodeHeader, DecodeValue, ParseLeaves;
    if !(0 <= h.id < |def|) {
      return Err(NoSuchDefinition);
    }
    var d := def[h.id];
    if h.code == MULTIPLE_RESOURCE_TYPE {
      if !(0 <= d.id < |def|) {
        return Err(NoSuchDefinition);
      }
      var leaves := ParseMultipleResource(signed, def[d.id], buf, at, h.length);
      if leaves.Err? {
        return Err(leaves.error);
      }
      return Ok(Resource(d.id, d.rtype, true, None, leaves.value));
    } else {
      var value := ParseValue(buf, at, h.length, d.rtype);
      if value.Err? {
        return Err(value.error);
      }
      return Ok(Resource(d.id, d.rtype, d.multiple, value.value, []));
    }
  }

  method ParseInstanceList(signed: bool, def: seq<ResourceDef>, buf: seq<byte>, message: nat, messageLen: nat)
    returns (r: Result<seq<Binding<Resource>>, ParseError>)
    ensures r == ParseInstance(signed, def, buf, message, message + messageLen)
  {
    hide DecodeHeader, ParseResource, Resumed;
    var resources: seq<Binding<Resource>> := [];
    var curr, end := message, message + messageLen;
    ResumedStart(ParseInstance(signed, def, buf, message, end));
    while curr < end
      invariant Resumed(ParseInstance(signed, def, buf, curr, end), resources) ==
                ParseInstance(signed, def, buf, message, end)
    {
      var decoded := ParseTlvHeader(signed, buf, curr);
      if decoded.Err? {
        ResumedError<Binding<Resource>>(decoded.error, resources);
        return Err(decoded.error);
      }
      var (h, at) := decoded.value;
      if h.length < 0 {
        ResumedError<Binding<Resource>>(NegativeLength, resources);
        return Err(NegativeLength);
      }
      var resource := ParseResourceEntry(signed, def, buf, h, at);
      if resource.Err? {
        ResumedError<Binding<Resource>>(resource.error, resources);
        return Err(resource.error);
      }
      var entry := Binding(resource.value.id, resource.value);
      ghost var rest := ParseInstance(signed, def, buf, at + h.length, end);
      ResumedStep(rest, entry, resources);
      if rest.Err? {
        ResumedError<Binding<Resource>>(rest.error, resources);
        ResumedError<Binding<Resource>>(rest.error, [entry] + resources);
      }
      resources := [entry] + resources;
      curr := at + h.length;
    }
    ResumedDone(resources);
    return Ok(resources);
  }

  method ParseObjectList(signed: bool, def: seq<ResourceDef>, buf: seq<byte>, message: nat, messageLen: nat)
    returns (r: Result<seq<Binding<Instance>>, ParseError>)
    ensures r == ParseObject(signed, def, buf, message, message + messageLen)
  {
    hide DecodeHeader, ParseInstance, Resumed;
    var instances: seq<Binding<Instance>> := [];
    var curr, end := message, message + messageLen;
    ResumedStart(ParseObject(signed, def, buf, message, end));
    while curr < end
      invariant Resumed(ParseObject(signed, def, buf, curr, end), instances) ==
                ParseObject(signed, def, buf, message, end)
    {
      var decoded := ParseTlvHeader(signed, buf, curr);
      if decoded.Err? {
        ResumedError<Binding<Instance>>(decoded.error, instances);
        return Err(decoded.error);
      }
      var (h, at) := decoded.value;
      if h.length < 0 {
        ResumedError<Binding<Instance>>(NegativeLength, instances);
        return Err(NegativeLength);
      }
      var resources := ParseInstanceList(signed, def, buf, at, h.length);
      if resources.Err? {
        ResumedError<Binding<Instance>>(resources.error, instances);
        return Err(resources.error);
      }
      var entry := Binding(h.id, Instance(h.id, resources.value));
      ghost var rest := ParseObject(signed, def, buf, at + h.length, end);
      ResumedStep(rest, entry, instances);
      if rest.Err? {
        ResumedError<Binding<Instance>>(rest.error, instances);
        ResumedError<Binding<Instance>>(rest.error, [entry] + instances);
      }
      instances := [entry] + instances;
      curr := at + h.length;
    }
    ResumedDone(instances);
    return Ok(instances);
  }
}
