/**
 * The serializer as it runs: every level writes its entries one after another into the
 * message it is given, through a value buffer and a header buffer of its own.
 */
module TlvPrinter {
  import opened Wrappers
  import opened Bits
  import opened Lists
  import opened TlvHeader
  import opened TlvValues
  import opened TlvTree

  const VALUE_BUFFER := 5000
  const HEADER_BUFFER := 20

  /** `memcpy(message + at, source, n)`. */
  method Memcpy(message: array<byte>, at: nat, source: array<byte>, n: nat)
    requires message != source && n <= source.Length && at + n <= message.Length
    modifies message
    ensures message[at..at + n] == source[..n]
    ensures message[..at] == old(message[..at]) && message[at + n..] == old(message[at + n..])
  {
    for i := 0 to n
      invariant forall k :: 0 <= k < i ==> message[at + k] == source[k]
      invariant forall k :: 0 <= k < message.Length && !(at <= k < at + i) ==> message[k] == old(message[k])
    {
      message[at + i] := source[i];
    }
  }

  method CopyIn(message: array<byte>, bytes: seq<byte>)
    requires |bytes| <= message.Length
    modifies message
    ensures message[..|bytes|] == bytes && message[|bytes|..] == old(message[|bytes|..])
  {
    for i := 0 to |bytes|
      invariant message[..i] == bytes[..i]
      invariant forall k :: i <= k < message.Length ==> message[k] == old(message[k])
    {
      message[i] := bytes[i];
    }
    assert bytes[..|bytes|] == bytes;
  }

  /** A resource without a type is executable and never holds a value. */
  predicate Storable(v: Option<Value>, t: ValueType) {
    v.Some? ==> HasType(v.value, t) && Representable(v.value)
  }

  /** The bytes that printing a value stores: its payload, and after a text the NUL. */
  function StoredBytes(v: Option<Value>): seq<byte> {
    OptionalBytes(v) + if v.Some? && v.value.StringValue? then [0] else []
  }

  method SerializeValue(v: Option<Value>, t: ValueType, message: array<byte>) returns (messageLen: nat)
    requires Storable(v, t) && |OptionalBytes(v)| < message.Length
    modifies message
    ensures messageLen == |OptionalBytes(v)| && message[..messageLen] == OptionalBytes(v)
    ensures var n := |StoredBytes(v)|; message[..n] == StoredBytes(v) && message[n..] == old(message[n..])
  {
    if v.None? {
      return 0;
    }
    match v.value
    case StringValue(chars) =>
      messageLen := |chars|;
      CopyIn(message, chars + [0]);
      assert message[..messageLen] == message[..|chars + [0]|][..messageLen];
    case OpaqueValue(data) =>
      messageLen := |data|;
      CopyIn(message, data);
    case IntValue(i) =>
      messageLen := GetIntBytes(i);
      CopyIn(message, LittleEndian(i, messageLen));
    case BoolValue(b) =>
      messageLen := 1;
      message[0] := if b then 1 else 0;
    case DoubleValue(bytes) =>
      CopyIn(message, bytes);
      messageLen := 8;
    case LinkValue(o, i) =>
      messageLen := 4;
      message[0] := o % 256;
      message[1] := o / 256 % 256;
      message[2] := i % 256;
      message[3] := i / 256 % 256;
  }

  /** Puts the header and the payload of one entry into the message. */
  method EmitEntry(
      message: array<byte>, at: nat, header: array<byte>, headerLen: nat, value: array<byte>, valueLen: nat)
    requires message != header && message != value
    requires headerLen <= header.Length && valueLen <= value.Length
    requires at + headerLen + valueLen <= message.Length
    modifies message
    ensures message[..at + headerLen + valueLen] == old(message[..at]) + header[..headerLen] + value[..valueLen]
    ensures message[at + headerLen + valueLen..] == old(message[at + headerLen + valueLen..])
  {
    Memcpy(message, at, header, headerLen);
    label Copied:
    Memcpy(message, at + headerLen, value, valueLen);
    var end := at + headerLen + valueLen;
    assert message[..end] == message[..at + headerLen] + message[at + headerLen..end];
    assert message[..at + headerLen] == old@Copied(message[..at]) + old@Copied(message[at..at + headerLen]);
    assert message[end..] == old@Copied(message[at + headerLen..])[valueLen..];
  }

  // ---------------------------------------------------------------- what fits the buffers

  // A single value needs one byte more than its payload: `strcpy` writes the NUL as well.

  predicate LeavesPrintable(xs: seq<Binding<Leaf>>) {
    forall i :: 0 <= i < |xs| ==>
      && Storable(xs[i].value.value, xs[i].value.rtype)
      && |OptionalBytes(xs[i].value.value)| < VALUE_BUFFER
  }

  predicate ResourcesPrintable(rs: seq<Binding<Resource>>) {
    forall i :: 0 <= i < |rs| ==>
      && (if rs[i].value.multiple then LeavesPrintable(rs[i].value.instances)
          else Storable(rs[i].value.value, rs[i].value.rtype))
      && |ResourcePayload(rs[i].value)| <= VALUE_BUFFER - (if rs[i].value.multiple then 0 else 1)
  }

  predicate InstancesPrintable(os: seq<Binding<Instance>>) {
    forall i :: 0 <= i < |os| ==>
      && ResourcesPrintable(os[i].value.resources)
      && |InstanceBytes(os[i].value.resources)| <= VALUE_BUFFER
  }

  // ---------------------------------------------------------------- the three nested loops

  /** Prints the entry whose payload is in the value buffer, and moves past it. */
  method SerializeEntry(
      id: int, code: int, message: array<byte>, at: nat,
      valueBuffer: array<byte>, valueLen: nat, headerBuffer: array<byte>) returns (next: nat)
    requires message != headerBuffer && message != valueBuffer && headerBuffer != valueBuffer
    requires IsType(code) && valueLen <= valueBuffer.Length && headerBuffer.Length == HEADER_BUFFER
    requires at + |EntryBytes(id, code, valueBuffer[..valueLen])| <= message.Length
    modifies message, headerBuffer
    ensures next == at + old(|EntryBytes(id, code, valueBuffer[..valueLen])|)
    ensures message[..next] == old(message[..at] + EntryBytes(id, code, valueBuffer[..valueLen]))
    ensures message[next..] == old(message[next..])
  {
    ghost var payload := valueBuffer[..valueLen];
    var headerLen := SerializeHeader(id, code, valueLen, headerBuffer);
    assert headerBuffer[..headerLen] == HeaderBytes(id, code, valueLen);
    EmitEntry(message, at, headerBuffer, headerLen, valueBuffer, valueLen);
    next := at + headerLen + valueLen;
    assert EntryBytes(id, code, payload) == HeaderBytes(id, code, valueLen) + payload;
  }

  /** What is printed so far, and what the rest will print, make up the whole. */
  ghost predicate Progress(printed: seq<byte>, rest: seq<byte>, all: seq<byte>) {
    printed + rest == all
  }

  lemma Start(all: seq<byte>)
    ensures Progress([], all, all)
  {
  }

  lemma Advance(printed: seq<byte>, entry: seq<byte>, rest: seq<byte>, all: seq<byte>)
    requires Progress(printed, entry + rest, all)
    ensures Progress(printed + entry, rest, all)
    ensures |printed| + |entry| <= |all|
  {
    assert (printed + entry) + rest == printed + (entry + rest);
  }

  lemma Finish(printed: seq<byte>, all: seq<byte>)
    requires Progress(printed, [], all)
    ensures printed == all
  {
    assert printed + [] == printed;
  }

  method SerializeMultipleResource(resources: seq<Binding<Leaf>>, message: array<byte>) returns (messageLen: nat)
    requires LeavesPrintable(resources) && |LeavesBytes(resources)| <= message.Length
    modifies message
    ensures messageLen == |LeavesBytes(resources)| && message[..messageLen] == LeavesBytes(resources)
    ensures message[messageLen..] == old(message[messageLen..])
  {
    hide EntryBytes, OptionalBytes, Storable, Progress;
    var valueBuffer := new byte[VALUE_BUFFER];
    var headerBuffer := new byte[HEADER_BUFFER];
    messageLen := 0;
    Start(LeavesBytes(resources));
    assert message[..0] == [] && resources[0..] == resources;
    for i := 0 to |resources|
      invariant messageLen <= message.Length
      invariant Progress(message[..messageLen], LeavesBytes(resources[i..]), LeavesBytes(resources))
      invariant message[messageLen..] == old(message[messageLen..])
    {
      var x := resources[i].value;
      assert resources[i..][1..] == resources[i + 1..];
      Advance(message[..messageLen], EntryBytes(x.id, RESOURCE_INSTANCE_TYPE, OptionalBytes(x.value)),
              LeavesBytes(resources[i + 1..]), LeavesBytes(resources));
      var valueLen := SerializeValue(x.value, x.rtype, valueBuffer);
      messageLen := SerializeEntry(
          x.id, RESOURCE_INSTANCE_TYPE, message, messageLen, valueBuffer, valueLen, headerBuffer);
    }
    Finish(message[..messageLen], LeavesBytes(resources));
  }

  method SerializeInstance(resources: seq<Binding<Resource>>, message: array<byte>) returns (messageLen: nat)
    requires ResourcesPrintable(resources) && |InstanceBytes(resources)| <= message.Length
    modifies message
    ensures messageLen == |InstanceBytes(resources)| && message[..messageLen] == InstanceBytes(resources)
    ensures message[messageLen..] == old(message[messageLen..])
  {
    hide EntryBytes, OptionalBytes, LeavesBytes, LeavesPrintable, Storable, Progress;
    var valueBuffer := new byte[VALUE_BUFFER];
    var headerBuffer := new byte[HEADER_BUFFER];
    messageLen := 0;
    Start(InstanceBytes(resources));
    assert message[..0] == [] && resources[0..] == resources;
    for i := 0 to |resources|
      invariant messageLen <= message.Length
      invariant Progress(message[..messageLen], InstanceBytes(resources[i..]), InstanceBytes(resources))
      invariant message[messageLen..] == old(message[messageLen..])
    {
      var r := resources[i].value;
      assert resources[i..][1..] == resources[i + 1..];
      Advance(message[..messageLen], EntryBytes(r.id, ResourceCode(r), ResourcePayload(r)),
              InstanceBytes(resources[i + 1..]), InstanceBytes(resources));
      var valueLen;
      if r.multiple {
        valueLen := SerializeMultipleResource(r.instances, valueBuffer);
        messageLen := SerializeEntry(
            r.id, MULTIPLE_RESOURCE_TYPE, message, messageLen, valueBuffer, valueLen, headerBuffer);
      } else {
        valueLen := SerializeValue(r.value, r.rtype, valueBuffer);
        messageLen := SerializeEntry(
            r.id, RESOURCE_TYPE, message, messageLen, valueBuffer, valueLen, headerBuffer);
      }
    }
    Finish(message[..messageLen], InstanceBytes(resources));
  }

  method SerializeObject(instances: seq<Binding<Instance>>, message: array<byte>) returns (messageLen: nat)
    requires InstancesPrintable(instances) && |ObjectBytes(instances)| <= message.Length
    modifies message
    ensures messageLen == |ObjectBytes(instances)| && message[..messageLen] == ObjectBytes(instances)
    ensures message[messageLen..] == old(message[messageLen..])
  {
    hide EntryBytes, InstanceBytes, ResourcesPrintable, Progress;
    var valueBuffer := new byte[VALUE_BUFFER];
    var headerBuffer := new byte[HEADER_BUFFER];
    messageLen := 0;
    Start(ObjectBytes(instances));
    assert message[..0] == [] && instances[0..] == instances;
    for i := 0 to |instances|
      invariant messageLen <= message.Length
      invariant Progress(message[..messageLen], ObjectBytes(instances[i..]), ObjectBytes(instances))
      invariant message[messageLen..] == old(message[messageLen..])
    {
      var x := instances[i].value;
      assert instances[i..][1..] == instances[i + 1..];
      Advance(message[..messageLen], EntryBytes(x.id, OBJECT_INSTANCE_TYPE, InstanceBytes(x.resources)),
              ObjectBytes(instances[i + 1..]), ObjectBytes(instances));
      var valueLen := SerializeInstance(x.resources, valueBuffer);
      messageLen := SerializeEntry(
          x.id, OBJECT_INSTANCE_TYPE, message, messageLen, valueBuffer, valueLen, headerBuffer);
    }
    Finish(message[..messageLen], ObjectBytes(instances));
  }
}
