/**
 * The object tree as the notification code sees it: objects, instances and single-valued
 * resources with their attribute and observer lists, the servers, and how a resource's value
 * is set.
 */
module ObjectTree {
  import opened Wrappers
  import opened Lists
  import opened TlvValues
  import opened Attributes
  import opened Scheduler

  const DEFAULT_PMIN_RES := 2
  const DEFAULT_PMAX_RES := 3

  class LwObject {
    const id: int
    const attributes: AttributeList
    /** Short server id to notification task. */
    var observers: seq<Binding<SchedulerTask>>

    constructor (id: int, attributes: AttributeList)
      ensures this.id == id && this.attributes == attributes && observers == []
    {
      this.id := id;
      this.attributes := attributes;
      observers := [];
    }
  }

  class Resource {
    const id: int
    const kind: ValueType
    const attributes: AttributeList
    var value: Option<Value>
    var observers: seq<Binding<SchedulerTask>>

    constructor (id: int, kind: ValueType, attributes: AttributeList)
      ensures this.id == id && this.kind == kind && this.attributes == attributes
      ensures value == None && observers == []
    {
      this.id := id;
      this.kind := kind;
      this.attributes := attributes;
      value := None;
      observers := [];
    }

    /** `__set_value` and `__set_null`: stores the value and hands back the one it replaced. */
    method SetValue(new_: Option<Value>) returns (old_: Option<Value>)
      modifies `value
      ensures value == StoredValue(kind, old(value), new_)
      ensures old_ == Replaced(kind, old(value), new_)
      ensures kind != NONE || new_.None? ==> value == new_ && old_ == old(value)
      ensures kind == NONE && new_.Some? ==> value == old(value) && old_ == None
    {
      if new_.None? {
        old_ := value;
        value := None;
      } else {
        match kind {
          case NONE =>
            old_ := None;
          case _ =>
            old_ := value;
            value := new_;
        }
      }
    }
  }

  /** A resource of no type keeps what it has when a value is set. */
  function StoredValue(kind: ValueType, before: Option<Value>, new_: Option<Value>): Option<Value> {
    if new_.Some? && kind == NONE then before else new_
  }

  /** The value the notification tests take for the old one. */
  function Replaced(kind: ValueType, before: Option<Value>, new_: Option<Value>): Option<Value> {
    if new_.Some? && kind == NONE then None else before
  }

  class Instance {
    const id: int
    const parent: LwObject
    const attributes: AttributeList
    /** Made from the object's definition when the instance is, and never changed. */
    const resources: seq<Binding<Resource>>
    var observers: seq<Binding<SchedulerTask>>

    constructor (id: int, parent: LwObject, attributes: AttributeList, resources: seq<Binding<Resource>>)
      ensures this.id == id && this.parent == parent && this.attributes == attributes
      ensures this.resources == resources && observers == []
    {
      this.id := id;
      this.parent := parent;
      this.attributes := attributes;
      this.resources := resources;
      observers := [];
    }

    /** Each resource under its own id, no id twice. */
    ghost predicate Keyed() {
      && DistinctKeys(resources)
      && (forall b :: b in resources ==> b.key == b.value.id)
    }

    /** The observer lists of the instance, its object and its resources hold each node's own tasks. */
    ghost predicate Observed(tasks: set<SchedulerTask>)
      reads `observers, parent`observers, (set b | b in resources :: b.value)`observers
    {
      && HoldsTasks(parent.observers, ObjectNode(parent.id), tasks)
      && HoldsTasks(observers, InstanceNode(parent.id, id), tasks)
      && (forall b :: b in resources ==>
            HoldsTasks(b.value.observers, ResourceNode(parent.id, id, b.value.id), tasks))
    }

    ghost predicate Has(id: int) {
      Lookup(resources, id).Some?
    }

    ghost function Values(): (vals: map<int, Option<Value>>)
      requires Keyed()
      reads (set b | b in resources :: b.value)`value
      ensures forall id :: Has(id) ==> id in vals
    {
      LookupMembers(resources);
      map b | b in resources :: b.key := b.value.value
    }
  }

  lemma LookupMembers<V>(bs: seq<Binding<V>>)
    ensures forall key :: Lookup(bs, key).Some? ==> Binding(key, Lookup(bs, key).value) in bs
  {
    forall key ensures Lookup(bs, key).Some? ==> Binding(key, Lookup(bs, key).value) in bs {
      LookupMember(bs, key);
    }
  }

  /** Every listed task is one of `tasks`, made for the node and the server it is listed under. */
  ghost predicate HoldsTasks(observers: seq<Binding<SchedulerTask>>, node: Node, tasks: set<SchedulerTask>) {
    forall b :: b in observers ==> b.value in tasks && b.value.node == node && b.value.server == b.key
  }

  class Server {
    const shortId: int
    const serverInstance: Instance

    constructor (shortId: int, serverInstance: Instance)
      ensures this.shortId == shortId && this.serverInstance == serverInstance
    {
      this.shortId := shortId;
      this.serverInstance := serverInstance;
    }

    /** The server's own instance has its two defaults among its resources. */
    predicate HasDefaults() {
      && Lookup(serverInstance.resources, DEFAULT_PMIN_RES).Some?
      && Lookup(serverInstance.resources, DEFAULT_PMAX_RES).Some?
    }

    function PminResource(): Resource
      requires HasDefaults()
    {
      Lookup(serverInstance.resources, DEFAULT_PMIN_RES).value
    }

    function PmaxResource(): Resource
      requires HasDefaults()
    {
      Lookup(serverInstance.resources, DEFAULT_PMAX_RES).value
    }

    function DefaultPmin(): Option<int>
      requires HasDefaults()
      reads PminResource()`value
    {
      AsInteger(PminResource().value)
    }

    function DefaultPmax(): Option<int>
      requires HasDefaults()
      reads PmaxResource()`value
    {
      AsInteger(PmaxResource().value)
    }
  }

  /** The integer in the value of an integer resource, which holds an integer or NULL. */
  function AsInteger(v: Option<Value>): Option<int> {
    if v.Some? && v.value.IntValue? then Some(v.value.i) else None
  }
}
