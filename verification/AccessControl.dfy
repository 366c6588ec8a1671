/**
 * Instance creation and deletion with their access-control instances, on objects that may have
 * several instances, other than the access-control object itself.
 *
 * The class keeps the lists the handlers change; each handler is proved to compute one
 * function on `State`, and the properties of whole runs are proved about those functions.
 */
module AccessControl {
  import opened Wrappers
  import opened Lists

  const ACCESS_CONTROL_OBJECT_ID := 2
  /** Marks the access-control instance of a whole object. */
  const MAX_ID := 66535

  const READ := 1
  const WRITE := 2
  const EXECUTE := 4
  const DELETE := 8
  const CREATE := 16

  datatype Instance = Instance(id: int)

  /** An access-control instance: what it protects, its owner, and rights by short server id. */
  datatype Aco = Aco(id: int, objectId: int, instanceId: int, owner: int, acl: seq<Binding<int>>)

  /** `lockFree` is the semaphore `object_tree_lock`: a handler that finds it taken waits. */
  datatype State = State(
    servers: seq<Binding<int>>,
    objects: map<int, seq<Binding<Instance>>>,
    acos: seq<Binding<Aco>>,
    lockFree: bool)

  datatype Status = Created | Deleted | Unauthorized | NotAllowed | NullDereference

  // ---------------------------------------------------------------- checks

  /** `rights & operation`, for an operation of one bit. */
  predicate Grants(rights: int, operation: int)
    requires operation > 0
  {
    rights / operation % 2 == 1
  }

  predicate Protects(a: Aco, objectId: int, instanceId: int) {
    a.objectId == objectId && a.instanceId == instanceId
  }

  /** The first access-control instance listed for an instance, or for an object with `MAX_ID`. */
  function AcoFor(acos: seq<Binding<Aco>>, objectId: int, instanceId: int): (a: Option<Aco>)
    ensures a.Some? ==> Protects(a.value, objectId, instanceId)
  {
    if acos == [] then None
    else if Protects(acos[0].value, objectId, instanceId) then Some(acos[0].value)
    else AcoFor(acos[1..], objectId, instanceId)
  }

  /** What an access-control instance lets a server do to its instance. */
  predicate Permits(a: Aco, server: int, operation: int)
    requires operation > 0
  {
    var own := Lookup(a.acl, server);
    if own.Some? then Grants(own.value, operation)
    else
      || a.owner == server
      || (var default_ := Lookup(a.acl, 0); default_.Some? && Grants(default_.value, operation))
  }

  /** Whether an object's access-control instance lets a server create instances. */
  predicate LetsCreate(a: Aco, server: int) {
    var own := Lookup(a.acl, server);
    var right := if own.Some? then own else Lookup(a.acl, 0);
    right.Some? && Grants(right.value, CREATE)
  }

  predicate MayCreate(s: State, server: int, objectId: int) {
    var a := AcoFor(s.acos, objectId, MAX_ID);
    a.Some? && LetsCreate(a.value, server)
  }

  /** The access check on an instance; none if it follows a NULL pointer. */
  function MayAccess(s: State, server: int, objectId: int, instanceId: int, operation: int): Option<bool>
    requires operation > 0
  {
    if |s.servers| == 1 then Some(true)
    else
      var a := AcoFor(s.acos, objectId, instanceId);
      if a.None? then None else Some(Permits(a.value, server, operation))
  }

  // ---------------------------------------------------------------- operations

  function Instances(s: State, objectId: int): seq<Binding<Instance>> {
    if objectId in s.objects then s.objects[objectId] else []
  }

  predicate Live(s: State, objectId: int, instanceId: int) {
    HasKey(Instances(s, objectId), instanceId)
  }

  /** The id a new instance gets: the one asked for, or with -1 the greatest in use plus one. */
  function NewId(s: State, objectId: int, asked: int): int {
    if asked == -1 then MaxKey(Instances(s, objectId)) + 1 else asked
  }

  function WithInstance(s: State, objectId: int, id: int): State {
    s.(objects := s.objects[objectId := [Binding(id, Instance(id))] + Instances(s, objectId)])
  }

  function WithAco(s: State, server: int, objectId: int, instanceId: int): State {
    var id := MaxKey(s.acos) + 1;
    var aco := Aco(id, objectId, instanceId, server, [Binding(server, READ + WRITE + EXECUTE + DELETE)]);
    s.(acos := [Binding(id, aco)] + s.acos)
  }

  /**
   * `on_instance_create`; `complete` says whether the payload has every mandatory resource.
   * The instance is listed before that is checked. A refusal does not give the lock back.
   */
  function Create(s: State, server: int, objectId: int, asked: int, complete: bool): (State, Status) {
    if !MayCreate(s, server, objectId) then (s.(lockFree := false), Unauthorized)
    else if Lookup(Instances(s, objectId), asked).Some? then (s.(lockFree := false), NotAllowed)
    else
      var id := NewId(s, objectId, asked);
      var listed := WithInstance(s, objectId, id);
      if !complete then (listed.(lockFree := false), NotAllowed)
      else if |s.servers| > 1 then (WithAco(listed, server, objectId, id), Created)
      else (listed, Created)
  }

  /** `on_instance_delete` of a live instance. */
  function Delete(s: State, server: int, objectId: int, instanceId: int): (State, Status) {
    var access := MayAccess(s, server, objectId, instanceId, DELETE);
    if access.None? then (s.(lockFree := false), NullDereference)
    else if !access.value then (s, Unauthorized)
    else
      var a := AcoFor(s.acos, objectId, instanceId);
      var acos := if a.Some? then Unbind(s.acos, a.value.id) else s.acos;
      (s.(acos := acos, objects := s.objects[objectId := Unbind(Instances(s, objectId), instanceId)]), Deleted)
  }

  // ---------------------------------------------------------------- runs

  /**
   * Besides creations and deletions: reads and writes, which hold the lock and on some refusals
   * keep it; the access checks of execute and observe requests, which do without it; and
   * servers that come and go.
   */
  datatype Step =
    | CreateStep(server: int, objectId: int, asked: int, complete: bool)
    | DeleteStep(server: int, objectId: int, instanceId: int)
    | ReadOrWrite(keepsLock: bool)
    | Check(server: int, objectId: int, instanceId: int, operation: int)
    | Register(server: int)
    | Deregister(server: int)

  /**
   * Requests concern known objects, never the access-control object, and name live instances;
   * the handlers that need the lock find it free.
   */
  predicate Enabled(s: State, step: Step) {
    match step
    case CreateStep(_, o, _, _) => s.lockFree && o != ACCESS_CONTROL_OBJECT_ID && o in s.objects
    case DeleteStep(_, o, i) => s.lockFree && o != ACCESS_CONTROL_OBJECT_ID && Live(s, o, i)
    case ReadOrWrite(_) => s.lockFree
    case Check(_, o, i, operation) => Live(s, o, i) && operation > 0
    case _ => true
  }

  function Next(s: State, step: Step): State {
    match step
    case CreateStep(server, o, asked, complete) => Create(s, server, o, asked, complete).0
    case DeleteStep(server, o, i) => Delete(s, server, o, i).0
    case ReadOrWrite(keepsLock) => s.(lockFree := !keepsLock)
    case Check(_, _, _, _) => s
    case Register(server) => s.(servers := [Binding(server, server)] + s.servers)
    case Deregister(server) => s.(servers := Unbind(s.servers, server))
  }

  predicate Runs(s: State, steps: seq<Step>)
    decreases |steps|
  {
    steps == [] || (Enabled(s, steps[0]) && Runs(Next(s, steps[0]), steps[1..]))
  }

  function After(s: State, steps: seq<Step>): State
    decreases |steps|
  {
    if steps == [] then s else After(Next(s, steps[0]), steps[1..])
  }

  // ---------------------------------------------------------------- the pairing

  /** Every instance is listed under its own id, and no id twice. */
  predicate InstancesKeyed(bs: seq<Binding<Instance>>) {
    DistinctKeys(bs) && forall k :: 0 <= k < |bs| ==> bs[k].key == bs[k].value.id
  }

  predicate AcosKeyed(acos: seq<Binding<Aco>>) {
    DistinctKeys(acos) && forall k :: 0 <= k < |acos| ==> acos[k].key == acos[k].value.id
  }

  /** No two access-control instances protect the same instance. */
  predicate AtMostOneEach(acos: seq<Binding<Aco>>) {
    forall j, k :: 0 <= j < k < |acos| && acos[j].value.instanceId != MAX_ID ==>
      !Protects(acos[k].value, acos[j].value.objectId, acos[j].value.instanceId)
  }

  /** An entry that is not about a whole object names a live instance. */
  predicate NamesLive(s: State, a: Aco) {
    a.instanceId == MAX_ID || a.objectId == ACCESS_CONTROL_OBJECT_ID || Live(s, a.objectId, a.instanceId)
  }

  predicate Paired(s: State) {
    && (forall o :: o in s.objects ==> InstancesKeyed(s.objects[o]))
    && AcosKeyed(s.acos)
    && AtMostOneEach(s.acos)
    && (forall k :: 0 <= k < |s.acos| ==> NamesLive(s, s.acos[k].value))
  }

  /** The access-control instances that protect one instance. */
  function Holders(acos: seq<Binding<Aco>>, objectId: int, instanceId: int): seq<Aco> {
    if acos == [] then []
    else
      (if Protects(acos[0].value, objectId, instanceId) then [acos[0].value] else [])
      + Holders(acos[1..], objectId, instanceId)
  }

  lemma {:induction false} HoldersAre(acos: seq<Binding<Aco>>, objectId: int, instanceId: int)
    ensures AcoFor(acos, objectId, instanceId) ==
            var h := Holders(acos, objectId, instanceId); if h == [] then None else Some(h[0])
    ensures Holders(acos, objectId, instanceId) == [] <==>
            forall k :: 0 <= k < |acos| ==> !Protects(acos[k].value, objectId, instanceId)
    ensures AtMostOneEach(acos) && instanceId != MAX_ID ==> |Holders(acos, objectId, instanceId)| <= 1
  {
    if acos != [] {
      var rest := acos[1..];
      HoldersAre(rest, objectId, instanceId);
      assert forall k :: 0 <= k < |rest| ==> rest[k] == acos[k + 1];
      assert forall k :: 1 <= k < |acos| ==> acos[k] == rest[k - 1];
    }
  }

  /** Where the search for an access-control instance stops. */
  lemma {:induction false} AcoForAt(acos: seq<Binding<Aco>>, objectId: int, instanceId: int) returns (k: nat)
    requires AcoFor(acos, objectId, instanceId).Some?
    ensures k < |acos| && acos[k].value == AcoFor(acos, objectId, instanceId).value
    ensures forall j :: 0 <= j < k ==> !Protects(acos[j].value, objectId, instanceId)
  {
    if Protects(acos[0].value, objectId, instanceId) {
      k := 0;
    } else {
      var j := AcoForAt(acos[1..], objectId, instanceId);
      k := j + 1;
      assert forall l :: 1 <= l < k ==> acos[l] == acos[1..][l - 1];
    }
  }

  lemma CreateKeepsPaired(s: State, server: int, objectId: int, asked: int, complete: bool)
    requires Paired(s) && objectId != ACCESS_CONTROL_OBJECT_ID && objectId in s.objects
    ensures Paired(Create(s, server, objectId, asked, complete).0)
  {
    var before := Instances(s, objectId);
    if MayCreate(s, server, objectId) && Lookup(before, asked).None? {
      var id := NewId(s, objectId, asked);
      LookupIsTop(before, asked);
      NextIdIsFresh(before);
      var listed := WithInstance(s, objectId, id);
      ListingKeepsPaired(s, objectId, id);
      if complete && |s.servers| > 1 {
        AcoKeepsPaired(s, server, objectId, id);
      }
    }
  }

  lemma ListingKeepsPaired(s: State, objectId: int, id: int)
    requires Paired(s) && objectId in s.objects && !Live(s, objectId, id)
    ensures Paired(WithInstance(s, objectId, id))
    ensures Live(WithInstance(s, objectId, id), objectId, id)
    ensures forall o, i :: Live(s, o, i) ==> Live(WithInstance(s, objectId, id), o, i)
  {
    var listed := WithInstance(s, objectId, id);
    assert Instances(listed, objectId)[0].key == id;
    forall o, i | Live(s, o, i) ensures Live(listed, o, i) {
      var k :| 0 <= k < |Instances(s, o)| && Instances(s, o)[k].key == i;
      assert Instances(listed, o)[if o == objectId then k + 1 else k].key == i;
    }
  }

  lemma AcoKeepsPaired(s: State, server: int, objectId: int, id: int)
    requires Paired(s) && objectId in s.objects && !Live(s, objectId, id) && objectId != ACCESS_CONTROL_OBJECT_ID
    ensures Paired(WithAco(WithInstance(s, objectId, id), server, objectId, id))
  {
    ListingKeepsPaired(s, objectId, id);
    NextIdIsFresh(s.acos);
    var listed := WithInstance(s, objectId, id);
    var n := WithAco(listed, server, objectId, id);
    forall o, i | Live(listed, o, i) ensures Live(n, o, i) {
      assert Instances(n, o) == Instances(listed, o);
    }
    assert n.acos[1..] == s.acos;
    forall k | 0 <= k < |s.acos| && id != MAX_ID ensures !Protects(s.acos[k].value, objectId, id) {
      assert NamesLive(s, s.acos[k].value);
    }
  }

  /** Deleting takes the instance and its access-control instance, and nothing else. */
  lemma DeleteTakesBoth(s: State, server: int, objectId: int, instanceId: int)
    requires Paired(s) && objectId != ACCESS_CONTROL_OBJECT_ID && Live(s, objectId, instanceId)
    requires Delete(s, server, objectId, instanceId).1 == Deleted
    ensures var n := Delete(s, server, objectId, instanceId).0;
      && Paired(n)
      && !Live(n, objectId, instanceId)
      && (instanceId != MAX_ID ==> Holders(n.acos, objectId, instanceId) == [])
      && (forall o, i :: (o, i) != (objectId, instanceId) ==> (Live(n, o, i) <==> Live(s, o, i)))
      && (forall o, i :: (o, i) != (objectId, instanceId) ==> AcoFor(n.acos, o, i) == AcoFor(s.acos, o, i))
  {
    var n := Delete(s, server, objectId, instanceId).0;
    InstanceGone(s, objectId, instanceId, n.acos);
    var a := AcoFor(s.acos, objectId, instanceId);
    HoldersAre(s.acos, objectId, instanceId);
    if a.Some? {
      var k := AcoForAt(s.acos, objectId, instanceId);
      UnbindAt(s.acos, k);
      AcoGone(s.acos, k);
      forall o, i | (o, i) != (objectId, instanceId) ensures AcoFor(n.acos, o, i) == AcoFor(s.acos, o, i) {
        AcoForWithout(s.acos, k, o, i);
      }
    }
    HoldersAre(n.acos, objectId, instanceId);
    forall k | 0 <= k < |n.acos| ensures NamesLive(n, n.acos[k].value) {
      var b := n.acos[k];
      assert b in s.acos;
      var j :| 0 <= j < |s.acos| && s.acos[j] == b;
      assert NamesLive(s, s.acos[j].value);
    }
  }

  lemma InstanceGone(s: State, objectId: int, instanceId: int, acos: seq<Binding<Aco>>)
    requires Paired(s) && Live(s, objectId, instanceId)
    ensures var n := s.(acos := acos, objects := s.objects[objectId := Unbind(Instances(s, objectId), instanceId)]);
      && (forall o :: o in n.objects ==> InstancesKeyed(n.objects[o]))
      && !Live(n, objectId, instanceId)
      && (forall o, i :: (o, i) != (objectId, instanceId) ==> (Live(n, o, i) <==> Live(s, o, i)))
  {
    var bs := Instances(s, objectId);
    var u := Unbind(bs, instanceId);
    UnbindKeepsDistinct(bs, instanceId);
    forall i | i != instanceId && HasKey(bs, i) ensures HasKey(u, i) {
      var k :| 0 <= k < |bs| && bs[k].key == i;
      assert bs[k] in u;
    }
    forall i | HasKey(u, i) ensures HasKey(bs, i) && i != instanceId {
      var k :| 0 <= k < |u| && u[k].key == i;
      assert u[k] in bs;
    }
  }

  lemma {:induction false} AcoGone(acos: seq<Binding<Aco>>, k: nat)
    requires AcosKeyed(acos) && AtMostOneEach(acos) && k < |acos|
    ensures var u := acos[..k] + acos[k + 1..];
      && AcosKeyed(u) && AtMostOneEach(u)
      && (forall j :: 0 <= j < |u| ==> u[j] in acos)
      && (acos[k].value.instanceId != MAX_ID ==>
            forall j :: 0 <= j < |u| ==> !Protects(u[j].value, acos[k].value.objectId, acos[k].value.instanceId))
  {
    RestAt(acos, k);
  }

  /** Taking an entry that protects something else changes no search. */
  lemma {:induction false} AcoForWithout(acos: seq<Binding<Aco>>, k: nat, objectId: int, instanceId: int)
    requires k < |acos| && !Protects(acos[k].value, objectId, instanceId)
    ensures AcoFor(acos[..k] + acos[k + 1..], objectId, instanceId) == AcoFor(acos, objectId, instanceId)
  {
    if k == 0 {
      assert acos[..0] + acos[1..] == acos[1..];
    } else {
      var u := acos[..k] + acos[k + 1..];
      assert u[1..] == acos[1..][..k - 1] + acos[1..][k..];
      AcoForWithout(acos[1..], k - 1, objectId, instanceId);
    }
  }

  lemma StepKeepsPaired(s: State, step: Step)
    requires Paired(s) && Enabled(s, step)
    ensures Paired(Next(s, step))
  {
    match step
    case CreateStep(server, o, asked, complete) => CreateKeepsPaired(s, server, o, asked, complete);
    case DeleteStep(server, o, i) =>
      if Delete(s, server, o, i).1 == Deleted {
        DeleteTakesBoth(s, server, o, i);
      }
    case _ =>
      assert forall o, i :: Live(Next(s, step), o, i) <==> Live(s, o, i);
  }

  /**
   * Over any run of creations, deletions, registrations and deregistrations: list keys are
   * the instance ids and pairwise distinct, no instance has two access-control instances, and
   * every access-control instance names a live instance.
   */
  lemma {:induction false} RunKeepsPaired(s: State, steps: seq<Step>)
    requires Paired(s) && Runs(s, steps)
    ensures Paired(After(s, steps))
    ensures forall o, i :: i != MAX_ID ==> |Holders(After(s, steps).acos, o, i)| <= 1
    decreases |steps|
  {
    if steps == [] {
      forall o, i | i != MAX_ID ensures |Holders(s.acos, o, i)| <= 1 {
        HoldersAre(s.acos, o, i);
      }
    } else {
      StepKeepsPaired(s, steps[0]);
      RunKeepsPaired(Next(s, steps[0]), steps[1..]);
    }
  }

  // ---------------------------------------------------------------- what a creation makes

  /**
   * A successful creation lists one more instance under an id that was free, and with several
   * servers gives it an access-control instance owned by its creator: the only one, unless the
   * id is the one that marks whole objects.
   */
  lemma CreatedIsOwned(s: State, server: int, objectId: int, asked: int)
    requires Paired(s) && objectId != ACCESS_CONTROL_OBJECT_ID && objectId in s.objects
    requires Create(s, server, objectId, asked, true).1 == Created
    ensures var n, id := Create(s, server, objectId, asked, true).0, NewId(s, objectId, asked);
      && !Live(s, objectId, id) && Live(n, objectId, id)
      && (asked == -1 ==> id >= 0)
      && (forall i :: Live(n, objectId, i) <==> i == id || Live(s, objectId, i))
      && (|s.servers| > 1 ==>
            && AcoFor(n.acos, objectId, id).Some? && AcoFor(n.acos, objectId, id).value.owner == server
            && (|Holders(n.acos, objectId, id)| == 1 <==> id != MAX_ID))
      && (|s.servers| <= 1 ==> n.acos == s.acos && (id != MAX_ID ==> Holders(n.acos, objectId, id) == []))
  {
    var before := Instances(s, objectId);
    var n, id := Create(s, server, objectId, asked, true).0, NewId(s, objectId, asked);
    LookupIsTop(before, asked);
    NextIdIsFresh(before);
    ListingKeepsPaired(s, objectId, id);
    assert Instances(n, objectId) == [Binding(id, Instance(id))] + before;
    forall i ensures Live(n, objectId, i) <==> i == id || Live(s, objectId, i) {
      LookupIsTop(before, i);
      LookupIsTop(Instances(n, objectId), i);
      UnbindUndoesAdd(before, id, Instance(id));
    }
    HoldersAre(s.acos, objectId, id);
    if id != MAX_ID {
      forall k | 0 <= k < |s.acos| ensures !Protects(s.acos[k].value, objectId, id) {
        assert NamesLive(s, s.acos[k].value);
      }
    }
    if |s.servers| > 1 {
      assert n.acos[1..] == s.acos;
    }
  }

  /**
   * Whatever happened under its id before, a new instance among several servers is its
   * creator's alone, unless the creator's short id is 0, which is read as everyone's default.
   */
  lemma CreatorAlone(s: State, server: int, objectId: int, asked: int, other: int, operation: int)
    requires Paired(s) && objectId != ACCESS_CONTROL_OBJECT_ID && objectId in s.objects
    requires Create(s, server, objectId, asked, true).1 == Created && |s.servers| > 1 && operation > 0
    ensures var n, id := Create(s, server, objectId, asked, true).0, NewId(s, objectId, asked);
      MayAccess(n, other, objectId, id, operation) ==
      Some((other == server || server == 0) && Grants(READ + WRITE + EXECUTE + DELETE, operation))
  {
    var n, id := Create(s, server, objectId, asked, true).0, NewId(s, objectId, asked);
    var acl := n.acos[0].value.acl;
    assert acl[1..] == [];
    assert Lookup(acl[1..], other) == None && Lookup(acl[1..], 0) == None;
  }

  /** Rights as a creation gives them: the creator's, and nobody else's but by default. */
  predicate CreatorsOnly(a: Aco, creator: int) {
    a.owner == creator && a.acl == [Binding(creator, READ + WRITE + EXECUTE + DELETE)]
  }

  lemma CreatorsRights(a: Aco, creator: int, other: int, operation: int)
    requires CreatorsOnly(a, creator) && operation > 0
    ensures Permits(a, other, operation) <==>
            (other == creator || creator == 0) && Grants(READ + WRITE + EXECUTE + DELETE, operation)
  {
    assert a.acl[1..] == [];
    assert Lookup(a.acl[1..], other) == None && Lookup(a.acl[1..], 0) == None;
  }

  /** A request to delete such an instance is refused exactly if it is another's and not just one server is there. */
  lemma OnlyCreatorDeletes(s: State, objectId: int, instanceId: int, creator: int, other: int)
    requires AcoFor(s.acos, objectId, instanceId).Some?
    requires CreatorsOnly(AcoFor(s.acos, objectId, instanceId).value, creator)
    ensures Delete(s, other, objectId, instanceId).1 ==
            if creator != 0 && other != creator && |s.servers| != 1 then Unauthorized else Deleted
  {
    CreatorsRights(AcoFor(s.acos, objectId, instanceId).value, creator, other, DELETE);
  }

  /** The step is no request to delete the instance that would be granted. */
  predicate Spares(s: State, step: Step, objectId: int, instanceId: int, creator: int) {
    step.DeleteStep? && step.objectId == objectId && step.instanceId == instanceId ==>
      creator != 0 && step.server != creator && |s.servers| != 1
  }

  predicate AllSpare(s: State, steps: seq<Step>, objectId: int, instanceId: int, creator: int)
    decreases |steps|
  {
    steps == [] ||
    (Spares(s, steps[0], objectId, instanceId, creator)
     && AllSpare(Next(s, steps[0]), steps[1..], objectId, instanceId, creator))
  }

  lemma StepKeepsRights(s: State, step: Step, objectId: int, instanceId: int, creator: int)
    requires Paired(s) && Enabled(s, step) && Live(s, objectId, instanceId)
    requires AcoFor(s.acos, objectId, instanceId).Some?
    requires CreatorsOnly(AcoFor(s.acos, objectId, instanceId).value, creator)
    requires Spares(s, step, objectId, instanceId, creator)
    ensures Live(Next(s, step), objectId, instanceId)
    ensures AcoFor(Next(s, step).acos, objectId, instanceId) == AcoFor(s.acos, objectId, instanceId)
  {
    match step
    case CreateStep(server, o, asked, complete) =>
      var before := Instances(s, o);
      if MayCreate(s, server, o) && Lookup(before, asked).None? {
        var id := NewId(s, o, asked);
        LookupIsTop(before, asked);
        NextIdIsFresh(before);
        ListingKeepsPaired(s, o, id);
        var listed := WithInstance(s, o, id);
        assert Instances(Next(s, step), objectId) == Instances(listed, objectId);
        assert Live(listed, objectId, instanceId);
        if complete && |s.servers| > 1 {
          assert Next(s, step).acos[1..] == s.acos;
        }
      }
    case DeleteStep(server, o, i) =>
      if o == objectId && i == instanceId {
        OnlyCreatorDeletes(s, objectId, instanceId, creator, server);
      } else if Delete(s, server, o, i).1 == Deleted {
        DeleteTakesBoth(s, server, o, i);
      }
    case _ =>
  }

  /** The instance is live and its creator's alone. */
  predicate IsCreators(s: State, objectId: int, instanceId: int, creator: int) {
    && Live(s, objectId, instanceId)
    && AcoFor(s.acos, objectId, instanceId).Some?
    && CreatorsOnly(AcoFor(s.acos, objectId, instanceId).value, creator)
  }

  /** It is so before the run and after each of its steps. */
  predicate CreatorsThroughout(s: State, steps: seq<Step>, objectId: int, instanceId: int, creator: int)
    decreases |steps|
  {
    && IsCreators(s, objectId, instanceId, creator)
    && (steps == [] || CreatorsThroughout(Next(s, steps[0]), steps[1..], objectId, instanceId, creator))
  }

  /** A step leaves the instance its creator's alone if and only if it is no granted request to delete it. */
  lemma StepKeepsRightsExactly(s: State, step: Step, objectId: int, instanceId: int, creator: int)
    requires Paired(s) && Enabled(s, step) && objectId != ACCESS_CONTROL_OBJECT_ID
    requires IsCreators(s, objectId, instanceId, creator)
    ensures IsCreators(Next(s, step), objectId, instanceId, creator) <==>
            Spares(s, step, objectId, instanceId, creator)
  {
    if Spares(s, step, objectId, instanceId, creator) {
      StepKeepsRights(s, step, objectId, instanceId, creator);
    } else {
      OnlyCreatorDeletes(s, objectId, instanceId, creator, step.server);
      DeleteTakesBoth(s, step.server, objectId, instanceId);
    }
  }

  /** Over every run it stays so throughout if and only if no request to delete it is granted. */
  lemma {:induction false} RunKeepsRights(s: State, steps: seq<Step>, objectId: int, instanceId: int, creator: int)
    requires Paired(s) && Runs(s, steps) && objectId != ACCESS_CONTROL_OBJECT_ID
    requires IsCreators(s, objectId, instanceId, creator)
    ensures CreatorsThroughout(s, steps, objectId, instanceId, creator) <==>
            AllSpare(s, steps, objectId, instanceId, creator)
    ensures AllSpare(s, steps, objectId, instanceId, creator) ==>
              IsCreators(After(s, steps), objectId, instanceId, creator)
    decreases |steps|
  {
    hide Paired, Enabled, Next, IsCreators, Spares;
    if steps != [] {
      StepKeepsPaired(s, steps[0]);
      StepKeepsRightsExactly(s, steps[0], objectId, instanceId, creator);
      if Spares(s, steps[0], objectId, instanceId, creator) {
        RunKeepsRights(Next(s, steps[0]), steps[1..], objectId, instanceId, creator);
      } else {
        assert !CreatorsThroughout(Next(s, steps[0]), steps[1..], objectId, instanceId, creator);
      }
    }
  }

  /**
   * No stale rights: from any paired past, an instance created among several servers, under any
   * id, stays and stays its creator's alone throughout a run if and only if neither the creator
   * asks to delete it nor anybody while just one server is registered. Other servers may ask:
   * they are refused. It does not matter how often the id was used before or what happens to
   * other instances.
   */
  lemma NoStaleRights(s: State, server: int, objectId: int, asked: int, steps: seq<Step>, other: int, operation: int)
    requires Paired(s) && objectId != ACCESS_CONTROL_OBJECT_ID && objectId in s.objects
    requires Create(s, server, objectId, asked, true).1 == Created && |s.servers| > 1 && operation > 0
    requires Runs(Create(s, server, objectId, asked, true).0, steps)
    ensures var n, id := Create(s, server, objectId, asked, true).0, NewId(s, objectId, asked);
      && (CreatorsThroughout(n, steps, objectId, id, server) <==> AllSpare(n, steps, objectId, id, server))
      && (AllSpare(n, steps, objectId, id, server) ==>
            var end := After(n, steps);
            && Live(end, objectId, id)
            && (|end.servers| != 1 ==>
                  MayAccess(end, other, objectId, id, operation) ==
                  Some((other == server || server == 0) && Grants(READ + WRITE + EXECUTE + DELETE, operation))))
  {
    var n, id := Create(s, server, objectId, asked, true).0, NewId(s, objectId, asked);
    CreateKeepsPaired(s, server, objectId, asked, true);
    CreatedIsOwned(s, server, objectId, asked);
    assert IsCreators(n, objectId, id, server);
    RunKeepsRights(n, steps, objectId, id, server);
    if AllSpare(n, steps, objectId, id, server) {
      CreatorsRights(AcoFor(After(n, steps).acos, objectId, id).value, server, other, operation);
    }
  }

  // ---------------------------------------------------------------- the right to create

  /** The rights that a creation gives do not include creating. */
  lemma CreatorsCannotCreate(a: Aco, creator: int, t: int)
    requires CreatorsOnly(a, creator)
    ensures !LetsCreate(a, t)
  {
    assert a.acl[1..] == [];
    assert Lookup(a.acl[1..], t) == None && Lookup(a.acl[1..], 0) == None;
  }

  /** `MayCreate` is the same for every server and object. */
  ghost predicate SameCreators(s: State, n: State) {
    forall t, o :: MayCreate(n, t, o) == MayCreate(s, t, o)
  }

  /**
   * A successful creation leaves everyone's rights to create as they are if and only if its id
   * is not the one that marks whole objects or it makes no access-control instance. Otherwise
   * the new access-control instance is taken for the object's, and nobody may create any more.
   */
  lemma CreationAndCreateRights(s: State, server: int, objectId: int, asked: int)
    requires Create(s, server, objectId, asked, true).1 == Created
    ensures var n, id := Create(s, server, objectId, asked, true).0, NewId(s, objectId, asked);
      && (SameCreators(s, n) <==> id != MAX_ID || |s.servers| <= 1)
      && (id == MAX_ID && |s.servers| > 1 ==> forall t :: !MayCreate(n, t, objectId))
  {
    var n, id := Create(s, server, objectId, asked, true).0, NewId(s, objectId, asked);
    if |s.servers| > 1 {
      assert n.acos[1..] == s.acos;
      var a := n.acos[0].value;
      if id == MAX_ID {
        assert AcoFor(n.acos, objectId, MAX_ID) == Some(a);
        forall t ensures !MayCreate(n, t, objectId) {
          CreatorsCannotCreate(a, server, t);
        }
        assert MayCreate(s, server, objectId) && !MayCreate(n, server, objectId);
      } else {
        assert forall o :: AcoFor(n.acos, o, MAX_ID) == AcoFor(s.acos, o, MAX_ID);
      }
    } else {
      assert n.acos == s.acos;
    }
  }

  /** What the first access-control instance of an object lets a server do. */
  predicate FirstLetsCreate(holders: seq<Aco>, server: int) {
    holders != [] && LetsCreate(holders[0], server)
  }

  /** What the access-control instances of an object let a server do, after the first is gone. */
  predicate NextLetsCreate(holders: seq<Aco>, server: int) {
    |holders| > 1 && LetsCreate(holders[1], server)
  }

  /** The first two give every server the same. */
  ghost predicate NextGivesSame(holders: seq<Aco>) {
    forall t :: FirstLetsCreate(holders, t) == NextLetsCreate(holders, t)
  }

  lemma {:induction false} HoldersWithoutFirst(acos: seq<Binding<Aco>>, k: nat, objectId: int, instanceId: int)
    requires k < |acos| && Protects(acos[k].value, objectId, instanceId)
    requires forall j :: 0 <= j < k ==> !Protects(acos[j].value, objectId, instanceId)
    ensures Holders(acos, objectId, instanceId) != []
    ensures Holders(acos[..k] + acos[k + 1..], objectId, instanceId) == Holders(acos, objectId, instanceId)[1..]
  {
    if k == 0 {
      assert acos[..0] + acos[1..] == acos[1..];
    } else {
      var u := acos[..k] + acos[k + 1..];
      assert u[1..] == acos[1..][..k - 1] + acos[1..][k..];
      HoldersWithoutFirst(acos[1..], k - 1, objectId, instanceId);
    }
  }

  lemma DeletedHolders(s: State, server: int, objectId: int, instanceId: int)
    requires Paired(s) && Delete(s, server, objectId, instanceId).1 == Deleted
    ensures var n, h := Delete(s, server, objectId, instanceId).0, Holders(s.acos, objectId, MAX_ID);
      && (forall o :: o != objectId || instanceId != MAX_ID ==> AcoFor(n.acos, o, MAX_ID) == AcoFor(s.acos, o, MAX_ID))
      && (instanceId == MAX_ID ==> Holders(n.acos, objectId, MAX_ID) == if h == [] then [] else h[1..])
  {
    HoldersAre(s.acos, objectId, MAX_ID);
    var a := AcoFor(s.acos, objectId, instanceId);
    if a.Some? {
      var k := AcoForAt(s.acos, objectId, instanceId);
      UnbindAt(s.acos, k);
      forall o | o != objectId || instanceId != MAX_ID
        ensures AcoFor(s.acos[..k] + s.acos[k + 1..], o, MAX_ID) == AcoFor(s.acos, o, MAX_ID)
      {
        AcoForWithout(s.acos, k, o, MAX_ID);
      }
      if instanceId == MAX_ID {
        HoldersWithoutFirst(s.acos, k, objectId, MAX_ID);
      }
    }
  }

  lemma CreateFromHolders(s: State, server: int, objectId: int)
    ensures MayCreate(s, server, objectId) == FirstLetsCreate(Holders(s.acos, objectId, MAX_ID), server)
  {
    HoldersAre(s.acos, objectId, MAX_ID);
  }

  /**
   * Deleting an instance changes rights to create only if its id is the one that marks whole
   * objects; then the object's rights become those of its next access-control instance.
   */
  lemma DeletionAndCreateRights(s: State, server: int, objectId: int, instanceId: int)
    requires Paired(s) && Delete(s, server, objectId, instanceId).1 == Deleted
    ensures var n, h := Delete(s, server, objectId, instanceId).0, Holders(s.acos, objectId, MAX_ID);
      && (forall t, o :: o != objectId || instanceId != MAX_ID ==> MayCreate(n, t, o) == MayCreate(s, t, o))
      && (instanceId == MAX_ID ==> forall t :: MayCreate(n, t, objectId) == NextLetsCreate(h, t))
      && (SameCreators(s, n) <==> instanceId != MAX_ID || NextGivesSame(h))
  {
    var n, h := Delete(s, server, objectId, instanceId).0, Holders(s.acos, objectId, MAX_ID);
    DeletedHolders(s, server, objectId, instanceId);
    hide Delete, Holders, LetsCreate, Paired;
    forall t
      ensures MayCreate(s, t, objectId) == FirstLetsCreate(h, t)
      ensures instanceId == MAX_ID ==> MayCreate(n, t, objectId) == NextLetsCreate(h, t)
    {
      CreateFromHolders(s, t, objectId);
      CreateFromHolders(n, t, objectId);
    }
    forall t, o | o != objectId || instanceId != MAX_ID ensures MayCreate(n, t, o) == MayCreate(s, t, o) {
    }
    hide MayCreate, FirstLetsCreate, NextLetsCreate;
    if instanceId == MAX_ID && SameCreators(s, n) {
      forall t ensures FirstLetsCreate(h, t) == NextLetsCreate(h, t) {
        assert MayCreate(n, t, objectId) == MayCreate(s, t, objectId);
      }
    }
  }

  /**
   * The step moves rights to create: a successful creation under the id that marks whole objects
   * among several servers, or a granted deletion under it whose next access-control instance
   * gives other rights.
   */
  ghost predicate MovesCreateRights(s: State, step: Step) {
    match step
    case CreateStep(server, o, asked, complete) =>
      Create(s, server, o, asked, complete).1 == Created && NewId(s, o, asked) == MAX_ID && |s.servers| > 1
    case DeleteStep(server, o, i) =>
      && Delete(s, server, o, i).1 == Deleted && i == MAX_ID
      && !NextGivesSame(Holders(s.acos, o, MAX_ID))
    case _ => false
  }

  lemma StepKeepsCreateRights(s: State, step: Step)
    requires Paired(s) && Enabled(s, step)
    ensures SameCreators(s, Next(s, step)) <==> !MovesCreateRights(s, step)
  {
    hide SameCreators, NextGivesSame, Paired;
    match step
    case CreateStep(server, o, asked, complete) =>
      if Create(s, server, o, asked, complete).1 == Created {
        CreationAndCreateRights(s, server, o, asked);
      } else {
        SameAcos(s, Next(s, step));
      }
    case DeleteStep(server, o, i) =>
      if Delete(s, server, o, i).1 == Deleted {
        DeletionAndCreateRights(s, server, o, i);
      } else {
        SameAcos(s, Next(s, step));
      }
    case _ => SameAcos(s, Next(s, step));
  }

  lemma SameAcos(s: State, n: State)
    requires n.acos == s.acos
    ensures SameCreators(s, n)
  {
  }

  /** Everyone's rights to create are the same before the run and after each of its steps. */
  ghost predicate CreatorsStay(s: State, steps: seq<Step>)
    decreases |steps|
  {
    steps == [] || (SameCreators(s, Next(s, steps[0])) && CreatorsStay(Next(s, steps[0]), steps[1..]))
  }

  ghost predicate NeverMovesCreateRights(s: State, steps: seq<Step>)
    decreases |steps|
  {
    steps == [] || (!MovesCreateRights(s, steps[0]) && NeverMovesCreateRights(Next(s, steps[0]), steps[1..]))
  }

  /** Over every run rights to create stay as they are if and only if no step moves them. */
  lemma {:induction false} RunKeepsCreateRights(s: State, steps: seq<Step>)
    requires Paired(s) && Runs(s, steps)
    ensures CreatorsStay(s, steps) <==> NeverMovesCreateRights(s, steps)
    ensures NeverMovesCreateRights(s, steps) ==> SameCreators(s, After(s, steps))
    decreases |steps|
  {
    hide MayCreate, Paired, Enabled, Next, MovesCreateRights;
    if steps != [] {
      StepKeepsPaired(s, steps[0]);
      StepKeepsCreateRights(s, steps[0]);
      RunKeepsCreateRights(Next(s, steps[0]), steps[1..]);
    }
  }

  // ---------------------------------------------------------------- where the pairing has gaps

  /** Every instance has an access-control instance. */
  ghost predicate Guarded(s: State) {
    forall o, i :: o != ACCESS_CONTROL_OBJECT_ID && Live(s, o, i) ==> AcoFor(s.acos, o, i).Some?
  }

  /**
   * The step lists an instance without an access-control instance: a permitted creation under a
   * free id that is incomplete, or made with no second server there.
   */
  predicate ListsBare(s: State, step: Step) {
    && step.CreateStep? && MayCreate(s, step.server, step.objectId)
    && Lookup(Instances(s, step.objectId), step.asked).None?
    && NewId(s, step.objectId, step.asked) != MAX_ID
    && (!step.complete || |s.servers| <= 1)
  }

  /** What such a step leaves. */
  lemma BareIsUnguarded(s: State, step: Step)
    requires Paired(s) && ListsBare(s, step)
    requires step.objectId != ACCESS_CONTROL_OBJECT_ID && step.objectId in s.objects
    ensures var n, id := Next(s, step), NewId(s, step.objectId, step.asked);
      && Live(n, step.objectId, id) && AcoFor(n.acos, step.objectId, id) == None && n.servers == s.servers
      && !Guarded(n)
  {
    var n, o, id := Next(s, step), step.objectId, NewId(s, step.objectId, step.asked);
    LookupIsTop(Instances(s, o), step.asked);
    NextIdIsFresh(Instances(s, o));
    ListingKeepsPaired(s, o, id);
    assert Instances(n, o) == Instances(WithInstance(s, o, id), o);
    HoldersAre(s.acos, o, id);
    forall k | 0 <= k < |s.acos| ensures !Protects(s.acos[k].value, o, id) {
      assert NamesLive(s, s.acos[k].value);
    }
    assert Live(n, o, id);
  }

  /** A creation that lists no bare instance leaves every instance guarded. */
  lemma {:induction false} CreationKeepsGuarded(s: State, step: Step)
    requires Paired(s) && Guarded(s) && Enabled(s, step) && step.CreateStep? && !ListsBare(s, step)
    ensures Guarded(Next(s, step))
  {
    var n, at := Next(s, step), step.objectId;
    if MayCreate(s, step.server, at) && Lookup(Instances(s, at), step.asked).None? {
      var before, id := Instances(s, at), NewId(s, at, step.asked);
      assert Instances(n, at) == [Binding(id, Instance(id))] + before;
      assert step.complete && |s.servers| > 1 ==> n.acos[1..] == s.acos;
      forall o, i | o != ACCESS_CONTROL_OBJECT_ID && Live(n, o, i) ensures AcoFor(n.acos, o, i).Some? {
        LookupIsTop(before, i);
        LookupIsTop(Instances(n, at), i);
        assert Instances(n, at)[1..] == before;
        assert (o, i) == (at, id) || Live(s, o, i);
      }
    }
  }

  /** A step leaves every instance guarded if and only if it lists no bare one. */
  lemma StepKeepsGuarded(s: State, step: Step)
    requires Paired(s) && Guarded(s) && Enabled(s, step)
    ensures Guarded(Next(s, step)) <==> !ListsBare(s, step)
  {
    var n := Next(s, step);
    match step
    case CreateStep(_, _, _, _) =>
      if ListsBare(s, step) {
        BareIsUnguarded(s, step);
      } else {
        CreationKeepsGuarded(s, step);
      }
    case DeleteStep(server, o, i) =>
      if Delete(s, server, o, i).1 == Deleted {
        DeleteTakesBoth(s, server, o, i);
      }
    case _ =>
      assert forall o, i :: Live(n, o, i) <==> Live(s, o, i);
  }

  ghost predicate GuardedThroughout(s: State, steps: seq<Step>)
    decreases |steps|
  {
    Guarded(s) && (steps == [] || GuardedThroughout(Next(s, steps[0]), steps[1..]))
  }

  predicate NeverListsBare(s: State, steps: seq<Step>)
    decreases |steps|
  {
    steps == [] || (!ListsBare(s, steps[0]) && NeverListsBare(Next(s, steps[0]), steps[1..]))
  }

  /** The step's access check follows a NULL pointer. */
  predicate FollowsNull(s: State, step: Step) {
    match step
    case DeleteStep(server, o, i) => MayAccess(s, server, o, i, DELETE).None?
    case Check(server, o, i, operation) =>
      operation > 0 && o != ACCESS_CONTROL_OBJECT_ID && MayAccess(s, server, o, i, operation).None?
    case _ => false
  }

  predicate NeverFollowsNull(s: State, steps: seq<Step>)
    decreases |steps|
  {
    steps == [] || (!FollowsNull(s, steps[0]) && NeverFollowsNull(Next(s, steps[0]), steps[1..]))
  }

  /**
   * Over every run, all instances stay guarded if and only if no step lists a bare one; and then
   * no access check of the run follows a NULL pointer.
   */
  lemma {:induction false} RunKeepsGuarded(s: State, steps: seq<Step>)
    requires Paired(s) && Guarded(s) && Runs(s, steps)
    ensures GuardedThroughout(s, steps) <==> NeverListsBare(s, steps)
    ensures NeverListsBare(s, steps) ==> Guarded(After(s, steps)) && NeverFollowsNull(s, steps)
    decreases |steps|
  {
    hide Paired, Next, ListsBare, Live, Instances;
    if steps != [] {
      StepKeepsPaired(s, steps[0]);
      StepKeepsGuarded(s, steps[0]);
      if !ListsBare(s, steps[0]) {
        RunKeepsGuarded(Next(s, steps[0]), steps[1..]);
      }
    }
  }

  /** The step lists an instance under this id. */
  predicate ListsInstance(s: State, step: Step, objectId: int, instanceId: int) {
    && step.CreateStep? && step.objectId == objectId && MayCreate(s, step.server, objectId)
    && Lookup(Instances(s, objectId), step.asked).None?
    && NewId(s, objectId, step.asked) == instanceId
  }

  /** How the step that last listed the instance left it, told without the lists. */
  predicate LeftBare(s: State, steps: seq<Step>, objectId: int, instanceId: int, bare: bool)
    decreases |steps|
  {
    if steps == [] then bare
    else
      var now := if ListsInstance(s, steps[0], objectId, instanceId) then ListsBare(s, steps[0]) else bare;
      LeftBare(Next(s, steps[0]), steps[1..], objectId, instanceId, now)
  }

  lemma StepLeavesBare(s: State, step: Step, objectId: int, instanceId: int)
    requires Paired(s) && Enabled(s, step) && objectId != ACCESS_CONTROL_OBJECT_ID
    requires Live(Next(s, step), objectId, instanceId)
    ensures var n := Next(s, step);
      if ListsInstance(s, step, objectId, instanceId)
      then AcoFor(n.acos, objectId, instanceId).None? == ListsBare(s, step)
      else Live(s, objectId, instanceId) && AcoFor(n.acos, objectId, instanceId) == AcoFor(s.acos, objectId, instanceId)
  {
    var n := Next(s, step);
    match step
    case CreateStep(server, o, asked, complete) =>
      if ListsBare(s, step) {
        BareIsUnguarded(s, step);
      }
      if MayCreate(s, server, o) && Lookup(Instances(s, o), asked).None? {
        var before, id := Instances(s, o), NewId(s, o, asked);
        assert Instances(n, o) == [Binding(id, Instance(id))] + before;
        assert complete && |s.servers| > 1 ==> n.acos[1..] == s.acos;
        LookupIsTop(before, instanceId);
        LookupIsTop(Instances(n, o), instanceId);
        assert Instances(n, o)[1..] == before;
      }
    case DeleteStep(server, o, i) =>
      if Delete(s, server, o, i).1 == Deleted {
        DeleteTakesBoth(s, server, o, i);
      }
    case _ =>
  }

  lemma {:induction false} RunLeavesBare(s: State, steps: seq<Step>, objectId: int, instanceId: int, bare: bool)
    requires Paired(s) && Runs(s, steps) && objectId != ACCESS_CONTROL_OBJECT_ID
    requires Live(s, objectId, instanceId) ==> bare == AcoFor(s.acos, objectId, instanceId).None?
    requires Live(After(s, steps), objectId, instanceId)
    ensures AcoFor(After(s, steps).acos, objectId, instanceId).None? ==
            LeftBare(s, steps, objectId, instanceId, bare)
    decreases |steps|
  {
    hide Paired, Enabled, Next, ListsInstance, ListsBare, Live, AcoFor;
    if steps != [] {
      var n, step := Next(s, steps[0]), steps[0];
      StepKeepsPaired(s, step);
      var now := if ListsInstance(s, step, objectId, instanceId) then ListsBare(s, step) else bare;
      if Live(n, objectId, instanceId) {
        StepLeavesBare(s, step, objectId, instanceId);
      }
      RunLeavesBare(n, steps[1..], objectId, instanceId, now);
    }
  }

  /**
   * Which checks follow NULL after any run, bare instances listed or not: those of an instance
   * that was left bare when it was last listed, unless one server is registered.
   */
  lemma NullExactly(s: State, steps: seq<Step>, server: int, objectId: int, instanceId: int, operation: int)
    requires Paired(s) && Runs(s, steps) && objectId != ACCESS_CONTROL_OBJECT_ID && operation > 0
    requires Live(After(s, steps), objectId, instanceId)
    ensures var e := After(s, steps);
      MayAccess(e, server, objectId, instanceId, operation).None? <==>
      |e.servers| != 1 && LeftBare(s, steps, objectId, instanceId, AcoFor(s.acos, objectId, instanceId).None?)
  {
    RunLeavesBare(s, steps, objectId, instanceId, AcoFor(s.acos, objectId, instanceId).None?);
  }

  /** Reading an object checks each of its instances. */
  ghost predicate ObjectReadFollowsNull(s: State, server: int, objectId: int) {
    exists i :: Live(s, objectId, i) && MayAccess(s, server, objectId, i, READ).None?
  }

  /**
   * A bare instance is enough: whatever else is guarded, the checks of it, and every reading of
   * its object, follow NULL unless one server is registered; with one, they do as soon as a
   * second one registers.
   */
  lemma BareFollowsNull(s: State, step: Step, other: int, operation: int, second: int)
    requires Paired(s) && ListsBare(s, step) && operation > 0
    requires step.objectId != ACCESS_CONTROL_OBJECT_ID && step.objectId in s.objects
    ensures var n, o, id := Next(s, step), step.objectId, NewId(s, step.objectId, step.asked);
      && Enabled(n, Check(other, o, id, operation))
      && (FollowsNull(n, Check(other, o, id, operation)) <==> |s.servers| != 1)
      && (|s.servers| != 1 ==> ObjectReadFollowsNull(n, other, o))
      && (|s.servers| == 1 ==>
            && FollowsNull(Next(n, Register(second)), Check(other, o, id, operation))
            && ObjectReadFollowsNull(Next(n, Register(second)), other, o))
  {
    var n, o, id := Next(s, step), step.objectId, NewId(s, step.objectId, step.asked);
    BareIsUnguarded(s, step);
    var r := Next(n, Register(second));
    assert Live(r, o, id);
    if |s.servers| == 1 {
      assert MayAccess(r, other, o, id, READ).None?;
    } else {
      assert MayAccess(n, other, o, id, READ).None?;
    }
  }

  /**
   * A creation refused for a missing mandatory resource lists its instance all the same, without
   * an access-control instance, and keeps the lock: no creation, deletion, read or write can go
   * on. The checks that do without the lock follow a NULL pointer on that instance exactly
   * unless one server is registered.
   */
  lemma RefusedButListed(s: State, server: int, objectId: int, asked: int, other: int, operation: int)
    requires Paired(s) && objectId != ACCESS_CONTROL_OBJECT_ID && objectId in s.objects
    requires MayCreate(s, server, objectId) && !Live(s, objectId, asked)
    requires NewId(s, objectId, asked) != MAX_ID && operation > 0
    ensures var r, id := Create(s, server, objectId, asked, false), NewId(s, objectId, asked);
      && r.1 == NotAllowed && Live(r.0, objectId, id)
      && (forall step: Step :: step.CreateStep? || step.DeleteStep? || step.ReadOrWrite? ==> !Enabled(r.0, step))
      && Enabled(r.0, Check(other, objectId, id, operation))
      && (MayAccess(r.0, other, objectId, id, operation) == None <==> |s.servers| != 1)
  {
    LookupIsTop(Instances(s, objectId), asked);
    BareIsUnguarded(s, CreateStep(server, objectId, asked, false));
    BareFollowsNull(s, CreateStep(server, objectId, asked, false), other, operation, 0);
  }

  /** The handler keeps the lock: a creation that does not succeed, or a deletion, read or write that gives up. */
  predicate KeepsLock(s: State, step: Step) {
    match step
    case CreateStep(server, o, asked, complete) => Create(s, server, o, asked, complete).1 != Created
    case DeleteStep(server, o, i) => |s.servers| != 1 && AcoFor(s.acos, o, i).None?
    case ReadOrWrite(keepsLock) => keepsLock
    case _ => false
  }

  predicate NeverKeepsLock(s: State, steps: seq<Step>)
    decreases |steps|
  {
    steps == [] || (!KeepsLock(s, steps[0]) && NeverKeepsLock(Next(s, steps[0]), steps[1..]))
  }

  /** Once kept, the lock is never given back, and the tree stays as it is. */
  lemma {:induction false} LockedForever(s: State, steps: seq<Step>)
    requires !s.lockFree && Runs(s, steps)
    ensures var e := After(s, steps); !e.lockFree && e.objects == s.objects && e.acos == s.acos
    decreases |steps|
  {
    if steps != [] {
      LockedForever(Next(s, steps[0]), steps[1..]);
    }
  }

  /**
   * After any run the lock is free if and only if no handler of it kept the lock; the first one
   * that does ends all creations, deletions, reads and writes for good.
   */
  lemma {:induction false} LockFreeExactly(s: State, steps: seq<Step>)
    requires s.lockFree && Runs(s, steps)
    ensures After(s, steps).lockFree <==> NeverKeepsLock(s, steps)
    decreases |steps|
  {
    if steps != [] {
      var n := Next(s, steps[0]);
      assert n.lockFree <==> !KeepsLock(s, steps[0]);
      if n.lockFree {
        LockFreeExactly(n, steps[1..]);
      } else {
        LockedForever(n, steps[1..]);
      }
    }
  }

  /** So does every access to an instance made for the only server, once a second one registers. */
  lemma SecondServerFindsNoRights(s: State, server: int, objectId: int, asked: int, second: int, operation: int)
    requires Paired(s) && objectId != ACCESS_CONTROL_OBJECT_ID && objectId in s.objects
    requires |s.servers| == 1 && Create(s, server, objectId, asked, true).1 == Created
    requires NewId(s, objectId, asked) != MAX_ID && operation > 0
    ensures var n := Next(Create(s, server, objectId, asked, true).0, Register(second));
      forall t :: MayAccess(n, t, objectId, NewId(s, objectId, asked), operation) == None
  {
    forall t ensures MayAccess(Next(Create(s, server, objectId, asked, true).0, Register(second)), t, objectId,
                               NewId(s, objectId, asked), operation) == None {
      BareFollowsNull(s, CreateStep(server, objectId, asked, true), t, operation, second);
    }
  }

  /**
   * The id that marks whole objects is not reserved. Made for the only server and deleted, an
   * instance with that id takes the object's own access-control instance with it, and with it
   * everyone's right to create. Made among several servers it takes that right at once, and
   * its creator gives it back by deleting it.
   */
  lemma MarkedIdTakesCreation(s: State, server: int, objectId: int, other: int)
    requires Paired(s) && objectId != ACCESS_CONTROL_OBJECT_ID && objectId in s.objects
    requires Create(s, server, objectId, MAX_ID, true).1 == Created && |s.servers| >= 1
    ensures var n := Create(s, server, objectId, MAX_ID, true).0;
      var d := Delete(n, server, objectId, MAX_ID);
      && d.1 == Deleted
      && (|s.servers| == 1 && |Holders(s.acos, objectId, MAX_ID)| == 1 ==>
            MayCreate(n, other, objectId) == MayCreate(s, other, objectId) && !MayCreate(d.0, other, objectId))
      && (|s.servers| > 1 ==>
            !MayCreate(n, other, objectId) && MayCreate(d.0, other, objectId) == MayCreate(s, other, objectId))
  {
    var n := Create(s, server, objectId, MAX_ID, true).0;
    LookupIsTop(Instances(s, objectId), MAX_ID);
    CreateKeepsPaired(s, server, objectId, MAX_ID, true);
    CreationAndCreateRights(s, server, objectId, MAX_ID);
    HoldersAre(s.acos, objectId, MAX_ID);
    if |s.servers| > 1 {
      assert n.acos[1..] == s.acos;
      OnlyCreatorDeletes(n, objectId, MAX_ID, server, server);
      assert Holders(n.acos, objectId, MAX_ID) == [n.acos[0].value] + Holders(s.acos, objectId, MAX_ID);
    }
    DeletionAndCreateRights(n, server, objectId, MAX_ID);
  }

  // ---------------------------------------------------------------- what rights are

  /** The rights made of the operations chosen: each has a bit of its own, and there may be others above. */
  function Chosen(read: bool, write: bool, execute: bool, delete: bool, create: bool, above: nat): nat {
    (if read then 1 else 0) + (if write then 2 else 0) + (if execute then 4 else 0) + (if delete then 8 else 0)
    + (if create then 16 else 0) + 32 * above
  }

  /** Rights grant an operation if and only if it is among those they were made of. */
  lemma GrantsChosen(read: bool, write: bool, execute: bool, delete: bool, create: bool, above: nat)
    ensures var rights := Chosen(read, write, execute, delete, create, above);
      && (Grants(rights, READ) <==> read)
      && (Grants(rights, WRITE) <==> write)
      && (Grants(rights, EXECUTE) <==> execute)
      && (Grants(rights, DELETE) <==> delete)
      && (Grants(rights, CREATE) <==> create)
  {
    var r, w, e := if read then 1 else 0, if write then 1 else 0, if execute then 1 else 0;
    var d, c := if delete then 1 else 0, if create then 1 else 0;
    BitAt(0, 1, r, w + 2 * e + 4 * d + 8 * c + 16 * above);
    BitAt(r, 2, w, e + 2 * d + 4 * c + 8 * above);
    BitAt(r + 2 * w, 4, e, d + 2 * c + 4 * above);
    BitAt(r + 2 * w + 4 * e, 8, d, c + 2 * above);
    BitAt(r + 2 * w + 4 * e + 8 * d, 16, c, above);
  }

  lemma AtLeastOnce(divisor: int, times: int)
    requires divisor > 0
    ensures times >= 1 ==> divisor * times >= divisor
    ensures times <= -1 ==> divisor * times <= -divisor
  {
  }

  lemma Quotient(low: nat, divisor: nat, q: nat)
    requires low < divisor
    ensures (low + divisor * q) / divisor == q
  {
    var x := low + divisor * q;
    var n := x / divisor;
    assert x == divisor * n + x % divisor;
    assert divisor * (q - n) == x % divisor - low;
    AtLeastOnce(divisor, q - n);
  }

  lemma BitAt(low: nat, operation: nat, bit: nat, above: nat)
    requires low < operation && bit < 2
    ensures Grants(low + operation * (bit + 2 * above), operation) <==> bit == 1
  {
    Quotient(low, operation, bit + 2 * above);
  }

  /**
   * What the access check answers among several servers, or none: a server with an entry of its
   * own in the instance's list may do what the entry was made of, be it the owner or not; an owner
   * without one may do everything; any other server what the entry of server 0 was made of, and
   * nothing if there is none.
   */
  lemma EntriesDecide(s: State, server: int, objectId: int, instanceId: int,
                      read: bool, write: bool, execute: bool, delete: bool, create: bool, above: nat)
    requires |s.servers| != 1 && AcoFor(s.acos, objectId, instanceId).Some?
    ensures var a := AcoFor(s.acos, objectId, instanceId).value;
      var entry := if Lookup(a.acl, server).Some? then Lookup(a.acl, server) else Lookup(a.acl, 0);
      && (Lookup(a.acl, server).None? && a.owner == server ==>
            forall operation :: operation > 0 ==> MayAccess(s, server, objectId, instanceId, operation) == Some(true))
      && (Lookup(a.acl, server).None? && a.owner != server && entry.None? ==>
            forall operation :: operation > 0 ==> MayAccess(s, server, objectId, instanceId, operation) == Some(false))
      && ((Lookup(a.acl, server).Some? || a.owner != server)
          && entry == Some(Chosen(read, write, execute, delete, create, above)) ==>
            && MayAccess(s, server, objectId, instanceId, 1) == Some(read)
            && MayAccess(s, server, objectId, instanceId, 2) == Some(write)
            && MayAccess(s, server, objectId, instanceId, 4) == Some(execute)
            && MayAccess(s, server, objectId, instanceId, 8) == Some(delete))
  {
    GrantsChosen(read, write, execute, delete, create, above);
    hide Grants, Chosen;
  }

  /** The only server may do everything; without an access-control instance the check follows NULL. */
  lemma NoEntriesNeeded(s: State, server: int, objectId: int, instanceId: int, operation: int)
    requires operation > 0
    ensures |s.servers| == 1 ==> MayAccess(s, server, objectId, instanceId, operation) == Some(true)
    ensures |s.servers| != 1 && AcoFor(s.acos, objectId, instanceId).None? ==>
              MayAccess(s, server, objectId, instanceId, operation) == None
  {
  }

  /**
   * Who may create on an object, however many servers there are: whom its access-control instance,
   * the one for 66535, gives the right to, by an entry of their own or else by that of server 0.
   * Owning it is not enough.
   */
  lemma EntriesDecideCreation(s: State, server: int, objectId: int,
                              read: bool, write: bool, execute: bool, delete: bool, create: bool, above: nat)
    ensures AcoFor(s.acos, objectId, 66535).None? ==> !MayCreate(s, server, objectId)
    ensures AcoFor(s.acos, objectId, 66535).Some? ==>
      var acl := AcoFor(s.acos, objectId, 66535).value.acl;
      var entry := if Lookup(acl, server).Some? then Lookup(acl, server) else Lookup(acl, 0);
      && (entry.None? ==> !MayCreate(s, server, objectId))
      && (entry == Some(Chosen(read, write, execute, delete, create, above)) ==>
            (MayCreate(s, server, objectId) <==> create))
  {
    GrantsChosen(read, write, execute, delete, create, above);
    hide Grants, Chosen;
  }

  /** A creator may read, write, execute and delete what it made. */
  lemma CreatorMay(s: State, server: int, objectId: int, asked: int)
    requires Paired(s) && objectId != ACCESS_CONTROL_OBJECT_ID && objectId in s.objects
    requires Create(s, server, objectId, asked, true).1 == Created && |s.servers| > 1
    ensures var n, id := Create(s, server, objectId, asked, true).0, NewId(s, objectId, asked);
      && MayAccess(n, server, objectId, id, 1) == Some(true) && MayAccess(n, server, objectId, id, 2) == Some(true)
      && MayAccess(n, server, objectId, id, 4) == Some(true) && MayAccess(n, server, objectId, id, 8) == Some(true)
  {
    var n, id := Create(s, server, objectId, asked, true).0, NewId(s, objectId, asked);
    CreatedIsOwned(s, server, objectId, asked);
    assert Lookup(AcoFor(n.acos, objectId, id).value.acl, server) == Some(Chosen(true, true, true, true, false, 0));
    EntriesDecide(n, server, objectId, id, true, true, true, true, false, 0);
  }

  /** How each request for a creation is answered, and that a refusal before the listing changes no list. */
  lemma CreateAnswers(s: State, server: int, objectId: int, asked: int, complete: bool)
    ensures var r := Create(s, server, objectId, asked, complete);
      && (r.1 == Unauthorized <==> !MayCreate(s, server, objectId))
      && (r.1 == NotAllowed <==> MayCreate(s, server, objectId) && (Live(s, objectId, asked) || !complete))
      && (r.1 == Created <==> MayCreate(s, server, objectId) && !Live(s, objectId, asked) && complete)
      && (r.1 == Unauthorized || Live(s, objectId, asked) ==> r.0.objects == s.objects && r.0.acos == s.acos)
      && (r.1 == NotAllowed ==> r.0.acos == s.acos)
      && r.0.servers == s.servers
  {
    LookupIsTop(Instances(s, objectId), asked);
  }

  /** How each request for a deletion is answered, and that a refusal changes nothing. */
  lemma DeleteAnswers(s: State, server: int, objectId: int, instanceId: int)
    ensures var r, may := Delete(s, server, objectId, instanceId), MayAccess(s, server, objectId, instanceId, 8);
      && (r.1 == Deleted <==> may == Some(true))
      && (r.1 == Unauthorized <==> may == Some(false))
      && (r.1 == NullDereference <==> may == None)
      && (r.1 != Deleted ==> r.0.objects == s.objects && r.0.acos == s.acos)
      && (r.1 == Unauthorized ==> r.0 == s) && (r.1 == Deleted ==> r.0.lockFree == s.lockFree)
      && r.0.servers == s.servers
  {
  }

  /**
   * Requests get through: with the lock free those for creations, deletions, reads and writes do,
   * the checks of the other requests always, and servers come and go.
   */
  lemma RequestsGetThrough(s: State, server: int, objectId: int, asked: int, complete: bool, instanceId: int,
                           operation: int, keeps: bool)
    ensures Enabled(s, CreateStep(server, objectId, asked, complete)) <==>
            s.lockFree && objectId != 2 && objectId in s.objects
    ensures Enabled(s, DeleteStep(server, objectId, instanceId)) <==>
            s.lockFree && objectId != 2 && HasKey(Instances(s, objectId), instanceId)
    ensures Enabled(s, ReadOrWrite(keeps)) <==> s.lockFree
    ensures Enabled(s, Check(server, objectId, instanceId, operation)) <==>
            HasKey(Instances(s, objectId), instanceId) && operation > 0
    ensures Enabled(s, Register(server)) && Enabled(s, Deregister(server))
    ensures Lookup(Next(s, Register(server)).servers, server) == Some(server)
    ensures |Next(s, Register(server)).servers| == |s.servers| + 1
    ensures Next(Next(s, Register(server)), Deregister(server)) == s
  {
    UnbindUndoesAdd(s.servers, server, server);
  }

  // ---------------------------------------------------------------- the handlers

  /** `aco_for_instance`, and `aco_for_object` with `MAX_ID`. */
  method FindAco(acos: seq<Binding<Aco>>, objectId: int, instanceId: int) returns (a: Option<Aco>)
    ensures a == AcoFor(acos, objectId, instanceId)
  {
    for k := 0 to |acos|
      invariant AcoFor(acos, objectId, instanceId) == AcoFor(acos[k..], objectId, instanceId)
    {
      assert acos[k..][1..] == acos[k + 1..];
      if Protects(acos[k].value, objectId, instanceId) {
        return Some(acos[k].value);
      }
    }
    return None;
  }

  class Context {
    var servers: seq<Binding<int>>
    var objects: map<int, seq<Binding<Instance>>>
    var acos: seq<Binding<Aco>>
    /** The semaphore `object_tree_lock`; a handler that finds it taken waits. */
    var treeLockFree: bool

    ghost function Tree(): State
      reads this
    {
      State(servers, objects, acos, treeLockFree)
    }

    constructor (objects: map<int, seq<Binding<Instance>>>, acos: seq<Binding<Aco>>)
      ensures Tree() == State([], objects, acos, true)
    {
      this.servers := [];
      this.objects := objects;
      this.acos := acos;
      this.treeLockFree := true;
    }

    method CheckCreate(server: int, objectId: int) returns (r: bool)
      ensures r == MayCreate(Tree(), server, objectId)
    {
      var a := FindAco(acos, objectId, MAX_ID);
      if a.None? {
        return false;
      }
      var right := Lookup(a.value.acl, server);
      if right.None? {
        right := Lookup(a.value.acl, 0);
        if right.None? {
          return false;
        }
      }
      return Grants(right.value, CREATE);
    }

    /** None where the source follows a NULL pointer. */
    method CheckAccess(server: int, objectId: int, instanceId: int, operation: int) returns (r: Option<bool>)
      requires operation > 0
      ensures r == MayAccess(Tree(), server, objectId, instanceId, operation)
    {
      if |servers| == 1 {
        return Some(true);
      }
      var a := FindAco(acos, objectId, instanceId);
      if a.None? {
        return None;
      }
      var right := Lookup(a.value.acl, server);
      if right.None? {
        if a.value.owner == server {
          return Some(true);
        }
        right := Lookup(a.value.acl, 0);
        if right.None? {
          return Some(false);
        }
      }
      return Some(Grants(right.value, operation));
    }

    /** The lock is given back only after a creation that succeeds. */
    method OnInstanceCreate(server: int, objectId: int, asked: int, complete: bool)
      returns (status: Status, id: int)
      requires treeLockFree && objectId in objects
      modifies this
      ensures (Tree(), status) == Create(old(Tree()), server, objectId, asked, complete)
      ensures id == if MayCreate(old(Tree()), server, objectId) && Lookup(old(objects[objectId]), asked).None?
                    then NewId(old(Tree()), objectId, asked) else asked
      ensures treeLockFree <==> status == Created
    {
      treeLockFree := false;
      id := asked;
      var allowed := CheckCreate(server, objectId);
      if !allowed {
        return Unauthorized, id;
      }
      if Lookup(objects[objectId], asked).Some? {
        return NotAllowed, id;
      }
      if asked == -1 {
        id := MaxKey(objects[objectId]) + 1;
      }
      objects := objects[objectId := [Binding(id, Instance(id))] + objects[objectId]];
      if !complete {
        return NotAllowed, id;
      }
      if |servers| > 1 {
        var acoId := MaxKey(acos) + 1;
        var acl := [Binding(server, READ + WRITE + EXECUTE + DELETE)];
        acos := [Binding(acoId, Aco(acoId, objectId, id, server, acl))] + acos;
      }
      treeLockFree := true;
      status := Created;
    }

    /** `on_instance_delete` with `lwm2m_delete_instance`. */
    method OnInstanceDelete(server: int, objectId: int, instanceId: int) returns (status: Status)
      requires treeLockFree && objectId in objects && HasKey(objects[objectId], instanceId)
      modifies this
      ensures (Tree(), status) == Delete(old(Tree()), server, objectId, instanceId)
      ensures treeLockFree <==> status != NullDereference
    {
      treeLockFree := false;
      var access := CheckAccess(server, objectId, instanceId, DELETE);
      if access.None? {
        return NullDereference;
      }
      if !access.value {
        treeLockFree := true;
        return Unauthorized;
      }
      var a := FindAco(acos, objectId, instanceId);
      if a.Some? {
        acos := Unbind(acos, a.value.id);
      }
      objects := objects[objectId := Unbind(objects[objectId], instanceId)];
      treeLockFree := true;
      status := Deleted;
    }
  }
}
