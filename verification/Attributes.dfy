/**
 * Notification attributes: the values a server attaches to an object, an instance or a
 * resource, how a write merges into what the server wrote before, and how `pmin` and `pmax`
 * are looked up through the levels.
 */
module Attributes {
  import opened Wrappers
  import opened Lists

  datatype Attributes = Attributes(
    pmin: Option<int>, pmax: Option<int>, gt: Option<real>, lt: Option<real>, stp: Option<real>, dim: Option<int>)

  const EMPTY_ATTR := Attributes(None, None, None, None, None, None)

  // ---------------------------------------------------------------- write-attributes

  datatype Write = Write(server: int, attributes: Attributes)

  function Over<T>(written: Option<T>, stored: Option<T>): Option<T> {
    if written.Some? then written else stored
  }

  function Merged(stored: Attributes, written: Attributes): Attributes {
    Attributes(
      Over(written.pmin, stored.pmin), Over(written.pmax, stored.pmax), Over(written.gt, stored.gt),
      Over(written.lt, stored.lt), Over(written.stp, stored.stp), Over(written.dim, stored.dim))
  }

  /** What is stored for `server` after a write, given what was stored for it before. */
  function AfterWrite(stored: Option<Attributes>, server: int, write: Write): Option<Attributes> {
    if write.server != server then stored
    else Some(Merged(if stored.Some? then stored.value else EMPTY_ATTR, write.attributes))
  }

  function AfterWrites(writes: seq<Write>, server: int): Option<Attributes> {
    if writes == [] then None
    else AfterWrite(AfterWrites(writes[..|writes| - 1], server), server, writes[|writes| - 1])
  }

  datatype Field = PMIN | PMAX | GT | LT | STP | DIM

  function Get(a: Attributes, f: Field): Option<real> {
    match f
    case PMIN => AsReal(a.pmin)
    case PMAX => AsReal(a.pmax)
    case GT => a.gt
    case LT => a.lt
    case STP => a.stp
    case DIM => AsReal(a.dim)
  }

  function AsReal(v: Option<int>): Option<real> {
    match v
    case None => None
    case Some(i) => Some(i as real)
  }

  /** The six attributes are all there is. */
  lemma FieldsDecide(a: Attributes, b: Attributes)
    requires forall f :: Get(a, f) == Get(b, f)
    ensures a == b
  {
    assert Get(a, PMIN) == Get(b, PMIN) && Get(a, PMAX) == Get(b, PMAX) && Get(a, GT) == Get(b, GT);
    assert Get(a, LT) == Get(b, LT) && Get(a, STP) == Get(b, STP) && Get(a, DIM) == Get(b, DIM);
  }

  predicate Sets(writes: seq<Write>, i: nat, server: int, f: Field, v: real)
    requires i < |writes|
  {
    writes[i].server == server && Get(writes[i].attributes, f) == Some(v)
  }

  predicate Mentions(w: Write, server: int, f: Field) {
    w.server == server && Get(w.attributes, f).Some?
  }

  /** Write `i` gives `server` the value `v`, and no later write of that server says otherwise. */
  predicate LastWriter(writes: seq<Write>, i: nat, server: int, f: Field, v: real) {
    && i < |writes|
    && Sets(writes, i, server, f, v)
    && (forall j :: i < j < |writes| ==> !Mentions(writes[j], server, f))
  }

  /**
   * After any run of writes by any servers, a server's stored attribute is the last value it
   * wrote for it, and unset exactly if it never wrote one; nothing is stored for a server that
   * never wrote.
   */
  lemma {:induction false} LastWriterWins(writes: seq<Write>, server: int, f: Field)
    ensures AfterWrites(writes, server).Some? <==> exists i :: 0 <= i < |writes| && writes[i].server == server
    ensures AfterWrites(writes, server).Some? ==>
      forall v :: Get(AfterWrites(writes, server).value, f) == Some(v) <==>
                  exists i: nat :: LastWriter(writes, i, server, f, v)
  {
    if writes != [] {
      var n := |writes| - 1;
      var init, last := writes[..n], writes[n];
      LastWriterWins(init, server, f);
      assert forall i :: 0 <= i < n ==> init[i] == writes[i];
      if last.server == server {
        assert writes[n].server == server;
        var before := AfterWrites(init, server);
        var stored := if before.Some? then before.value else EMPTY_ATTR;
        assert Get(Merged(stored, last.attributes), f) == Over(Get(last.attributes, f), Get(stored, f));
        if before.None? {
          assert forall i, v :: !LastWriter(init, i, server, f, v);
        }
      } else if AfterWrites(init, server).Some? {
        var i :| 0 <= i < |init| && init[i].server == server;
        assert writes[i].server == server;
      }
      forall v ensures (exists i: nat :: LastWriter(writes, i, server, f, v)) <==>
        (if Mentions(last, server, f) then Get(last.attributes, f) == Some(v)
         else exists i: nat :: LastWriter(init, i, server, f, v)) {
        LastWriterStep(writes, server, f, v);
      }
    }
  }

  lemma LastWriterStep(writes: seq<Write>, server: int, f: Field, v: real)
    requires writes != []
    ensures var n := |writes| - 1;
      (exists i: nat :: LastWriter(writes, i, server, f, v)) <==>
        (if Mentions(writes[n], server, f) then Get(writes[n].attributes, f) == Some(v)
         else exists i: nat :: LastWriter(writes[..n], i, server, f, v))
  {
    var n := |writes| - 1;
    var init := writes[..n];
    if Mentions(writes[n], server, f) {
      if Get(writes[n].attributes, f) == Some(v) {
        assert LastWriter(writes, n, server, f, v);
      }
    } else {
      forall i: nat ensures LastWriter(writes, i, server, f, v) <==> LastWriter(init, i, server, f, v) {
        if i < n && LastWriter(init, i, server, f, v) {
          forall j | i < j < |writes| ensures !Mentions(writes[j], server, f) {
            assert j < n ==> init[j] == writes[j];
          }
        }
        if LastWriter(writes, i, server, f, v) {
          forall j | i < j < n ensures !Mentions(init[j], server, f) {
            assert init[j] == writes[j];
          }
        }
      }
    }
  }

  // ---------------------------------------------------------------- lookup through the levels

  const LOOKUP_FULL := 2

  /** What one server stored at each level above and including a resource, and its own defaults. */
  datatype Levels = Levels(
    resource: Option<Attributes>, instance: Option<Attributes>, parent: Option<Attributes>,
    pmin: Option<int>, pmax: Option<int>)

  function OwnPmin(a: Option<Attributes>): Option<int> {
    if a.None? then None else a.value.pmin
  }

  function OwnPmax(a: Option<Attributes>): Option<int> {
    if a.None? then None else a.value.pmax
  }

  /** At the object level the stored `pmax` takes the place of `pmin`. */
  function ObjectPmin(l: Levels, lookup: int): Option<int> {
    var pmin := OwnPmax(l.parent);
    if pmin.None? && lookup == LOOKUP_FULL then l.pmin else pmin
  }

  function ObjectPmax(l: Levels, lookup: int): Option<int> {
    var pmax := OwnPmax(l.parent);
    if pmax.None? && lookup == LOOKUP_FULL then l.pmax else pmax
  }

  function InstancePmin(l: Levels, lookup: int): Option<int> {
    var pmin := OwnPmin(l.instance);
    if pmin.None? && lookup != 0 then ObjectPmin(l, lookup) else pmin
  }

  function InstancePmax(l: Levels, lookup: int): Option<int> {
    var pmax := OwnPmax(l.instance);
    if pmax.None? && lookup != 0 then ObjectPmax(l, lookup) else pmax
  }

  function ResourcePmin(l: Levels, lookup: int): Option<int> {
    var pmin := OwnPmin(l.resource);
    if pmin.None? && lookup != 0 then InstancePmin(l, lookup) else pmin
  }

  function ResourcePmax(l: Levels, lookup: int): Option<int> {
    var pmax := OwnPmax(l.resource);
    if pmax.None? && lookup != 0 then InstancePmax(l, lookup) else pmax
  }

  /** `v` is the first defined value of a chain, or unset because the chain has none. */
  predicate FirstDefined(chain: seq<Option<int>>, v: Option<int>) {
    match v
    case None => forall i :: 0 <= i < |chain| ==> chain[i].None?
    case Some(_) => exists i :: 0 <= i < |chain| && chain[i] == v && forall j :: 0 <= j < i ==> chain[j].None?
  }

  /** The levels a lookup from the resource visits: its own, all of the tree, or the default too. */
  function Visited(chain: seq<Option<int>>, lookup: int): seq<Option<int>>
    requires |chain| > 0
  {
    if lookup == 0 then chain[..1]
    else if lookup == LOOKUP_FULL then chain
    else chain[..|chain| - 1]
  }

  /** `pmax` is looked up as documented, from every level and with every kind of lookup. */
  lemma PmaxIsFirstDefined(l: Levels, lookup: int)
    ensures var r, i, o := OwnPmax(l.resource), OwnPmax(l.instance), OwnPmax(l.parent);
      && FirstDefined(Visited([r, i, o, l.pmax], lookup), ResourcePmax(l, lookup))
      && FirstDefined(Visited([i, o, l.pmax], lookup), InstancePmax(l, lookup))
      && FirstDefined(Visited([o, l.pmax], lookup), ObjectPmax(l, lookup))
  {
    var r, i, o := OwnPmax(l.resource), OwnPmax(l.instance), OwnPmax(l.parent);
    FirstOf(Visited([o, l.pmax], lookup), ObjectPmax(l, lookup));
    FirstOf(Visited([i, o, l.pmax], lookup), InstancePmax(l, lookup));
    FirstOf(Visited([r, i, o, l.pmax], lookup), ResourcePmax(l, lookup));
  }

  function First(chain: seq<Option<int>>): Option<int> {
    if chain == [] then None
    else if chain[0].Some? then chain[0]
    else First(chain[1..])
  }

  lemma {:induction false} FirstIsFirst(chain: seq<Option<int>>)
    ensures FirstDefined(chain, First(chain))
  {
    if chain != [] && chain[0].None? {
      FirstIsFirst(chain[1..]);
      if First(chain).Some? {
        var i :| 0 <= i < |chain[1..]| && chain[1..][i] == First(chain) &&
          forall j :: 0 <= j < i ==> chain[1..][j].None?;
        assert chain[i + 1] == First(chain);
        forall j | 0 <= j < i + 1 ensures chain[j].None? {
          assert j > 0 ==> chain[1..][j - 1] == chain[j];
        }
      } else {
        forall j | 0 <= j < |chain| ensures chain[j].None? {
          assert j > 0 ==> chain[1..][j - 1] == chain[j];
        }
      }
    }
  }

  lemma FirstOf(chain: seq<Option<int>>, v: Option<int>)
    requires |chain| <= 4
    requires v == (
      if |chain| > 0 && chain[0].Some? then chain[0]
      else if |chain| > 1 && chain[1].Some? then chain[1]
      else if |chain| > 2 && chain[2].Some? then chain[2]
      else if |chain| > 3 then chain[3]
      else None)
    ensures FirstDefined(chain, v)
  {
    match v {
      case None =>
      case Some(_) =>
        var i := if chain[0].Some? then 0 else if chain[1].Some? then 1 else if chain[2].Some? then 2 else 3;
        assert chain[i] == v;
    }
  }

  /** The documented `pmin` chains, from each level up. */
  function ObjectChain(l: Levels): seq<Option<int>> {
    [OwnPmin(l.parent), l.pmin]
  }

  function InstanceChain(l: Levels): seq<Option<int>> {
    [OwnPmin(l.instance)] + ObjectChain(l)
  }

  function ResourceChain(l: Levels): seq<Option<int>> {
    [OwnPmin(l.resource)] + InstanceChain(l)
  }

  /** What the server wrote for `pmin` and for `pmax` at the object level comes to the same in the lookup. */
  predicate ObjectLevelAgrees(l: Levels, lookup: int) {
    || OwnPmin(l.parent) == OwnPmax(l.parent)
    || (lookup == LOOKUP_FULL && OwnPmin(l.parent).None? && OwnPmax(l.parent) == l.pmin)
    || (lookup == LOOKUP_FULL && OwnPmax(l.parent).None? && OwnPmin(l.parent) == l.pmin)
  }

  /**
   * When each `pmin` lookup is the documented one, given that the object level reads `pmax`:
   * from the object if its two attributes come to the same; from below also if a lower level
   * decides, or if the lookup stays at its own level.
   */
  lemma PminExactDomain(l: Levels, lookup: int)
    ensures FirstDefined(Visited(ObjectChain(l), lookup), ObjectPmin(l, lookup)) <==> ObjectLevelAgrees(l, lookup)
    ensures FirstDefined(Visited(InstanceChain(l), lookup), InstancePmin(l, lookup)) <==>
            lookup == 0 || OwnPmin(l.instance).Some? || ObjectLevelAgrees(l, lookup)
    ensures FirstDefined(Visited(ResourceChain(l), lookup), ResourcePmin(l, lookup)) <==>
            lookup == 0 || OwnPmin(l.resource).Some? || OwnPmin(l.instance).Some? || ObjectLevelAgrees(l, lookup)
  {
    var o, i := Visited(ObjectChain(l), lookup), Visited(InstanceChain(l), lookup);
    var r := Visited(ResourceChain(l), lookup);
    FirstIsFirst(o);
    FirstIsFirst(i);
    FirstIsFirst(r);
    FirstDefinedIsUnique(o);
    FirstDefinedIsUnique(i);
    FirstDefinedIsUnique(r);
    if lookup != 0 {
      assert r[1..] == i && i[1..] == o;
      assert o[1..] == if lookup == LOOKUP_FULL then [l.pmin] else [];
      assert First([l.pmin]) == l.pmin;
    } else {
      assert o[1..] == [] && i[1..] == [] && r[1..] == [];
    }
  }

  /** A chain has one first defined value. */
  lemma FirstDefinedIsUnique(chain: seq<Option<int>>)
    ensures forall a, b :: FirstDefined(chain, a) && FirstDefined(chain, b) ==> a == b
  {
    forall a, b | FirstDefined(chain, a) && FirstDefined(chain, b) ensures a == b {
      if a.Some? && b.Some? {
        var i :| 0 <= i < |chain| && chain[i] == a && forall j :: 0 <= j < i ==> chain[j].None?;
        var k :| 0 <= k < |chain| && chain[k] == b && forall j :: 0 <= j < k ==> chain[j].None?;
      }
    }
  }

  /** No `pmin` a server writes at the object level is ever seen by a lookup. */
  lemma ObjectPminIsIgnored(l: Levels, p: Option<int>, lookup: int)
    requires l.parent.Some?
    ensures var other := l.(parent := Some(l.parent.value.(pmin := p)));
      && ObjectPmin(other, lookup) == ObjectPmin(l, lookup)
      && InstancePmin(other, lookup) == InstancePmin(l, lookup)
      && ResourcePmin(other, lookup) == ResourcePmin(l, lookup)
  {
  }

  /** A `pmin` of 5 written for an object: every lookup should find it, and none does. */
  lemma ObjectPminIsLost(lookup: int)
    requires lookup != 0
    ensures var l := Levels(None, None, Some(EMPTY_ATTR.(pmin := Some(5))), None, None);
      && FirstDefined(Visited(ObjectChain(l), lookup), Some(5)) && ObjectPmin(l, lookup) == None
      && FirstDefined(Visited(InstanceChain(l), lookup), Some(5)) && InstancePmin(l, lookup) == None
      && FirstDefined(Visited(ResourceChain(l), lookup), Some(5)) && ResourcePmin(l, lookup) == None
  {
    var l := Levels(None, None, Some(EMPTY_ATTR.(pmin := Some(5))), None, None);
    assert Visited(ObjectChain(l), lookup)[0] == Some(5);
    assert Visited(InstanceChain(l), lookup)[1] == Some(5);
    assert Visited(ResourceChain(l), lookup)[2] == Some(5);
  }

  // ---------------------------------------------------------------- the stored lists

  /** One `lwm2m_attributes` record, merged into in place. */
  class Stored {
    var pmin: Option<int>
    var pmax: Option<int>
    var gt: Option<real>
    var lt: Option<real>
    var stp: Option<real>
    var dim: Option<int>

    constructor Empty()
      ensures Value() == EMPTY_ATTR
    {
      pmin, pmax, gt, lt, stp, dim := None, None, None, None, None, None;
    }

    function Value(): Attributes
      reads this
    {
      Attributes(pmin, pmax, gt, lt, stp, dim)
    }

    method Merge(written: Attributes)
      modifies this
      ensures Value() == Merged(old(Value()), written)
    {
      if written.dim.Some? {
        dim := written.dim;
      }
      if written.pmax.Some? {
        pmax := written.pmax;
      }
      if written.pmin.Some? {
        pmin := written.pmin;
      }
      if written.gt.Some? {
        gt := written.gt;
      }
      if written.lt.Some? {
        lt := written.lt;
      }
      if written.stp.Some? {
        stp := written.stp;
      }
    }
  }

  /** The `attributes` list of an object, an instance or a resource: server id to record. */
  class AttributeList {
    var l: seq<Binding<Stored>>

    ghost predicate Valid()
      reads this
    {
      && DistinctKeys(l)
      && (forall i, j :: 0 <= i < j < |l| ==> l[i].value != l[j].value)
    }

    constructor ()
      ensures Valid() && l == []
      ensures forall k :: For(k) == None
    {
      l := [];
    }

    ghost function RecordOf(server: int): set<Stored>
      reads this
    {
      if Lookup(l, server).Some? then {Lookup(l, server).value} else {}
    }

    /** The record a server finds here. */
    function For(server: int): Option<Attributes>
      reads this, RecordOf(server)
    {
      var found := Lookup(l, server);
      if found.None? then None else Some(found.value.Value())
    }

    /** The three handlers of write-attributes requests, which differ only in the list they find. */
    method OnWriteAttributes(server: int, written: Attributes)
      requires Valid()
      modifies this, set b | b in l :: b.value
      ensures Valid()
      ensures forall k :: For(k) == AfterWrite(old(For(k)), k, Write(server, written))
      ensures forall b :: b in l ==> b in old(l) || fresh(b.value)
    {
      var found := Lookup(l, server);
      if found.None? {
        LookupIsTop(l, server);
        var added := new Stored.Empty();
        forall k | k != server ensures Lookup([Binding(server, added)] + l, k) == Lookup(l, k) {
          UnbindUndoesAdd(l, server, added);
        }
        l := [Binding(server, added)] + l;
        assert l[0].value == added && l[1..] == old(l);
        added.Merge(written);
        forall k | k != server ensures For(k) == old(For(k)) {
          LookupMember(old(l), k);
        }
      } else {
        LookupMember(l, server);
        found.value.Merge(written);
        forall k | k != server ensures For(k) == old(For(k)) {
          LookupMember(l, k);
          if Lookup(l, k).Some? {
            var i :| 0 <= i < |l| && l[i] == Binding(k, Lookup(l, k).value);
            var j :| 0 <= j < |l| && l[j] == Binding(server, found.value);
          }
        }
      }
    }
  }
}
