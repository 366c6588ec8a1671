/**
 * The linked list that the client uses both as an ordered map and as a source of fresh ids.
 *
 * `Binding` sequences are the abstract value: the newest binding comes first and a key may be
 * bound several times. The class `List` is the pointer structure itself; each of its methods
 * is proved to compute one of the functions on binding sequences declared here, so the rest
 * of the project can keep its lists as binding sequences.
 */
module Lists {
  import opened Wrappers

  datatype Binding<+V> = Binding(key: int, value: V)

  /** The value of the newest binding of `key`. */
  function Lookup<V>(bs: seq<Binding<V>>, key: int): Option<V> {
    if bs == [] then None
    else if bs[0].key == key then Some(bs[0].value)
    else Lookup(bs[1..], key)
  }

  /** Drops the newest binding of `key`, if there is one. */
  function Unbind<V>(bs: seq<Binding<V>>, key: int): seq<Binding<V>> {
    if bs == [] then []
    else if bs[0].key == key then bs[1..]
    else [bs[0]] + Unbind(bs[1..], key)
  }

  function MaxKey<V>(bs: seq<Binding<V>>): int {
    if bs == [] then -1
    else
      var rest := MaxKey(bs[1..]);
      if bs[0].key > rest then bs[0].key else rest
  }

  /** Every value bound to `key`, newest first: what the list remembers about one key. */
  function Stack<V>(bs: seq<Binding<V>>, key: int): seq<V> {
    if bs == [] then []
    else (if bs[0].key == key then [bs[0].value] else []) + Stack(bs[1..], key)
  }

  predicate HasKey<V>(bs: seq<Binding<V>>, key: int) {
    exists i :: 0 <= i < |bs| && bs[i].key == key
  }

  predicate DistinctKeys<V>(bs: seq<Binding<V>>) {
    forall i, j :: 0 <= i < j < |bs| ==> bs[i].key != bs[j].key
  }

  function Reverse<V>(bs: seq<V>): (r: seq<V>)
    ensures |r| == |bs|
    ensures forall i :: 0 <= i < |bs| ==> r[i] == bs[|bs| - 1 - i]
  {
    if bs == [] then [] else Reverse(bs[1..]) + [bs[0]]
  }

  // ---------------------------------------------------------------- properties of the functions

  /** The greatest key is -1 or an actual key, and bounds every key. */
  lemma {:induction false} MaxKeyIsMaximum<V>(bs: seq<Binding<V>>)
    ensures MaxKey(bs) >= -1
    ensures forall i :: 0 <= i < |bs| ==> bs[i].key <= MaxKey(bs)
    ensures MaxKey(bs) == -1 || HasKey(bs, MaxKey(bs))
  {
    if bs != [] {
      MaxKeyIsMaximum(bs[1..]);
      var rest := MaxKey(bs[1..]);
      if bs[0].key <= rest && rest != -1 {
        var i :| 0 <= i < |bs[1..]| && bs[1..][i].key == rest;
        assert bs[i + 1].key == rest;
      } else if bs[0].key > rest {
        assert bs[0].key == MaxKey(bs);
      }
      forall i | 0 <= i < |bs| ensures bs[i].key <= MaxKey(bs) {
        if i > 0 {
          assert bs[i] == bs[1..][i - 1];
        }
      }
    }
  }

  /** Taking greatest key + 1 as the next id never collides with a key in use. */
  lemma NextIdIsFresh<V>(bs: seq<Binding<V>>)
    ensures !HasKey(bs, MaxKey(bs) + 1)
    ensures MaxKey(bs) + 1 >= 0
  {
    MaxKeyIsMaximum(bs);
  }

  lemma {:induction false} LookupIsTop<V>(bs: seq<Binding<V>>, key: int)
    ensures Lookup(bs, key) == if Stack(bs, key) == [] then None else Some(Stack(bs, key)[0])
    ensures HasKey(bs, key) <==> Lookup(bs, key).Some?
  {
    if bs != [] {
      LookupIsTop(bs[1..], key);
      if bs[0].key == key {
        assert HasKey(bs, key);
      } else if HasKey(bs, key) {
        var i :| 0 <= i < |bs| && bs[i].key == key;
        assert bs[1..][i - 1].key == key;
      }
    }
  }

  /** Removal pops exactly the newest binding of its key and touches no other key. */
  lemma {:induction false} UnbindPops<V>(bs: seq<Binding<V>>, key: int, other: int)
    ensures Stack(Unbind(bs, key), other) ==
            if other == key && Stack(bs, key) != [] then Stack(bs, key)[1..] else Stack(bs, other)
    ensures |Unbind(bs, key)| == if HasKey(bs, key) then |bs| - 1 else |bs|
  {
    LookupIsTop(bs, key);
    if bs != [] {
      LookupIsTop(bs[1..], key);
      UnbindPops(bs[1..], key, other);
      if bs[0].key != key {
        var u := Unbind(bs[1..], key);
        assert ([bs[0]] + u)[1..] == u;
      }
    }
  }

  /** Removal undoes the addition it follows. */
  lemma UnbindUndoesAdd<V>(bs: seq<Binding<V>>, key: int, value: V)
    ensures Unbind([Binding(key, value)] + bs, key) == bs
    ensures Lookup([Binding(key, value)] + bs, key) == Some(value)
  {
    assert ([Binding(key, value)] + bs)[1..] == bs;
  }

  /** Where removal cuts: everything but the position of the newest binding survives, in order. */
  lemma {:induction false} UnbindAt<V>(bs: seq<Binding<V>>, i: nat)
    requires i < |bs|
    requires forall j :: 0 <= j < i ==> bs[j].key != bs[i].key
    ensures Unbind(bs, bs[i].key) == bs[..i] + bs[i + 1..]
    ensures Lookup(bs, bs[i].key) == Some(bs[i].value)
  {
    if i > 0 {
      assert bs[1..][i - 1] == bs[i];
      UnbindAt(bs[1..], i - 1);
      assert bs[..i] + bs[i + 1..] == [bs[0]] + (bs[1..][..i - 1] + bs[1..][i..]);
    }
  }

  /** The position of the binding that a lookup finds. */
  lemma {:induction false} LookupAt<V>(bs: seq<Binding<V>>, key: int) returns (i: nat)
    requires Lookup(bs, key).Some?
    ensures i < |bs| && bs[i] == Binding(key, Lookup(bs, key).value)
    ensures forall j :: 0 <= j < i ==> bs[j].key != key
  {
    if bs[0].key == key {
      i := 0;
    } else {
      var k := LookupAt(bs[1..], key);
      i := k + 1;
      forall j | 0 <= j < i ensures bs[j].key != key {
        if j > 0 {
          assert bs[1..][j - 1] == bs[j];
        }
      }
    }
  }

  lemma {:induction false} UnbindAbsent<V>(bs: seq<Binding<V>>, key: int)
    requires !HasKey(bs, key)
    ensures Unbind(bs, key) == bs && Lookup(bs, key) == None
  {
    if bs != [] {
      assert bs[0].key != key;
      assert forall i :: 0 <= i < |bs[1..]| ==> bs[1..][i] == bs[i + 1];
      UnbindAbsent(bs[1..], key);
    }
  }

  /** Unless the key removed is the greatest one, the greatest key stands. */
  lemma {:induction false} UnbindKeepsMaxKey<V>(bs: seq<Binding<V>>, key: int)
    requires key != MaxKey(bs)
    ensures MaxKey(Unbind(bs, key)) == MaxKey(bs)
  {
    if bs != [] {
      var rest := bs[1..];
      if bs[0].key != key {
        var u := Unbind(rest, key);
        assert ([bs[0]] + u)[1..] == u;
        if key != MaxKey(rest) {
          UnbindKeepsMaxKey(rest, key);
        } else {
          UnbindBoundsMaxKey(rest, key);
        }
      }
    }
  }

  lemma {:induction false} UnbindBoundsMaxKey<V>(bs: seq<Binding<V>>, key: int)
    ensures MaxKey(Unbind(bs, key)) <= MaxKey(bs)
  {
    if bs != [] && bs[0].key != key {
      var u := Unbind(bs[1..], key);
      assert ([bs[0]] + u)[1..] == u;
      UnbindBoundsMaxKey(bs[1..], key);
    }
  }

  lemma {:induction false} UnbindKeepsDistinct<V>(bs: seq<Binding<V>>, key: int)
    requires DistinctKeys(bs)
    ensures DistinctKeys(Unbind(bs, key))
    ensures forall b :: b in Unbind(bs, key) <==> b in bs && b.key != key
    ensures forall k :: 0 <= k < |Unbind(bs, key)| ==> Unbind(bs, key)[k] in bs && Unbind(bs, key)[k].key != key
  {
    var u := Unbind(bs, key);
    if HasKey(bs, key) {
      var i :| 0 <= i < |bs| && bs[i].key == key;
      UnbindAt(bs, i);
      hide Unbind, HasKey;
      DropKeepsDistinct(bs, i);
    } else {
      UnbindAbsent(bs, key);
      forall b | b in bs ensures b.key != key {
        var j :| 0 <= j < |bs| && bs[j] == b;
      }
    }
  }

  lemma {:induction false} DropKeepsDistinct<V>(bs: seq<Binding<V>>, i: nat)
    requires DistinctKeys(bs) && i < |bs|
    ensures var u := bs[..i] + bs[i + 1..];
      && DistinctKeys(u)
      && (forall k :: 0 <= k < |u| ==> u[k] in bs && u[k].key != bs[i].key)
      && (forall b :: b in u <==> b in bs && b.key != bs[i].key)
  {
    var u := bs[..i] + bs[i + 1..];
    assert forall k :: 0 <= k < |u| ==> u[k] == bs[if k < i then k else k + 1];
    forall b | b in bs && b.key != bs[i].key ensures b in u {
      var j :| 0 <= j < |bs| && bs[j] == b;
      assert b == u[if j < i then j else j - 1];
    }
  }

  /** A found value is one of the bindings, and under distinct keys the only one of its key. */
  lemma {:induction false} LookupMember<V>(bs: seq<Binding<V>>, key: int)
    ensures Lookup(bs, key).Some? ==> Binding(key, Lookup(bs, key).value) in bs
    ensures DistinctKeys(bs) ==> forall b :: b in bs && b.key == key ==> Lookup(bs, key) == Some(b.value)
  {
    if bs != [] {
      LookupMember(bs[1..], key);
      if bs[0].key != key && Lookup(bs[1..], key).Some? {
        assert Binding(key, Lookup(bs[1..], key).value) in bs[1..];
      }
      if DistinctKeys(bs) {
        assert DistinctKeys(bs[1..]);
        forall b | b in bs && b.key == key ensures Lookup(bs, key) == Some(b.value) {
          var i :| 0 <= i < |bs| && bs[i] == b;
          if i > 0 {
            assert bs[1..][i - 1] == b;
          }
        }
      }
    }
  }

  /** Reversing a list of distinctly keyed bindings changes no lookup. */
  lemma ReverseKeepsLookup<V>(bs: seq<Binding<V>>, key: int)
    requires DistinctKeys(bs)
    ensures DistinctKeys(Reverse(bs))
    ensures Lookup(Reverse(bs), key) == Lookup(bs, key)
  {
    var r := Reverse(bs);
    forall i, j | 0 <= i < j < |r| ensures r[i].key != r[j].key {
      assert r[i] == bs[|bs| - 1 - i] && r[j] == bs[|bs| - 1 - j];
    }
    LookupMember(bs, key);
    LookupMember(r, key);
    if Lookup(bs, key).Some? {
      var b := Binding(key, Lookup(bs, key).value);
      var i :| 0 <= i < |bs| && bs[i] == b;
      assert r[|bs| - 1 - i] == b;
    }
  }

  // ---------------------------------------------------------------- whole runs

  datatype Op<+V> = Add(key: int, value: V) | Remove(key: int)

  /** The list after a run of operations on an empty list. */
  function Run<V>(ops: seq<Op<V>>): seq<Binding<V>> {
    if ops == [] then []
    else
      var before := Run(ops[..|ops| - 1]);
      match ops[|ops| - 1]
      case Add(k, v) => [Binding(k, v)] + before
      case Remove(k) => Unbind(before, k)
  }

  /**
   * What one key should remember, told without any list: an addition pushes its value, a
   * removal takes back the newest addition not yet taken back, other keys do not matter.
   */
  function Remembered<V>(ops: seq<Op<V>>, key: int): seq<V> {
    if ops == [] then []
    else
      var before := Remembered(ops[..|ops| - 1], key);
      match ops[|ops| - 1]
      case Add(k, v) => if k == key then [v] + before else before
      case Remove(k) => if k == key && before != [] then before[1..] else before
  }

  /** In every reachable state, looking a key up finds its most recently added live value. */
  lemma {:induction false} RunRemembers<V>(ops: seq<Op<V>>, key: int)
    ensures Stack(Run(ops), key) == Remembered(ops, key)
    ensures Lookup(Run(ops), key) ==
            if Remembered(ops, key) == [] then None else Some(Remembered(ops, key)[0])
  {
    if ops != [] {
      RunRemembers(ops[..|ops| - 1], key);
      match ops[|ops| - 1]
      case Add(k, v) =>
        var before := Run(ops[..|ops| - 1]);
        assert ([Binding(k, v)] + before)[1..] == before;
      case Remove(k) =>
        UnbindPops(Run(ops[..|ops| - 1]), k, key);
    }
    LookupIsTop(Run(ops), key);
  }

  /** The elements of a sequence without its element `i`. */
  lemma RestAt<T>(s: seq<T>, i: nat)
    requires i < |s|
    ensures var u := s[..i] + s[i + 1..];
      |u| == |s| - 1 && forall k :: 0 <= k < |u| ==> u[k] == s[if k < i then k else k + 1]
  {
  }

  // ---------------------------------------------------------------- the pointer structure

  class Elem<V> {
    const key: int
    var value: V
    var next: Elem?<V>

    constructor (key: int, value: V, next: Elem?<V>)
      ensures this.key == key && this.value == value && this.next == next
    {
      this.key := key;
      this.value := value;
      this.next := next;
    }
  }

  class List<V> {
    var first: Elem?<V>
    var size: int
    var greatestKey: int
    /** The semaphore `guard`: free or held. A method called while it is held blocks forever. */
    var guardFree: bool

    /** The chain of nodes from `first`, and the bindings it holds. */
    ghost var spine: seq<Elem<V>>
    ghost var contents: seq<Binding<V>>

    /** The node at position `i` of the chain; null after the last one. */
    ghost function At(i: nat): Elem?<V>
      reads `spine
    {
      if i < |spine| then spine[i] else null
    }

    ghost predicate Chained()
      reads `first, `spine, `contents, spine
    {
      && |contents| == |spine|
      && first == At(0)
      && (forall i, j :: 0 <= i < j < |spine| && j == i + 1 ==> spine[i].next == spine[j])
      && (spine != [] ==> spine[|spine| - 1].next == null)
      && (forall i :: 0 <= i < |spine| ==> contents[i] == Binding(spine[i].key, spine[i].value))
      && (forall i, j :: 0 <= i < j < |spine| ==> spine[i] != spine[j])
    }

    ghost predicate Valid()
      reads `first, `size, `greatestKey, `spine, `contents, spine
    {
      && Chained()
      && size == |contents|
      && greatestKey == MaxKey(contents)
    }

    constructor ()
      ensures Valid() && guardFree && contents == [] && fresh(spine)
    {
      first := null;
      size := 0;
      greatestKey := -1;
      guardFree := true;
      spine := [];
      contents := [];
    }

    method Contains(key: int) returns (found: bool)
      requires Valid() && guardFree
      ensures found <==> HasKey(contents, key)
    {
      var curr := first;
      ghost var i := 0;
      while curr != null
        invariant 0 <= i <= |spine|
        invariant curr == At(i)
        invariant forall j :: 0 <= j < i ==> contents[j].key != key
        decreases |spine| - i
      {
        if curr.key == key {
          assert contents[i].key == key;
          return true;
        }
        curr := curr.next;
        i := i + 1;
      }
      return false;
    }

    method Find(key: int) returns (r: Option<V>)
      requires Valid() && guardFree
      ensures r == Lookup(contents, key)
    {
      var curr := first;
      ghost var i := 0;
      while curr != null && curr.key != key
        invariant 0 <= i <= |spine|
        invariant curr == At(i)
        invariant forall j :: 0 <= j < i ==> contents[j].key != key
        decreases |spine| - i
      {
        curr := curr.next;
        i := i + 1;
      }
      if curr == null {
        UnbindAbsent(contents, key);
        r := None;
      } else {
        assert contents[i] == Binding(key, curr.value);
        UnbindAt(contents, i);
        r := Some(curr.value);
      }
    }

    method LinkFirst(key: int, value: V)
      requires Chained() && size == |contents|
      modifies `first, `size, `spine, `contents
      ensures Chained() && size == |contents|
      ensures contents == [Binding(key, value)] + old(contents)
      ensures |spine| > 0 && fresh(spine[0]) && spine[1..] == old(spine)
    {
      ghost var nodes, bindings := spine, contents;
      var elem := new Elem<V>(key, value, first);
      first := elem;
      size := size + 1;
      spine := [elem] + nodes;
      contents := [Binding(key, value)] + bindings;
      assert forall k :: 1 <= k < |spine| ==> spine[k] == nodes[k - 1] && contents[k] == bindings[k - 1];
    }

    method Add(key: int, value: V)
      requires Valid() && guardFree
      modifies this
      ensures Valid() && guardFree
      ensures contents == [Binding(key, value)] + old(contents)
      ensures |spine| > 0 && fresh(spine[0]) && spine[1..] == old(spine)
    {
      LinkFirst(key, value);
      assert contents[1..] == old(contents);
      if key > greatestKey {
        greatestKey := key;
      }
    }

    /** The scan for the greatest key after a removal. */
    method ScanGreatestKey() returns (greatest: int)
      requires Chained()
      ensures greatest == MaxKey(contents)
    {
      greatest := -1;
      var elem := first;
      ghost var i := 0;
      while elem != null
        invariant 0 <= i <= |spine|
        invariant elem == At(i)
        invariant greatest == MaxKey(contents[..i])
        decreases |spine| - i
      {
        MaxKeyAppend(contents[..i], contents[i]);
        assert contents[..i + 1] == contents[..i] + [contents[i]];
        if elem.key > greatest {
          greatest := elem.key;
        }
        elem := elem.next;
        i := i + 1;
      }
      assert contents[..i] == contents;
    }

    /** Takes node `i` out of the chain; `prev` is the node before it, null for the first one. */
    method Unlink(prev: Elem?<V>, ghost i: nat)
      requires Chained() && size == |contents| && i < |spine|
      requires prev == if i == 0 then null else spine[i - 1]
      modifies this`first, this`size, this`spine, this`contents, prev
      ensures Chained() && size == |contents|
      ensures spine == old(spine[..i] + spine[i + 1..])
      ensures contents == old(contents[..i] + contents[i + 1..])
    {
      assert spine[i].next == At(i + 1);
      if prev == null {
        first := first.next;
      } else {
        assert prev.next == spine[i];
        prev.next := prev.next.next;
      }
      size := size - 1;
      ghost var nodes, bindings := spine, contents;
      spine := nodes[..i] + nodes[i + 1..];
      contents := bindings[..i] + bindings[i + 1..];
      RestAt(nodes, i);
      RestAt(bindings, i);
      forall k | 0 <= k < |spine| - 1 ensures spine[k].next == spine[k + 1] {
        assert spine[k] == nodes[if k < i then k else k + 1];
        assert spine[k + 1] == nodes[if k + 1 < i then k + 1 else k + 2];
      }
    }

    /** The node before the newest binding of `key`, or the last node. */
    method FindPredecessor(key: int) returns (prev: Elem<V>, ghost i: nat)
      requires Chained() && first != null && first.key != key
      ensures 1 <= i <= |spine| && prev == spine[i - 1] && prev.next == At(i)
      ensures forall j :: 0 <= j < i ==> contents[j].key != key
      ensures prev.next != null ==> contents[i].key == key
    {
      prev := first;
      var next := first.next;
      i := 1;
      while next != null && next.key != key
        invariant 1 <= i <= |spine|
        invariant prev == spine[i - 1]
        invariant next == prev.next == At(i)
        invariant forall j :: 0 <= j < i ==> contents[j].key != key
        decreases |spine| - i
      {
        prev := prev.next;
        next := next.next;
        i := i + 1;
      }
    }

    method UnlinkKey(key: int)
      requires Chained() && size == |contents| && first != null
      modifies `first, `size, `spine, `contents, spine
      ensures Chained() && size == |contents|
      ensures contents == Unbind(old(contents), key)
    {
      if first.key == key {
        UnbindAt(contents, 0);
        Unlink(null, 0);
      } else {
        var prev, i := FindPredecessor(key);
        if prev.next != null {
          UnbindAt(contents, i);
          Unlink(prev, i);
        } else {
          UnbindAbsent(contents, key);
        }
      }
    }

    /** The part of a removal done while the guard is held. */
    method RemoveHeld(key: int)
      requires Valid() && first != null
      modifies `first, `size, `greatestKey, `spine, `contents, spine
      ensures Valid()
      ensures contents == Unbind(old(contents), key)
    {
      UnlinkKey(key);
      if key == greatestKey {
        greatestKey := ScanGreatestKey();
      } else {
        UnbindKeepsMaxKey(old(contents), key);
      }
    }

    /**
     * Removes the newest binding of `key`. On an empty list the guard stays held, so every
     * later call on this list blocks.
     */
    method Remove(key: int)
      requires Valid() && guardFree
      modifies this, spine
      ensures Valid()
      ensures contents == Unbind(old(contents), key)
      ensures guardFree <==> old(contents) != []
    {
      guardFree := false;
      if first != null {
        RemoveHeld(key);
        guardFree := true;
      }
    }
  }

  lemma {:induction false} MaxKeyAppend<V>(bs: seq<Binding<V>>, b: Binding<V>)
    ensures MaxKey(bs + [b]) == if b.key > MaxKey(bs) then b.key else MaxKey(bs)
  {
    if bs == [] {
      assert [b][1..] == [];
      assert bs + [b] == [b];
      assert MaxKey([b][1..]) == -1;
    } else {
      assert (bs + [b])[1..] == bs[1..] + [b];
      MaxKeyAppend(bs[1..], b);
    }
  }
}
