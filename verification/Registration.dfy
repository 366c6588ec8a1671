/**
 * The registration payload, a list of links to objects and instances, and what an update
 * sends of it.
 */
module Registration {
  import opened Wrappers
  import opened Text

  /** An object of the tree and the ids of its instances, both in list order. */
  datatype Entry = Entry(id: int, instances: seq<int>)

  type Tree = seq<Entry>

  datatype Link = Link(objectId: int, instanceId: Option<int>)

  predicate DistinctIds(tree: Tree) {
    forall i, j :: 0 <= i < j < |tree| ==> tree[i].id != tree[j].id
  }

  /** The links of two neighbours run together: one id, and instances in both. */
  predicate RunTogether(a: Entry, b: Entry) {
    a.id == b.id && a.instances != [] && b.instances != []
  }

  /** No two neighbours' links run together. */
  predicate Separate(tree: Tree) {
    forall j :: 0 < j < |tree| ==> !RunTogether(tree[j - 1], tree[j])
  }

  /** The tree with neighbours whose links run together made one. */
  function Merged(tree: Tree): Tree {
    if tree == [] then []
    else
      var rest := Merged(tree[1..]);
      if rest != [] && RunTogether(tree[0], rest[0])
      then [Entry(rest[0].id, tree[0].instances + rest[0].instances)] + rest[1..]
      else [tree[0]] + rest
  }

  /** One link for every instance, or one for an object without instances. */
  function Links(tree: Tree): seq<Link> {
    if tree == [] then [] else LinksOf(tree[0]) + Links(tree[1..])
  }

  function LinksOf(e: Entry): seq<Link> {
    if e.instances == [] then [Link(e.id, None)]
    else seq(|e.instances|, k requires 0 <= k < |e.instances| => Link(e.id, Some(e.instances[k])))
  }

  function LinkText(l: Link): string {
    "</" + Decimal(l.objectId) + (if l.instanceId.None? then "" else "/" + Decimal(l.instanceId.value)) + ">"
  }

  function Texts(links: seq<Link>): (texts: seq<string>)
    ensures |texts| == |links|
    ensures forall k :: 0 <= k < |links| ==> texts[k] == LinkText(links[k])
  {
    seq(|links|, k requires 0 <= k < |links| => LinkText(links[k]))
  }

  function Payload(tree: Tree): string {
    Joined(Texts(Links(tree)), ',')
  }

  // ---------------------------------------------------------------- printing

  method ObjectWithInstances(e: Entry) returns (message: string)
    requires e.instances != []
    ensures message == Joined(Texts(LinksOf(e)), ',')
  {
    hide Joined, Decimal, LinksOf, Texts;
    message := "";
    ghost var texts := Texts(LinksOf(e));
    TextsOfInstances(e);
    NothingJoined(',');
    assert texts[..0] == [];
    for k := 0 to |e.instances|
      invariant message == Joined(texts[..k], ',') + (if 0 < k < |e.instances| then "," else "")
    {
      var buf := "</" + Decimal(e.id) + "/" + Decimal(e.instances[k]) + ">";
      JoinNext(texts, k, buf);
      message := message + buf;
      if k + 1 < |e.instances| {
        message := message + ",";
      }
    }
    assert texts[..|e.instances|] == texts;
  }

  lemma TextsOfInstances(e: Entry)
    requires e.instances != []
    ensures var texts := Texts(LinksOf(e));
      && |texts| == |e.instances|
      && forall k :: 0 <= k < |texts| ==> texts[k] == "</" + Decimal(e.id) + "/" + Decimal(e.instances[k]) + ">"
  {
    hide Decimal;
    var links := LinksOf(e);
    forall k | 0 <= k < |links|
      ensures LinkText(links[k]) == "</" + Decimal(e.id) + "/" + Decimal(e.instances[k]) + ">"
    {
      assert links[k] == Link(e.id, Some(e.instances[k]));
      assert LinkText(links[k]) == "</" + Decimal(e.id) + ("/" + Decimal(e.instances[k])) + ">";
    }
  }

  lemma JoinNext(texts: seq<string>, k: nat, buf: string)
    requires k < |texts| && buf == texts[k]
    ensures Joined(texts[..k], ',') + (if k > 0 then "," else "") + buf == Joined(texts[..k + 1], ',')
  {
    assert texts[..k + 1] == texts[..k] + [texts[k]];
    if k > 0 {
      JoinedAppend(texts[..k], texts[k], ',');
    }
  }

  method SerializeTree(tree: Tree) returns (message: string)
    ensures message == Payload(tree)
  {
    hide Payload, Joined, Decimal;
    message := "";
    assert Payload(tree[..0]) == "" by {
      EmptyPayload(tree);
    }
    for k := 0 to |tree|
      invariant message == Payload(tree[..k]) + (if 0 < k < |tree| then "," else "")
    {
      var e := tree[k];
      var buffer;
      if |e.instances| == 0 {
        buffer := "</" + Decimal(e.id) + ">";
        OneLink(e);
      } else {
        buffer := ObjectWithInstances(e);
      }
      PayloadNext(tree, k);
      message := message + buffer;
      if k + 1 < |tree| {
        message := message + ",";
      }
    }
    assert tree[..|tree|] == tree;
  }

  lemma EmptyPayload(tree: Tree)
    ensures Payload(tree[..0]) == ""
  {
  }

  lemma OneLink(e: Entry)
    requires e.instances == []
    ensures Joined(Texts(LinksOf(e)), ',') == "</" + Decimal(e.id) + ">"
  {
    hide Decimal;
    assert Texts(LinksOf(e)) == [LinkText(Link(e.id, None))];
  }

  lemma PayloadNext(tree: Tree, k: nat)
    requires k < |tree|
    ensures Payload(tree[..k + 1]) ==
            Payload(tree[..k]) + (if k > 0 then "," else "") + Joined(Texts(LinksOf(tree[k])), ',')
  {
    hide Joined, LinkText, LinksOf;
    var done := tree[..k];
    assert tree[..k + 1] == done + [tree[k]];
    LinksAppend(done, tree[k]);
    var a, b := Texts(Links(done)), Texts(LinksOf(tree[k]));
    assert Texts(Links(tree[..k + 1])) == a + b;
    LinksAreSome(done);
    LinksOfSome(tree[k]);
    if k > 0 {
      JoinedConcat(a, b, ',');
    } else {
      NothingJoined(',');
      assert a == [] && a + b == b;
    }
  }

  lemma {:induction false} LinksAppend(tree: Tree, e: Entry)
    ensures Links(tree + [e]) == Links(tree) + LinksOf(e)
  {
    if tree == [] {
      assert (tree + [e])[1..] == [];
    } else {
      assert (tree + [e])[1..] == tree[1..] + [e];
      LinksAppend(tree[1..], e);
    }
  }

  lemma LinksOfSome(e: Entry)
    ensures LinksOf(e) != []
  {
  }

  lemma NothingJoined(d: char)
    ensures Joined([], d) == ""
  {
  }

  lemma LinksAreSome(tree: Tree)
    ensures Links(tree) == [] <==> tree == []
  {
  }

  lemma {:induction false} JoinedConcat(a: seq<string>, b: seq<string>, d: char)
    requires a != [] && b != []
    ensures Joined(a + b, d) == Joined(a, d) + [d] + Joined(b, d)
  {
    if |a| == 1 {
      assert (a + b)[1..] == b;
    } else {
      assert (a + b)[1..] == a[1..] + b;
      JoinedConcat(a[1..], b, d);
    }
  }

  // ---------------------------------------------------------------- the payload determines the tree

  /** The ids inside the brackets of a link. */
  function LinkIds(l: Link): seq<string> {
    [Decimal(l.objectId)] + if l.instanceId.None? then [] else [Decimal(l.instanceId.value)]
  }

  lemma LinkTextIsJoined(l: Link)
    ensures LinkText(l) == "</" + Joined(LinkIds(l), '/') + ">"
    ensures Clean(LinkText(l), ',')
  {
    var ids := LinkIds(l);
    DecimalIsClean(l.objectId, ',');
    if l.instanceId.Some? {
      DecimalIsClean(l.instanceId.value, ',');
      assert ids[1..] == [Decimal(l.instanceId.value)];
    }
  }

  lemma LinkTextInjective(a: Link, b: Link)
    requires LinkText(a) == LinkText(b)
    ensures a == b
  {
    LinkTextIsJoined(a);
    LinkTextIsJoined(b);
    var s, t := Joined(LinkIds(a), '/'), Joined(LinkIds(b), '/');
    assert |s| == |t| && LinkText(a)[2..2 + |s|] == s && LinkText(b)[2..2 + |t|] == t;
    LinkIdsClean(a);
    LinkIdsClean(b);
    TokensOfJoined(LinkIds(a), '/');
    TokensOfJoined(LinkIds(b), '/');
    assert LinkIds(a)[0] == LinkIds(b)[0];
    DecimalReadsBack(a.objectId);
    DecimalReadsBack(b.objectId);
    if a.instanceId.Some? {
      assert LinkIds(a)[1] == LinkIds(b)[1];
      DecimalReadsBack(a.instanceId.value);
      DecimalReadsBack(b.instanceId.value);
    }
  }

  lemma LinkIdsClean(l: Link)
    ensures forall k :: 0 <= k < |LinkIds(l)| ==> Clean(LinkIds(l)[k], '/')
  {
    DecimalIsClean(l.objectId, '/');
    if l.instanceId.Some? {
      DecimalIsClean(l.instanceId.value, '/');
    }
  }

  lemma PayloadDeterminesLinks(a: Tree, b: Tree)
    requires Payload(a) == Payload(b)
    ensures Links(a) == Links(b)
  {
    var la, lb := Links(a), Links(b);
    forall k | 0 <= k < |la| ensures Clean(Texts(la)[k], ',') {
      LinkTextIsJoined(la[k]);
    }
    forall k | 0 <= k < |lb| ensures Clean(Texts(lb)[k], ',') {
      LinkTextIsJoined(lb[k]);
    }
    TokensOfJoined(Texts(la), ',');
    TokensOfJoined(Texts(lb), ',');
    forall k | 0 <= k < |la| ensures la[k] == lb[k] {
      assert Texts(la)[k] == Texts(lb)[k];
      LinkTextInjective(la[k], lb[k]);
    }
  }

  lemma LinksBegin(tree: Tree)
    requires tree != []
    ensures var n := |LinksOf(tree[0])|;
      && 0 < n <= |Links(tree)|
      && Links(tree)[..n] == LinksOf(tree[0]) && Links(tree)[n..] == Links(tree[1..])
      && (forall k :: 0 <= k < n ==>
            Links(tree)[k].objectId == tree[0].id && (Links(tree)[k].instanceId.None? <==> tree[0].instances == []))
  {
  }

  /** In a separate tree the first object's links end where another link of its kind does not follow. */
  lemma {:induction false} LinksEnd(tree: Tree)
    requires tree != [] && Separate(tree) && tree[0].instances != []
    ensures var l, n := Links(tree), |LinksOf(tree[0])|;
      n < |l| ==> l[n].objectId != tree[0].id || l[n].instanceId.None?
  {
    LinksBegin(tree);
    if |tree| > 1 {
      LinksBegin(tree[1..]);
      assert Links(tree)[|LinksOf(tree[0])|] == Links(tree[1..])[0];
      assert !RunTogether(tree[0], tree[1]);
    }
  }

  lemma {:induction false} LinksDetermineTree(a: Tree, b: Tree)
    requires Separate(a) && Separate(b) && Links(a) == Links(b)
    ensures a == b
  {
    if a == [] || b == [] {
      LinksAreSome(a);
      LinksAreSome(b);
    } else {
      LinksBegin(a);
      LinksBegin(b);
      var l := Links(a);
      var m, n := |LinksOf(a[0])|, |LinksOf(b[0])|;
      assert l[0].objectId == a[0].id == b[0].id && (a[0].instances == [] <==> b[0].instances == []);
      if a[0].instances != [] {
        LinksEnd(a);
        LinksEnd(b);
      }
      assert m == n;
      SameEntry(a[0], b[0]);
      LinksDetermineTree(a[1..], b[1..]);
      assert a == [a[0]] + a[1..] && b == [b[0]] + b[1..];
    }
  }

  lemma SameEntry(a: Entry, b: Entry)
    requires a.id == b.id && LinksOf(a) == LinksOf(b)
    ensures a == b
  {
    assert LinksOf(a)[0] == LinksOf(b)[0];
    forall k | 0 <= k < |a.instances| && k < |b.instances| ensures a.instances[k] == b.instances[k] {
      assert LinksOf(a)[k] == LinksOf(b)[k];
    }
  }

  lemma {:induction false} SeparateCons(e: Entry, rest: Tree)
    requires Separate(rest)
    requires rest != [] ==> !RunTogether(e, rest[0])
    ensures Separate([e] + rest)
  {
    var tree := [e] + rest;
    forall j | 0 < j < |tree| ensures !RunTogether(tree[j - 1], tree[j]) {
      assert tree[j] == rest[j - 1] && (j > 1 ==> tree[j - 1] == rest[j - 2]);
    }
  }

  lemma LinksCons(e: Entry, rest: Tree)
    ensures Links([e] + rest) == LinksOf(e) + Links(rest)
  {
    assert ([e] + rest)[1..] == rest;
  }

  /** The links of two entries of one id are those of the entry with the instances of both. */
  lemma {:induction false} LinksOfBoth(a: Entry, b: Entry)
    requires RunTogether(a, b)
    ensures LinksOf(Entry(b.id, a.instances + b.instances)) == LinksOf(a) + LinksOf(b)
  {
  }

  lemma {:induction false} MergeFirst(e: Entry, rest: Tree)
    requires rest != [] && RunTogether(e, rest[0]) && Separate(rest)
    ensures var both := Entry(rest[0].id, e.instances + rest[0].instances);
      && Separate([both] + rest[1..])
      && Links([both] + rest[1..]) == LinksOf(e) + Links(rest)
  {
    var both, others := Entry(rest[0].id, e.instances + rest[0].instances), rest[1..];
    assert rest == [rest[0]] + others;
    SeparateCons(both, others);
    LinksOfBoth(e, rest[0]);
    LinksCons(both, others);
    LinksCons(rest[0], others);
    hide Links, LinksOf, Separate;
    var a, b, c := LinksOf(e), LinksOf(rest[0]), Links(others);
    assert (a + b) + c == a + (b + c);
  }

  /** Merging separates a tree and leaves its links as they are. */
  lemma {:induction false} MergedIsSeparate(tree: Tree)
    ensures Separate(Merged(tree)) && Links(Merged(tree)) == Links(tree)
    ensures Merged(tree) == [] <==> tree == []
  {
    if tree != [] {
      var e, rest := tree[0], Merged(tree[1..]);
      MergedIsSeparate(tree[1..]);
      assert Links(tree) == LinksOf(e) + Links(rest);
      hide Links, LinksOf, Separate;
      if rest != [] && RunTogether(e, rest[0]) {
        MergeFirst(e, rest);
      } else {
        LinksCons(e, rest);
        SeparateCons(e, rest);
      }
    }
  }

  /** Separate trees are those that merging leaves alone; trees with distinct ids are such. */
  lemma {:induction false} SeparateIsMerged(tree: Tree)
    ensures Separate(tree) <==> Merged(tree) == tree
    ensures DistinctIds(tree) ==> Separate(tree)
  {
    MergedIsSeparate(tree);
    if Separate(tree) {
      LinksDetermineTree(Merged(tree), tree);
    }
  }

  /**
   * What a payload tells, for all trees: two trees have the same payload if and only if they are
   * the same once neighbours whose links run together are made one.
   */
  lemma {:induction false} PayloadDeterminesMerged(a: Tree, b: Tree)
    ensures Payload(a) == Payload(b) <==> Merged(a) == Merged(b)
    ensures Payload(a) == "" <==> a == []
  {
    MergedIsSeparate(a);
    MergedIsSeparate(b);
    if Payload(a) == Payload(b) {
      PayloadDeterminesLinks(a, b);
      LinksDetermineTree(Merged(a), Merged(b));
    }
    if Payload(a) == "" {
      assert Payload([]) == "";
      PayloadDeterminesLinks(a, []);
      LinksAreSome(a);
    }
  }

  /**
   * Equal payloads come from equal trees, the objects, their instances and both orders, if no
   * neighbours' links run together, as when object ids are distinct.
   */
  lemma {:induction false} PayloadInjective(a: Tree, b: Tree)
    requires Separate(a) && Separate(b)
    ensures Payload(a) == Payload(b) <==> a == b
    ensures Payload(a) == "" <==> a == []
  {
    PayloadDeterminesMerged(a, b);
    SeparateIsMerged(a);
    SeparateIsMerged(b);
  }

  /** Every tree with neighbours whose links run together shares its payload with another tree. */
  lemma {:induction false} RepeatedIdsCollide(tree: Tree)
    requires !Separate(tree)
    ensures Merged(tree) != tree && Payload(Merged(tree)) == Payload(tree)
  {
    SeparateIsMerged(tree);
    MergedIsSeparate(tree);
  }

  // ---------------------------------------------------------------- updates

  /** What the client keeps about one server it registered on. */
  class Server {
    var registerState: int
    var lastObjects: string
    /** The tree that `lastObjects` was printed from. */
    ghost var lastTree: Tree

    ghost predicate Valid()
      reads this
    {
      lastObjects == Payload(lastTree)
    }

    constructor (tree: Tree)
      ensures Valid() && lastTree == tree && registerState == 1
    {
      registerState := 1;
      lastTree := tree;
      new;
      lastObjects := SerializeTree(tree);
    }

    /**
     * `update_on_server`: the payload is empty exactly if the tree prints as it did at the last
     * registration or update, sent or not, or has no objects; it is sent while registered.
     */
    method Update(tree: Tree) returns (sent: Option<string>)
      requires Valid()
      modifies this
      ensures Valid() && lastTree == tree && registerState == old(registerState)
      ensures sent.Some? <==> registerState == 1
      ensures sent.Some? ==> sent.value == if Merged(tree) == old(Merged(lastTree)) then "" else Payload(tree)
      ensures sent.Some? ==> (sent.value == "" <==> Merged(tree) == old(Merged(lastTree)) || tree == [])
      ensures Separate(tree) && old(Separate(lastTree)) ==>
                (Merged(tree) == old(Merged(lastTree)) <==> tree == old(lastTree))
    {
      PayloadDeterminesMerged(tree, lastTree);
      SeparateIsMerged(tree);
      SeparateIsMerged(lastTree);
      var objectsAndInstances := SerializeTree(tree);
      var payload := objectsAndInstances;
      if objectsAndInstances == lastObjects {
        payload := "";
      }
      lastObjects := objectsAndInstances;
      lastTree := tree;
      if registerState == 1 {
        return Some(payload);
      }
      return None;
    }
  }

  /** `register_on_server`: the whole tree is sent, and remembered for the updates. */
  method RegisterOnServer(tree: Tree) returns (server: Server, sent: string)
    ensures fresh(server) && server.Valid() && server.lastTree == tree && server.registerState == 1
    ensures sent == server.lastObjects == Payload(tree)
    ensures sent == "" <==> tree == []
  {
    PayloadDeterminesMerged(tree, tree);
    server := new Server(tree);
    sent := server.lastObjects;
  }
}
