/**
 * The topic names that carry requests and responses: printing one component after the other,
 * and reading them back with `strtok`.
 */
module Topics {
  import opened Wrappers
  import opened Text

  datatype Topic = Topic(
    operation: string, kind: string, token: string, clientId: string, serverId: string,
    objectId: int, instanceId: int, resourceId: int)

  // ---------------------------------------------------------------- printing

  /** An id is printed unless it is -1. */
  function IdPart(id: int): seq<string> {
    if id == -1 then [] else [Decimal(id)]
  }

  function Names(t: Topic): seq<string> {
    ["lynx", t.operation, t.kind, t.token, t.clientId, t.serverId]
  }

  function Parts(t: Topic): seq<string> {
    Names(t) + (IdPart(t.objectId) + IdPart(t.instanceId) + IdPart(t.resourceId))
  }

  /** `itoa` has ten bytes for a number and its terminating NUL. */
  predicate Itoable(id: int) {
    |Decimal(id)| <= 9
  }

  method Itoa(id: int) returns (s: string)
    requires Itoable(id)
    ensures s == Decimal(id)
  {
    s := Decimal(id);
  }

  /** Appends one id to a topic made of `parts`, as the printer does for each of the three. */
  method AppendId(message: string, id: int, ghost parts: seq<string>) returns (longer: string)
    requires parts != [] && message == Joined(parts, '/') && Itoable(id)
    ensures longer == Joined(parts + IdPart(id), '/')
  {
    hide Joined;
    longer := message;
    if id != -1 {
      var buffer := Itoa(id);
      JoinedAppend(parts, buffer, '/');
      longer := longer + "/";
      longer := longer + buffer;
    } else {
      assert parts + IdPart(id) == parts;
    }
  }

  method SerializeTopic(t: Topic) returns (message: string)
    requires Itoable(t.objectId) && Itoable(t.instanceId) && Itoable(t.resourceId)
    ensures message == Joined(Parts(t), '/')
  {
    hide Joined, IdPart, Itoable;
    NamesJoined(t);
    message := "lynx/" + t.operation + "/" + t.kind + "/" + t.token + "/" + t.clientId + "/" + t.serverId;
    ghost var parts := Names(t);
    message := AppendId(message, t.objectId, parts);
    message := AppendId(message, t.instanceId, parts + IdPart(t.objectId));
    message := AppendId(message, t.resourceId, parts + IdPart(t.objectId) + IdPart(t.instanceId));
    assert parts + IdPart(t.objectId) + IdPart(t.instanceId) + IdPart(t.resourceId) == Parts(t);
  }

  lemma NamesJoined(t: Topic)
    ensures Joined(Names(t), '/') ==
            "lynx/" + t.operation + "/" + t.kind + "/" + t.token + "/" + t.clientId + "/" + t.serverId
  {
    var n := Names(t);
    assert n[5..] == [t.serverId];
    assert n[4..][1..] == n[5..] && n[3..][1..] == n[4..] && n[2..][1..] == n[3..] && n[1..][1..] == n[2..];
    assert Joined(n[4..], '/') == t.clientId + "/" + t.serverId;
    assert Joined(n[3..], '/') == t.token + "/" + (t.clientId + "/" + t.serverId);
    assert Joined(n[2..], '/') == t.kind + "/" + (t.token + "/" + (t.clientId + "/" + t.serverId));
    assert Joined(n[1..], '/') ==
           t.operation + "/" + (t.kind + "/" + (t.token + "/" + (t.clientId + "/" + t.serverId)));
  }

  // ---------------------------------------------------------------- parsing

  function IdAt(tokens: seq<string>, k: nat): int {
    if k < |tokens| then Atoi(tokens[k]) else -1
  }

  /** What the parser makes of the tokens; none if a name is missing, which it follows as NULL. */
  function FromTokens(tokens: seq<string>): Option<Topic> {
    if |tokens| < 6 then None
    else Some(Topic(tokens[1], tokens[2], tokens[3], tokens[4], tokens[5],
                    IdAt(tokens, 6), IdAt(tokens, 7), IdAt(tokens, 8)))
  }

  method ParseTopic(topicString: string) returns (t: Option<Topic>)
    ensures t == FromTokens(Tokens(topicString, '/'))
  {
    hide Tokens, Atoi;
    var strtok := new Tokenizer(topicString, '/');
    var buf := strtok.Next();
    if buf.None? { return None; }
    var operation := strtok.Next();
    if operation.None? { return None; }
    var kind := strtok.Next();
    if kind.None? { return None; }
    var token := strtok.Next();
    if token.None? { return None; }
    var clientId := strtok.Next();
    if clientId.None? { return None; }
    var serverId := strtok.Next();
    if serverId.None? { return None; }
    ghost var names := [buf.value, operation.value, kind.value, token.value, clientId.value, serverId.value];
    assert Tokens(topicString, '/') == names + Tokens(strtok.rest, '/');
    var objectId, instanceId, resourceId := ParseIds(strtok);
    return Some(Topic(operation.value, kind.value, token.value, clientId.value, serverId.value,
                      objectId, instanceId, resourceId));
  }

  /** The ids at the end of a topic, as far as they go. */
  method ParseIds(strtok: Tokenizer) returns (objectId: int, instanceId: int, resourceId: int)
    modifies strtok
    ensures objectId == IdAt(old(Tokens(strtok.rest, strtok.delimiter)), 0)
    ensures instanceId == IdAt(old(Tokens(strtok.rest, strtok.delimiter)), 1)
    ensures resourceId == IdAt(old(Tokens(strtok.rest, strtok.delimiter)), 2)
  {
    hide Tokens, Atoi;
    objectId, instanceId, resourceId := -1, -1, -1;
    var buf := strtok.Next();
    if buf.Some? {
      objectId := Atoi(buf.value);
      buf := strtok.Next();
      if buf.Some? {
        instanceId := Atoi(buf.value);
        buf := strtok.Next();
        if buf.Some? {
          resourceId := Atoi(buf.value);
        }
      }
    }
  }

  // ---------------------------------------------------------------- the round trip

  predicate CleanNames(t: Topic) {
    && Clean(t.operation, '/') && Clean(t.kind, '/') && Clean(t.token, '/')
    && Clean(t.clientId, '/') && Clean(t.serverId, '/')
  }

  /** No resource without an instance, no instance without an object. */
  predicate PrefixClosed(t: Topic) {
    (t.resourceId != -1 ==> t.instanceId != -1) && (t.instanceId != -1 ==> t.objectId != -1)
  }

  lemma PartsAreClean(t: Topic)
    requires CleanNames(t)
    ensures forall k :: 0 <= k < |Parts(t)| ==> Clean(Parts(t)[k], '/')
  {
    DecimalIsClean(t.objectId, '/');
    DecimalIsClean(t.instanceId, '/');
    DecimalIsClean(t.resourceId, '/');
    var ids := IdPart(t.objectId) + IdPart(t.instanceId) + IdPart(t.resourceId);
    forall k | 0 <= k < |ids| ensures Clean(ids[k], '/') {
      assert ids[k] == Decimal(t.objectId) || ids[k] == Decimal(t.instanceId) || ids[k] == Decimal(t.resourceId);
    }
  }

  /** A topic is read back from its own name exactly if its names are tokens and its ids leave no gap. */
  lemma TopicRoundTrip(t: Topic)
    ensures FromTokens(Tokens(Joined(Parts(t), '/'), '/')) == Some(t) <==> CleanNames(t) && PrefixClosed(t)
  {
    var tokens := Tokens(Joined(Parts(t), '/'), '/');
    DecimalReadsBack(t.objectId);
    DecimalReadsBack(t.instanceId);
    DecimalReadsBack(t.resourceId);
    if CleanNames(t) {
      PartsAreClean(t);
      TokensOfJoined(Parts(t), '/');
      assert tokens[..6] == Names(t);
    }
  }
}
