// What every node, link and message of an honest cluster keeps true. `modes`
// is what each node really is, `puts` every key and value a client has put.
module ClusterInvariant {
  import opened KeyedBlob
  import opened Encoding
  import opened Messages
  import opened Results
  import opened TtlSpec
  import opened ExpirySystem
  import opened ReplicatedExpiry
  import opened ClusterSpec
  import LE = LittleEndian

  type Puts = set<(Key, seq<byte>)>

  // One end of a connection.
  datatype End = End(node: NodeId, link: LinkId)

  datatype World = World(modes: map<NodeId, Mode>, far: map<End, End>, puts: Puts)

  ghost predicate IsPassive(w: World, n: NodeId) {
    n in w.modes && w.modes[n] == Passive
  }

  ghost predicate IsPutBody(w: World, body: seq<byte>, key: Key, expiry: nat, data: seq<byte>) {
    body == PutBytes(key, expiry, data) && IsUint64(expiry) && |key| <= MAX_KEY_LENGTH && (key, data) in w.puts
  }

  // A pending key is a key followed by a suffix of fixed length, so the key
  // can be read off it.
  ghost predicate IsPendingKey(pk: Key, key: Key) {
    |pk| == |key| + SUFFIX_LENGTH && pk[..|key|] == key && |key| <= MAX_KEY_LENGTH
  }

  ghost predicate IsRspBody(w: World, body: seq<byte>, pk: Key, key: Key, data: seq<byte>) {
    body == GetRspBytes(pk, data) && IsPendingKey(pk, key) && (data == [] || (key, data) in w.puts)
  }

  // What may travel from one node to another.
  ghost predicate GoodMessage(w: World, from: NodeId, to: NodeId, m: Message) {
    match m
    case Verify(id, mode) => id == from && id in w.modes && mode == w.modes[id]
    case Put(body) => !IsPassive(w, to) && exists key, expiry, data :: IsPutBody(w, body, key, expiry, data)
    case Del(_) => !IsPassive(w, to)
    case GetReq(key, pk) => !IsPassive(w, to) && IsPendingKey(pk, key)
    case GetRsp(body) => exists pk, key, data :: IsRspBody(w, body, pk, key, data)
    case _ => true
  }

  // One end at node `me` of a connection to node `other`.
  ghost predicate GoodLink(w: World, me: NodeId, other: NodeId, link: Link) {
    && (link.verified ==> && link.peer == Some(other) && other in w.modes && link.mode == w.modes[other]
                          && !(IsPassive(w, me) && IsPassive(w, other)))
    && (link.state == Connected ==> link.verified)
    && (forall i | 0 <= i < |link.inbox| ::
          GoodMessage(w, other, me, link.inbox[i])
          && (link.inbox[i].Verify? || link.inbox[i].VerifyOK? || link.verified))
    && (forall pk | pk in link.pending :: GoodRequest(link.pending[pk], pk))
  }

  ghost predicate GoodRequest(q: Request, pk: Key) {
    pk == q.key + q.suffix && |q.suffix| == SUFFIX_LENGTH && |q.key| <= MAX_KEY_LENGTH
  }

  // A link that client traffic may be sent on.
  ghost predicate Usable(w: World, n: Node, l: LinkId) {
    l in n.links && End(n.id, l) in w.far && n.links[l].verified && !IsPassive(w, w.far[End(n.id, l)].node)
  }

  ghost predicate GoodLinks(w: World, n: Node) {
    forall l | l in n.links :: End(n.id, l) in w.far && GoodLink(w, n.id, w.far[End(n.id, l)].node, n.links[l])
  }

  ghost predicate GoodRegistry(w: World, n: Node) {
    forall id | id in n.remoteNodes ::
      n.remoteNodes[id] in n.links && n.links[n.remoteNodes[id]].verified
      && n.links[n.remoteNodes[id]].peer == Some(id)
  }

  ghost predicate GoodQueues(w: World, n: Node) {
    && (forall x | x in n.replication :: Usable(w, n, x.0) && (x.1.Put? || x.1.Del?)
                                         && GoodMessage(w, n.id, w.far[End(n.id, x.0)].node, x.1))
    && (forall x | x in n.getQueue :: Usable(w, n, x.0) && GoodRequest(x.1, x.1.key + x.1.suffix))
  }

  ghost predicate GoodCache(w: World, cache: Store) {
    forall h | h in cache :: (cache[h].key, cache[h].value) in w.puts
  }

  ghost predicate GoodNode(w: World, n: Node) {
    && n.id in w.modes && n.mode == w.modes[n.id]
    && GoodLinks(w, n) && GoodRegistry(w, n) && GoodQueues(w, n) && GoodCache(w, n.cache)
  }

  // What a node sends is fit for the other end of the link.
  ghost predicate GoodOut(w: World, n: NodeId, out: Out) {
    forall x | x in out && End(n, x.0) in w.far :: GoodMessage(w, n, w.far[End(n, x.0)].node, x.1)
  }

  // ---- the world grows ----

  ghost predicate Extends(w: World, v: World) {
    && w.modes == v.modes && w.puts <= v.puts
    && (forall e | e in w.far :: e in v.far && v.far[e] == w.far[e])
  }

  lemma MessageKeeps(w: World, v: World, from: NodeId, to: NodeId, m: Message)
    requires Extends(w, v) && GoodMessage(w, from, to, m)
    ensures GoodMessage(v, from, to, m)
  {
    match m
    case Put(body) =>
      var key, expiry, data :| IsPutBody(w, body, key, expiry, data);
      assert IsPutBody(v, body, key, expiry, data);
    case GetRsp(body) =>
      var pk, key, data :| IsRspBody(w, body, pk, key, data);
      assert IsRspBody(v, body, pk, key, data);
    case _ =>
  }

  lemma LinkKeeps(w: World, v: World, me: NodeId, other: NodeId, link: Link)
    requires Extends(w, v) && GoodLink(w, me, other, link)
    ensures GoodLink(v, me, other, link)
  {
    hide GoodMessage;
    forall i | 0 <= i < |link.inbox| ensures GoodMessage(v, other, me, link.inbox[i]) {
      MessageKeeps(w, v, other, me, link.inbox[i]);
    }
  }

  lemma NodeKeeps(w: World, v: World, n: Node)
    requires Extends(w, v) && GoodNode(w, n)
    ensures GoodNode(v, n)
  {
    hide GoodMessage, GoodLink;
    forall l | l in n.links ensures GoodLink(v, n.id, v.far[End(n.id, l)].node, n.links[l]) {
      LinkKeeps(w, v, n.id, w.far[End(n.id, l)].node, n.links[l]);
    }
    forall x | x in n.replication ensures GoodMessage(v, n.id, v.far[End(n.id, x.0)].node, x.1) {
      MessageKeeps(w, v, n.id, w.far[End(n.id, x.0)].node, x.1);
    }
  }

  // ---- handlers ----

  // Replacing one link by another that is as good and no less verified.
  lemma LinkReplaced(w: World, n: Node, l: LinkId, link: Link)
    requires GoodNode(w, n) && l in n.links
    requires GoodLink(w, n.id, w.far[End(n.id, l)].node, link)
    requires n.links[l].verified ==> link.verified
    requires n.links[l].verified ==> link.peer == n.links[l].peer
    ensures GoodNode(w, n.(links := n.links[l := link]))
  {
    hide GoodMessage, GoodLink;
  }

  lemma ReceiveGood(w: World, n: Node, l: LinkId, m: Message)
    requires GoodNode(w, n) && End(n.id, l) in w.far
    requires GoodMessage(w, w.far[End(n.id, l)].node, n.id, m)
    ensures GoodNode(w, Receive(n, l, m))
  {
    hide GoodMessage;
    if l in n.links {
      LinkReplaced(w, n, l, Queued(n.links[l], m));
    }
  }

  lemma VerifiedGood(w: World, n: Node, l: LinkId, id: NodeId, mode: Mode, missed: bool)
    requires GoodNode(w, n) && l in n.links
    requires id == w.far[End(n.id, l)].node && id in w.modes && mode == w.modes[id]
    ensures GoodNode(w, Verified(n, l, id, mode, missed).0)
    ensures GoodOut(w, n.id, Verified(n, l, id, mode, missed).1)
  {
    hide GoodMessage, GoodLink;
    var link := n.links[l].(peer := Some(id), mode := mode);
    IntroducedLink(w, n.id, id, n.links[l], mode);
    if (mode == Passive && n.mode == Passive) || (id in n.remoteNodes && !missed) {
      LinkReplaced(w, n, l, link.(handling := false));
    } else {
      var up := link.(state := Connected, verified := true);
      LinkReplaced(w, n, l, up);
      RegisteredGood(w, n.(links := n.links[l := up]), l, id);
      GoodForAll(w, n.id, id, VerifyOK);
    }
  }

  lemma RegisteredGood(w: World, n: Node, l: LinkId, id: NodeId)
    requires GoodNode(w, n) && l in n.links && n.links[l].verified && n.links[l].peer == Some(id)
    ensures GoodNode(w, n.(remoteNodes := n.remoteNodes[id := l]))
  {
    hide GoodMessage, GoodLink;
  }

  // A link that has heard who its peer is, refused or registered.
  lemma IntroducedLink(w: World, me: NodeId, id: NodeId, link: Link, mode: Mode)
    requires GoodLink(w, me, id, link) && id in w.modes && mode == w.modes[id]
    ensures link.verified ==> link.peer == Some(id)
    ensures var heard := link.(peer := Some(id), mode := mode);
            && GoodLink(w, me, id, heard.(handling := false))
            && (!(mode == Passive && IsPassive(w, me)) ==>
                  GoodLink(w, me, id, heard.(state := Connected, verified := true)))
  {
    hide GoodMessage;
  }

  lemma GoodForAll(w: World, from: NodeId, to: NodeId, m: Message)
    requires m.VerifyOK? || m.Ping? || m.Pong? || m.Sync?
    ensures GoodMessage(w, from, to, m)
  {
  }

  lemma TornDownGood(w: World, n: Node, l: LinkId)
    requires GoodNode(w, n)
    ensures GoodNode(w, TornDown(n, l))
  {
    hide GoodMessage, GoodLink;
    if l in n.links {
      ClosedLink(w, n.id, w.far[End(n.id, l)].node, n.links[l]);
      LinkReplaced(w, n, l, n.links[l].(state := Disconnected, pending := map[], handling := false));
    }
  }

  lemma CutOffGood(w: World, n: Node, l: LinkId)
    requires GoodNode(w, n)
    ensures GoodNode(w, CutOff(n, l))
  {
    hide GoodMessage;
    if l in n.links {
      LinkReplaced(w, n, l, n.links[l].(state := Disconnected));
    }
  }

  // How the gets of a node stand is not part of what makes it good.
  lemma CallsGood(w: World, n: Node, calls: map<nat, CallState>)
    requires GoodNode(w, n)
    ensures GoodNode(w, n.(calls := calls))
  {
    hide GoodMessage, GoodLink;
  }

  lemma ClosedLink(w: World, me: NodeId, other: NodeId, link: Link)
    requires GoodLink(w, me, other, link)
    ensures GoodLink(w, me, other, link.(state := Disconnected, pending := map[], handling := false))
  {
    hide GoodMessage;
  }

  lemma AskedGood(w: World, n: Node, l: LinkId, q: Request)
    requires GoodNode(w, n) && (l, q) in n.getQueue
    ensures GoodNode(w, Asked(n, l, q).0)
    ensures GoodOut(w, n.id, Asked(n, l, q).1)
  {
    hide GoodMessage;
    var pk := q.key + q.suffix;
    assert Usable(w, n, l) && GoodRequest(q, pk);
    if n.links[l].state != Disconnected {
      LinkReplaced(w, n, l, n.links[l].(pending := n.links[l].pending[pk := q]));
      GoodAsk(w, n.id, w.far[End(n.id, l)].node, q);
    }
  }

  lemma GoodAsk(w: World, from: NodeId, to: NodeId, q: Request)
    requires GoodRequest(q, q.key + q.suffix) && !IsPassive(w, to)
    ensures GoodMessage(w, from, to, GetReq(q.key, q.key + q.suffix))
  {
  }

  lemma AnsweredGood(w: World, n: Node, H: Hasher, l: LinkId, key: Key, pendingKey: Key)
    requires GoodNode(w, n) && IsPendingKey(pendingKey, key)
    ensures GoodOut(w, n.id, Answered(n, H, l, key, pendingKey))
  {
    var found := Lookup(n.cache, key, H(key));
    var data := if found.Ok? then found.value else [];
    assert IsRspBody(w, GetRspBytes(pendingKey, data), pendingKey, key, data);
  }

  // A response can only answer a request for the key it was looked up under.
  lemma ResolvedGood(w: World, n: Node, l: LinkId, body: seq<byte>)
    requires GoodNode(w, n) && l in n.links
    requires exists pk, key, data :: IsRspBody(w, body, pk, key, data)
    ensures GoodNode(w, Resolved(n, l, body).0)
    ensures var r := Resolved(n, l, body).1; r.Some? ==> (r.value.0.key, r.value.1) in w.puts
  {
    hide GoodMessage;
    var pk, key, data :| IsRspBody(w, body, pk, key, data);
    GetRspReadBack(pk, data);
    hide GetRspBytes, ReadKey, ReadValue;
    var link := n.links[l];
    if pk in link.pending {
      LinkReplaced(w, n, l, link.(pending := link.pending - {pk}));
      SuffixIsFixed(pk, key, link.pending[pk]);
      var m := n.(links := n.links[l := link.(pending := link.pending - {pk})]);
      CallsGood(w, m, m.calls[link.pending[pk].serial := Replied]);
    }
  }

  // The fixed suffix length makes the key recoverable.
  lemma SuffixIsFixed(pk: Key, key: Key, q: Request)
    requires IsPendingKey(pk, key) && GoodRequest(q, pk)
    ensures q.key == key
  {
    assert q.key == pk[..|q.key|];
  }

  lemma StoredGood(w: World, n: Node, H: Hasher, body: seq<byte>, t: Seen)
    requires GoodNode(w, n)
    requires exists key, expiry, data :: IsPutBody(w, body, key, expiry, data)
    ensures GoodNode(w, Stored(n, H, body, t))
  {
    hide GoodMessage, GoodLink, Received;
    var key, expiry, data :| IsPutBody(w, body, key, expiry, data);
    PutReadBack(key, expiry, data);
    hide PutBytes, ReadKey, ReadValue, LE.Get;
    var m := Stored(n, H, body, t);
    assert GoodCache(w, m.cache);
  }

  lemma TrimmedGood(w: World, m: Node, n: Node)
    requires GoodNode(w, m) && n == m.(cache := n.cache, started := n.started)
    requires forall h | h in n.cache :: h in m.cache && n.cache[h] == m.cache[h]
    ensures GoodNode(w, n)
  {
    hide GoodMessage, GoodLink;
  }

  // The next message of a link was fit for it, and taking it keeps the node
  // good.
  lemma NextMessage(w: World, n: Node, l: LinkId)
    requires GoodNode(w, n) && l in n.links && n.links[l].inbox != []
    ensures End(n.id, l) in w.far
    ensures GoodMessage(w, w.far[End(n.id, l)].node, n.id, n.links[l].inbox[0])
    ensures GoodNode(w, Dequeued(n, l))
  {
    hide GoodMessage;
    LinkReplaced(w, n, l, n.links[l].(inbox := n.links[l].inbox[1..]));
  }

  // Whatever the next message does, the node stays good, sends only good
  // messages, and answers a get only with something put under its key.
  lemma HandledGood(w: World, n: Node, H: Hasher, l: LinkId, t: Seen)
    requires GoodNode(w, n) && l in n.links && n.links[l].inbox != []
    ensures var e := Handled(n, H, l, t);
            && GoodNode(w, e.node) && GoodOut(w, n.id, e.out)
            && (e.reply.Some? ==> (e.reply.value.0.key, e.reply.value.1) in w.puts)
  {
    hide GoodNode, Resolved, Verified, Answered, Stored;
    NextMessage(w, n, l);
    var m := Dequeued(n, l);
    if n.links[l].state != Disconnected {
      match n.links[l].inbox[0]
      case Verify(id, mode) => VerifiedGood(w, m, l, id, mode, t.missed);
      case Ping =>
      case GetReq(key, pk) => AnsweredGood(w, m, H, l, key, pk);
      case GetRsp(body) => ResolvedGood(w, m, l, body);
      case Put(body) => StoredGood(w, m, H, body, t);
      case Del(key) => TrimmedGood(w, m, m.(cache := m.cache - {H(key)}));
      case _ =>
    }
  }

  ghost predicate SameShape(n: Node, r: Node) {
    r.id == n.id && r.mode == n.mode && r.links.Keys == n.links.Keys
  }

  lemma EffectShapes(n: Node, H: Hasher, l: LinkId, t: Seen, id: NodeId, mode: Mode, body: seq<byte>)
    requires l in n.links
    ensures SameShape(n, Verified(n, l, id, mode, t.missed).0)
    ensures SameShape(n, Resolved(n, l, body).0)
    ensures SameShape(n, Stored(n, H, body, t))
  {
    hide Received, ReadKey, ReadValue;
  }

  // Handlers change neither identity nor mode and drop no link.
  lemma HandledShape(n: Node, H: Hasher, l: LinkId, t: Seen)
    requires l in n.links && n.links[l].inbox != []
    ensures SameShape(n, Handled(n, H, l, t).node)
  {
    var m, msg := Dequeued(n, l), n.links[l].inbox[0];
    assert SameShape(n, m);
    EffectShapes(m, H, l, t, if msg.Verify? then msg.id else 0, if msg.Verify? then msg.mode else Active,
                 if msg.GetRsp? || msg.Put? then msg.body else []);
    hide Verified, Resolved, Stored, Answered;
  }

  // ---- client calls ----

  lemma ActivePeersUsable(w: World, n: Node, l: LinkId)
    requires GoodNode(w, n) && l in ActivePeers(n)
    ensures Usable(w, n, l)
  {
    hide GoodMessage;
    var id :| id in n.remoteNodes && n.remoteNodes[id] == l && l in n.links && n.links[l].mode != Passive;
    assert GoodLink(w, n.id, w.far[End(n.id, l)].node, n.links[l]);
  }

  lemma PutCallGood(w: World, n: Node, H: Hasher, key: Key, data: seq<byte>, duration: nat, now: Time)
    requires GoodNode(w, n) && (key, data) in w.puts && |key| <= MAX_KEY_LENGTH
    requires IsUint64(Expiry(now, duration))
    ensures GoodNode(w, PutCall(n, H, key, data, duration, now))
  {
    var m := PutCall(n, H, key, data, duration, now);
    var body := PutBytes(key, Expiry(now, duration), data);
    assert IsPutBody(w, body, key, Expiry(now, duration), data);
    forall l | l in ActivePeers(n)
      ensures Usable(w, n, l) && GoodMessage(w, n.id, w.far[End(n.id, l)].node, Message.Put(body))
    {
      ActivePeersUsable(w, n, l);
    }
    hide GoodMessage, GoodLink, ActivePeers, IsPutBody, PutBytes, Expiry;
    assert GoodQueues(w, m);
  }

  lemma DeleteCallGood(w: World, n: Node, H: Hasher, key: Key)
    requires GoodNode(w, n)
    ensures GoodNode(w, DeleteCall(n, H, key))
  {
    forall l | l in ActivePeers(n)
      ensures Usable(w, n, l) && GoodMessage(w, n.id, w.far[End(n.id, l)].node, Message.Del(key))
    {
      ActivePeersUsable(w, n, l);
    }
    hide GoodMessage, GoodLink, ActivePeers;
    assert GoodQueues(w, DeleteCall(n, H, key));
  }

  lemma GetCallGood(w: World, n: Node, H: Hasher, q: Request)
    requires GoodNode(w, n) && GoodRequest(q, q.key + q.suffix)
    ensures GoodNode(w, GetCall(n, H, q))
    ensures GetOutcome(n, H, q.key).Local? ==> (q.key, GetOutcome(n, H, q.key).data) in w.puts
  {
    forall l | l in ActivePeers(n) ensures Usable(w, n, l) {
      ActivePeersUsable(w, n, l);
    }
    hide GoodMessage, GoodLink, ActivePeers;
    assert GoodQueues(w, GetCall(n, H, q));
  }
}
