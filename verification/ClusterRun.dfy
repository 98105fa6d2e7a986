// Whole runs of a cluster. Messages lie in a soup from which any may be
// delivered at any time, again or never; links close at any time; any client
// may call any node.
module ClusterRun {
  import opened KeyedBlob
  import opened Encoding
  import opened Results
  import opened Messages
  import opened TtlSpec
  import opened ExpirySystem
  import opened ClusterSpec
  import opened ClusterInvariant

  datatype Packet = Packet(to: End, msg: Message)

  // What a get has returned: the number of its request, its key and the value.
  datatype Return = Return(serial: nat, key: Key, data: seq<byte>)

  datatype Cluster = Cluster(
    nodes: map<NodeId, Node>, far: map<End, End>, soup: set<Packet>,
    puts: Puts,       // every key and value a client has put
    returned: seq<Return>,
    serial: nat)

  datatype Act =
    | Start(n: NodeId)
    | Connect(a: End, b: End, proposed: Option<NodeId>)  // dialled by a, perhaps for a proposed peer
    | Deliver(p: Packet)
    | HandleNext(e: End, t: Seen)
    | ClientPut(n: NodeId, key: Key, data: seq<byte>, duration: nat, now: Time)
    | ClientDelete(n: NodeId, key: Key)
    | ClientGet(n: NodeId, key: Key, suffix: Key)
    | SendReplication(n: NodeId, l: LinkId, m: Message)
    | SendGet(n: NodeId, l: LinkId, q: Request)
    | Await(n: NodeId, serial: nat)
    | GiveUp(n: NodeId, serial: nat)
    | Disconnect(e: End)
    | Close(e: End)
    | Lose(n: NodeId, h: nat)  // an entry expires

  function Empty(id: NodeId, mode: Mode): Node {
    Node(id, mode, false, map[], map[], map[], {}, {}, map[])
  }

  function Initial(modes: map<NodeId, Mode>): Cluster {
    Cluster(map id | id in modes :: Empty(id, modes[id]), map[], {}, {}, [], 0)
  }

  // What leaves node n, by where it arrives.
  function Posted(g: Cluster, n: NodeId, out: Out): set<Packet> {
    set x | x in out && End(n, x.0) in g.far :: Packet(g.far[End(n, x.0)], x.1)
  }

  function Moved(g: Cluster, n: Node, out: Out): Cluster {
    g.(nodes := g.nodes[n.id := n], soup := g.soup + Posted(g, n.id, out))
  }

  // Two fresh link ends, both in the handshake; each side sends its VERIFY.
  function Connected(g: Cluster, a: End, b: End, proposed: Option<NodeId>): Cluster {
    if a == b || a.node !in g.nodes || b.node !in g.nodes || a in g.far || b in g.far
       || a.link in g.nodes[a.node].links || b.link in g.nodes[b.node].links then g
    else
      var one := g.nodes[a.node := WithLink(g.nodes[a.node], a.link, proposed)];
      g.(nodes := one[b.node := WithLink(one[b.node], b.link, None)],
         far := g.far[a := b][b := a],
         soup := g.soup + {Packet(b, Verify(a.node, g.nodes[a.node].mode)),
                           Packet(a, Verify(b.node, g.nodes[b.node].mode))})
  }

  function WithLink(n: Node, l: LinkId, proposed: Option<NodeId>): Node {
    n.(links := n.links[l := NewLink(proposed)])
  }

  function ReturnOf(reply: (Request, seq<byte>)): Return {
    Return(reply.0.serial, reply.0.key, reply.1)
  }

  // A link handles its next message.
  function HandledBy(g: Cluster, H: Hasher, n: Node, l: LinkId, t: Seen): Cluster
    requires l in n.links && n.links[l].inbox != []
  {
    var e := Handled(n, H, l, t);
    Moved(g, e.node, e.out)
      .(returned := g.returned + if e.reply.Some? then [ReturnOf(e.reply.value)] else [])
  }

  function GetStarted(g: Cluster, H: Hasher, n: Node, q: Request): Cluster {
    var outcome := GetOutcome(n, H, q.key);
    Moved(g, GetCall(n, H, q), {})
      .(serial := g.serial + 1,
        returned := g.returned + if outcome.Local? then [Return(q.serial, q.key, outcome.data)] else [])
  }

  function Step(g: Cluster, H: Hasher, act: Act): Cluster {
    match act
    case Start(n) => if n in g.nodes then Moved(g, g.nodes[n].(started := true), {}) else g
    case Connect(a, b, proposed) => Connected(g, a, b, proposed)
    case Deliver(p) =>
      if p in g.soup && p.to.node in g.nodes then Moved(g, Receive(g.nodes[p.to.node], p.to.link, p.msg), {}) else g
    case HandleNext(e, t) =>
      if e.node in g.nodes && e.link in g.nodes[e.node].links && g.nodes[e.node].links[e.link].handling
         && g.nodes[e.node].links[e.link].inbox != []
      then HandledBy(g, H, g.nodes[e.node], e.link, t) else g
    case ClientPut(n, key, data, duration, now) =>
      if n in g.nodes && g.nodes[n].started
      then Moved(g, PutCall(g.nodes[n], H, key, data, duration, now), {}).(puts := g.puts + {(key, data)}) else g
    case ClientDelete(n, key) => if n in g.nodes then Moved(g, DeleteCall(g.nodes[n], H, key), {}) else g
    case ClientGet(n, key, suffix) =>
      if n in g.nodes then GetStarted(g, H, g.nodes[n], Request(g.serial, key, suffix)) else g
    case SendReplication(n, l, m) =>
      if n in g.nodes && (l, m) in g.nodes[n].replication then Moved(g, g.nodes[n], Send(g.nodes[n], l, m)) else g
    case SendGet(n, l, q) =>
      if n in g.nodes && (l, q) in g.nodes[n].getQueue
      then var (r, out) := Asked(g.nodes[n], l, q); Moved(g, r, out) else g
    case Await(n, serial) => if n in g.nodes then Moved(g, Awaited(g.nodes[n], serial), {}) else g
    case GiveUp(n, serial) => if n in g.nodes then Moved(g, GivenUp(g.nodes[n], serial), {}) else g
    case Disconnect(e) => if e.node in g.nodes then Moved(g, CutOff(g.nodes[e.node], e.link), {}) else g
    case Close(e) => if e.node in g.nodes then Moved(g, TornDown(g.nodes[e.node], e.link), {}) else g
    case Lose(n, h) =>
      if n in g.nodes then Moved(g, g.nodes[n].(cache := g.nodes[n].cache - {h}), {}) else g
  }

  function Run(g: Cluster, H: Hasher, acts: seq<Act>): Cluster
    decreases |acts|
  {
    if acts == [] then g else Run(Step(g, H, acts[0]), H, acts[1..])
  }

  // Clients use keys that every message can carry, suffixes have their fixed
  // length, and clocks stay within 64 bits.
  ghost predicate Sane(act: Act) {
    match act
    case ClientPut(_, key, _, duration, now) => |key| <= MAX_KEY_LENGTH && IsUint64(Expiry(now, duration))
    case ClientGet(_, key, suffix) => |key| <= MAX_KEY_LENGTH && |suffix| == SUFFIX_LENGTH
    case _ => true
  }

  // ---- the invariant ----

  ghost function Modes(g: Cluster): map<NodeId, Mode> {
    map id | id in g.nodes :: g.nodes[id].mode
  }

  ghost function WorldOf(g: Cluster): World {
    World(Modes(g), g.far, g.puts)
  }

  ghost predicate Paired(g: Cluster) {
    forall e | e in g.far ::
      && e.node in g.nodes && e.link in g.nodes[e.node].links
      && g.far[e] in g.far && g.far[g.far[e]] == e
  }

  ghost predicate Invariant(g: Cluster) {
    && Paired(g)
    && (forall id | id in g.nodes :: g.nodes[id].id == id && GoodNode(WorldOf(g), g.nodes[id]))
    && (forall p | p in g.soup :: p.to in g.far && GoodMessage(WorldOf(g), g.far[p.to].node, p.to.node, p.msg))
    && (forall r | r in g.returned :: (r.key, r.data) in g.puts)
  }

  ghost predicate WellNamed(g: Cluster) {
    forall id | id in g.nodes :: g.nodes[id].id == id
  }

  lemma InvariantNames(g: Cluster)
    requires Invariant(g)
    ensures WellNamed(g)
  {
  }

  // A node may move when it stays good and sends only good messages.
  lemma MovedGood(g: Cluster, n: Node, out: Out)
    requires Invariant(g) && n.id in g.nodes && n.mode == g.nodes[n.id].mode
    requires g.nodes[n.id].links.Keys <= n.links.Keys
    requires GoodNode(WorldOf(g), n) && GoodOut(WorldOf(g), n.id, out)
    ensures Invariant(Moved(g, n, out)) && WorldOf(Moved(g, n, out)) == WorldOf(g)
  {
    MovedWorld(g, n, out);
    MovedPaired(g, n, out);
    PostedGood(g, n, out);
    hide GoodNode, GoodMessage, Posted, Paired, WorldOf, GoodOut;
  }

  lemma MovedWorld(g: Cluster, n: Node, out: Out)
    requires n.id in g.nodes && n.mode == g.nodes[n.id].mode
    ensures WorldOf(Moved(g, n, out)) == WorldOf(g)
  {
    assert Modes(Moved(g, n, out)) == Modes(g);
  }

  lemma MovedPaired(g: Cluster, n: Node, out: Out)
    requires Paired(g) && n.id in g.nodes && g.nodes[n.id].links.Keys <= n.links.Keys
    ensures Paired(Moved(g, n, out))
  {
    hide Posted;
  }

  // What a node posts arrives fit for its receiver.
  lemma PostedGood(g: Cluster, n: Node, out: Out)
    requires Paired(g) && GoodOut(WorldOf(g), n.id, out)
    ensures forall p | p in Posted(g, n.id, out) ::
              p.to in g.far && GoodMessage(WorldOf(g), g.far[p.to].node, p.to.node, p.msg)
  {
    hide GoodMessage, Modes;
    forall p | p in Posted(g, n.id, out)
      ensures p.to in g.far && GoodMessage(WorldOf(g), g.far[p.to].node, p.to.node, p.msg)
    {
      var x :| x in out && End(n.id, x.0) in g.far && p == Packet(g.far[End(n.id, x.0)], x.1);
      assert g.far[g.far[End(n.id, x.0)]] == End(n.id, x.0);
    }
  }

  // A bigger world leaves everything good.
  lemma Grown(g: Cluster, v: Cluster)
    requires Invariant(g) && Paired(v) && v.nodes == g.nodes && v.soup == g.soup && v.returned == g.returned
    requires Extends(WorldOf(g), WorldOf(v))
    ensures Invariant(v)
  {
    hide GoodNode, GoodMessage;
    forall id | id in g.nodes ensures GoodNode(WorldOf(v), g.nodes[id]) {
      NodeKeeps(WorldOf(g), WorldOf(v), g.nodes[id]);
    }
    forall p | p in g.soup ensures GoodMessage(WorldOf(v), v.far[p.to].node, p.to.node, p.msg) {
      MessageKeeps(WorldOf(g), WorldOf(v), g.far[p.to].node, p.to.node, p.msg);
    }
  }

  lemma NodeOf(g: Cluster, n: NodeId)
    requires Invariant(g) && n in g.nodes
    ensures g.nodes[n].id == n && GoodNode(WorldOf(g), g.nodes[n])
  {
  }

  lemma DeliverKeeps(g: Cluster, p: Packet)
    requires Invariant(g) && p in g.soup && p.to.node in g.nodes
    ensures Invariant(Moved(g, Receive(g.nodes[p.to.node], p.to.link, p.msg), {}))
  {
    hide GoodNode, GoodMessage;
    var n := g.nodes[p.to.node];
    ReceiveGood(WorldOf(g), n, p.to.link, p.msg);
    MovedGood(g, Receive(n, p.to.link, p.msg), {});
  }

  lemma PutKeeps(g: Cluster, H: Hasher, n: NodeId, key: Key, data: seq<byte>, duration: nat, now: Time)
    requires Invariant(g) && n in g.nodes && |key| <= MAX_KEY_LENGTH && IsUint64(Expiry(now, duration))
    ensures Invariant(Moved(g, PutCall(g.nodes[n], H, key, data, duration, now), {}).(puts := g.puts + {(key, data)}))
  {
    hide GoodNode, GoodMessage, PutCall;
    var v := g.(puts := g.puts + {(key, data)});
    assert Paired(v);
    Grown(g, v);
    NodeOf(v, n);
    hide Invariant;
    PutCallGood(WorldOf(v), v.nodes[n], H, key, data, duration, now);
    PutCallShape(v.nodes[n], H, key, data, duration, now);
    MovedGood(v, PutCall(v.nodes[n], H, key, data, duration, now), {});
  }

  lemma PutCallShape(n: Node, H: Hasher, key: Key, data: seq<byte>, duration: nat, now: Time)
    ensures var m := PutCall(n, H, key, data, duration, now); m.id == n.id && m.mode == n.mode && m.links == n.links
  {
  }

  lemma DeleteKeeps(g: Cluster, H: Hasher, n: NodeId, key: Key)
    requires Invariant(g) && n in g.nodes
    ensures Invariant(Moved(g, DeleteCall(g.nodes[n], H, key), {}))
  {
    hide GoodNode, GoodMessage, ActivePeers, Invariant;
    NodeOf(g, n);
    DeleteCallGood(WorldOf(g), g.nodes[n], H, key);
    MovedGood(g, DeleteCall(g.nodes[n], H, key), {});
  }

  lemma GetKeeps(g: Cluster, H: Hasher, n: NodeId, q: Request)
    requires Invariant(g) && n in g.nodes && |q.key| <= MAX_KEY_LENGTH && |q.suffix| == SUFFIX_LENGTH
    ensures Invariant(GetStarted(g, H, g.nodes[n], q))
  {
    hide GoodNode, GoodMessage, ActivePeers;
    GetCallGood(WorldOf(g), g.nodes[n], H, q);
    MovedGood(g, GetCall(g.nodes[n], H, q), {});
    var v := Moved(g, GetCall(g.nodes[n], H, q), {});
    Outcome(v, GetStarted(g, H, g.nodes[n], q));
  }

  // What gets return and how many there were is not part of the world.
  lemma Outcome(g: Cluster, v: Cluster)
    requires Invariant(g) && v == g.(returned := v.returned, serial := v.serial)
    requires forall r | r in v.returned :: (r.key, r.data) in g.puts
    ensures Invariant(v)
  {
    hide GoodNode, GoodMessage;
    assert WorldOf(v) == WorldOf(g);
  }

  lemma SendReplicationKeeps(g: Cluster, n: NodeId, l: LinkId, m: Message)
    requires Invariant(g) && n in g.nodes && (l, m) in g.nodes[n].replication
    ensures Invariant(Moved(g, g.nodes[n], Send(g.nodes[n], l, m)))
  {
    hide Invariant, GoodNode, GoodMessage;
    NodeOf(g, n);
    ReplicationGood(WorldOf(g), g.nodes[n], l, m);
    MovedGood(g, g.nodes[n], Send(g.nodes[n], l, m));
  }

  lemma ReplicationGood(w: World, n: Node, l: LinkId, m: Message)
    requires GoodNode(w, n) && (l, m) in n.replication
    ensures GoodOut(w, n.id, Send(n, l, m))
  {
    hide GoodMessage, GoodLink;
  }

  lemma SendGetKeeps(g: Cluster, n: NodeId, l: LinkId, q: Request)
    requires Invariant(g) && n in g.nodes && (l, q) in g.nodes[n].getQueue
    ensures Invariant(Moved(g, Asked(g.nodes[n], l, q).0, Asked(g.nodes[n], l, q).1))
  {
    hide GoodMessage, GoodNode, Invariant;
    NodeOf(g, n);
    AskedGood(WorldOf(g), g.nodes[n], l, q);
    MovedGood(g, Asked(g.nodes[n], l, q).0, Asked(g.nodes[n], l, q).1);
  }

  // Nothing but the state of its gets changes.
  lemma CallsKeep(g: Cluster, n: NodeId, serial: nat)
    requires Invariant(g) && n in g.nodes
    ensures Invariant(Moved(g, Awaited(g.nodes[n], serial), {})) && Invariant(Moved(g, GivenUp(g.nodes[n], serial), {}))
  {
    hide GoodMessage, GoodNode, Invariant;
    NodeOf(g, n);
    CallsGood(WorldOf(g), g.nodes[n], Awaited(g.nodes[n], serial).calls);
    CallsGood(WorldOf(g), g.nodes[n], GivenUp(g.nodes[n], serial).calls);
    MovedGood(g, Awaited(g.nodes[n], serial), {});
    MovedGood(g, GivenUp(g.nodes[n], serial), {});
  }

  lemma DisconnectKeeps(g: Cluster, e: End)
    requires Invariant(g) && e.node in g.nodes
    ensures Invariant(Moved(g, CutOff(g.nodes[e.node], e.link), {}))
  {
    hide GoodMessage, GoodNode, Invariant;
    NodeOf(g, e.node);
    CutOffGood(WorldOf(g), g.nodes[e.node], e.link);
    MovedGood(g, CutOff(g.nodes[e.node], e.link), {});
  }

  lemma CloseKeeps(g: Cluster, e: End)
    requires Invariant(g) && e.node in g.nodes
    ensures Invariant(Moved(g, TornDown(g.nodes[e.node], e.link), {}))
  {
    hide GoodMessage, GoodNode, Invariant;
    NodeOf(g, e.node);
    TornDownGood(WorldOf(g), g.nodes[e.node], e.link);
    MovedGood(g, TornDown(g.nodes[e.node], e.link), {});
  }

  // Forgetting an entry, or starting, is always fine.
  lemma TrimmedKeeps(g: Cluster, n: Node)
    requires Invariant(g) && n.id in g.nodes
    requires n == g.nodes[n.id].(cache := n.cache, started := n.started)
    requires forall h | h in n.cache :: h in g.nodes[n.id].cache && n.cache[h] == g.nodes[n.id].cache[h]
    ensures Invariant(Moved(g, n, {}))
  {
    hide GoodMessage, GoodLink;
    NodeOf(g, n.id);
    TrimmedGood(WorldOf(g), g.nodes[n.id], n);
    hide GoodNode;
    MovedGood(g, n, {});
  }

  lemma HandledKeeps(g: Cluster, H: Hasher, e: End, t: Seen)
    requires Invariant(g) && e.node in g.nodes && e.link in g.nodes[e.node].links
    requires g.nodes[e.node].links[e.link].inbox != []
    ensures Invariant(HandledBy(g, H, g.nodes[e.node], e.link, t))
  {
    hide Invariant, GoodNode, GoodMessage, Handled;
    var n, l := g.nodes[e.node], e.link;
    NodeOf(g, e.node);
    HandledGood(WorldOf(g), n, H, l, t);
    HandledShape(n, H, l, t);
    var effect := Handled(n, H, l, t);
    MovedGood(g, effect.node, effect.out);
    ReturnedIsPut(g);
    Outcome(Moved(g, effect.node, effect.out), HandledBy(g, H, n, l, t));
  }

  lemma ReturnedIsPut(g: Cluster)
    requires Invariant(g)
    ensures forall r | r in g.returned :: (r.key, r.data) in g.puts
  {
  }

  // A new connection: both ends know nothing yet, and each VERIFY tells the
  // truth about its sender.
  lemma ConnectKeeps(g: Cluster, a: End, b: End, proposed: Option<NodeId>)
    requires Invariant(g) && Connectable(g, a, b)
    ensures Invariant(Connected(g, a, b, proposed))
  {
    hide GoodNode, GoodMessage, Modes, Paired, Connected;
    var v := WorldOf(Connected(g, a, b, proposed));
    ConnectPaired(g, a, b, proposed);
    ConnectRest(g, a, b, proposed);
    var g' := Connected(g, a, b, proposed);
    forall id | id in g.nodes ensures g'.nodes[id].id == id && GoodNode(v, g'.nodes[id]) {
      ConnectNode(g, a, b, proposed, id);
    }
    forall p | p in g'.soup ensures p.to in v.far && GoodMessage(v, v.far[p.to].node, p.to.node, p.msg) {
      ConnectSoup(g, a, b, proposed, p);
    }
  }

  ghost predicate Connectable(g: Cluster, a: End, b: End) {
    && a != b && a.node in g.nodes && b.node in g.nodes && a !in g.far && b !in g.far
    && a.link !in g.nodes[a.node].links && b.link !in g.nodes[b.node].links
  }

  lemma ConnectWorld(g: Cluster, a: End, b: End, proposed: Option<NodeId>)
    requires Connectable(g, a, b)
    ensures Extends(WorldOf(g), WorldOf(Connected(g, a, b, proposed)))
  {
    assert Modes(Connected(g, a, b, proposed)) == Modes(g);
  }

  lemma ConnectRest(g: Cluster, a: End, b: End, proposed: Option<NodeId>)
    requires Connectable(g, a, b)
    ensures var v := Connected(g, a, b, proposed);
            v.nodes.Keys == g.nodes.Keys && v.returned == g.returned && v.puts == g.puts
  {
  }

  lemma ConnectPaired(g: Cluster, a: End, b: End, proposed: Option<NodeId>)
    requires Paired(g) && Connectable(g, a, b)
    ensures Paired(Connected(g, a, b, proposed))
  {
    var g' := Connected(g, a, b, proposed);
    forall e | e in g'.far
      ensures e.node in g'.nodes && e.link in g'.nodes[e.node].links && g'.far[e] in g'.far && g'.far[g'.far[e]] == e
    {
      if e != a && e != b {
        assert e in g.far;
      }
    }
  }

  lemma ConnectNode(g: Cluster, a: End, b: End, proposed: Option<NodeId>, id: NodeId)
    requires Invariant(g) && Connectable(g, a, b) && id in g.nodes
    ensures var g' := Connected(g, a, b, proposed); g'.nodes[id].id == id && GoodNode(WorldOf(g'), g'.nodes[id])
  {
    var v := WorldOf(Connected(g, a, b, proposed));
    NodeOf(g, id);
    ConnectWorld(g, a, b, proposed);
    hide GoodNode, Invariant, Extends, Modes;
    NodeKeeps(WorldOf(g), v, g.nodes[id]);
    if id == a.node { FreshLink(v, g.nodes[id], a.link, proposed); }
    if id == b.node {
      FreshLink(v, if a.node == id then WithLink(g.nodes[id], a.link, proposed) else g.nodes[id], b.link, None);
    }
  }

  lemma ConnectSoup(g: Cluster, a: End, b: End, proposed: Option<NodeId>, p: Packet)
    requires Invariant(g) && Connectable(g, a, b) && p in Connected(g, a, b, proposed).soup
    ensures var v := WorldOf(Connected(g, a, b, proposed));
            p.to in v.far && GoodMessage(v, v.far[p.to].node, p.to.node, p.msg)
  {
    hide Invariant, GoodMessage, Connected, WorldOf;
    var v := WorldOf(Connected(g, a, b, proposed));
    ConnectWorld(g, a, b, proposed);
    if p in g.soup {
      SoupIsGood(g, p);
      FarOf(g);
      MessageKeeps(WorldOf(g), v, g.far[p.to].node, p.to.node, p.msg);
    } else {
      NewPackets(g, a, b, proposed, p);
      Truthful(v, a.node, b.node);
      Truthful(v, b.node, a.node);
    }
  }

  lemma FarOf(g: Cluster)
    ensures WorldOf(g).far == g.far
  {
  }

  // The two ends introduce themselves to each other.
  lemma NewPackets(g: Cluster, a: End, b: End, proposed: Option<NodeId>, p: Packet)
    requires Connectable(g, a, b) && p in Connected(g, a, b, proposed).soup && p !in g.soup
    ensures var v := WorldOf(Connected(g, a, b, proposed));
            && a.node in v.modes && b.node in v.modes
            && ((p == Packet(b, Verify(a.node, v.modes[a.node])) && b in v.far && v.far[b] == a)
                || (p == Packet(a, Verify(b.node, v.modes[b.node])) && a in v.far && v.far[a] == b))
  {
  }

  lemma Truthful(w: World, from: NodeId, to: NodeId)
    requires from in w.modes
    ensures GoodMessage(w, from, to, Verify(from, w.modes[from]))
  {
  }

  lemma FreshLink(w: World, n: Node, l: LinkId, proposed: Option<NodeId>)
    requires GoodNode(w, n) && l !in n.links && End(n.id, l) in w.far
    ensures GoodNode(w, WithLink(n, l, proposed))
  {
    hide GoodMessage;
    assert GoodLink(w, n.id, w.far[End(n.id, l)].node, NewLink(proposed));
    hide GoodLink;
  }

  lemma StepKeeps(g: Cluster, H: Hasher, act: Act)
    requires Invariant(g) && Sane(act)
    ensures Invariant(Step(g, H, act))
  {
    hide Invariant, HandledBy, Connected, Moved, PutCall, DeleteCall, GetStarted, Asked, TornDown, Receive, Awaited,
         GivenUp, CutOff;
    match act
    case Start(n) =>
      if n in g.nodes { NodeOf(g, n); TrimmedKeeps(g, g.nodes[n].(started := true)); }
    case Connect(a, b, proposed) => ConnectOrNot(g, a, b, proposed);
    case Deliver(p) => if p in g.soup && p.to.node in g.nodes { DeliverKeeps(g, p); }
    case HandleNext(e, t) =>
      if e.node in g.nodes && e.link in g.nodes[e.node].links && g.nodes[e.node].links[e.link].inbox != [] {
        HandledKeeps(g, H, e, t);
      }
    case ClientPut(n, key, data, duration, now) => if n in g.nodes { PutKeeps(g, H, n, key, data, duration, now); }
    case ClientDelete(n, key) => if n in g.nodes { DeleteKeeps(g, H, n, key); }
    case ClientGet(n, key, suffix) => if n in g.nodes { GetKeeps(g, H, n, Request(g.serial, key, suffix)); }
    case SendReplication(n, l, m) =>
      if n in g.nodes && (l, m) in g.nodes[n].replication { SendReplicationKeeps(g, n, l, m); }
    case SendGet(n, l, q) => if n in g.nodes && (l, q) in g.nodes[n].getQueue { SendGetKeeps(g, n, l, q); }
    case Await(n, serial) => if n in g.nodes { CallsKeep(g, n, serial); }
    case GiveUp(n, serial) => if n in g.nodes { CallsKeep(g, n, serial); }
    case Disconnect(e) => if e.node in g.nodes { DisconnectKeeps(g, e); }
    case Close(e) => if e.node in g.nodes { CloseKeeps(g, e); }
    case Lose(n, h) =>
      if n in g.nodes { NodeOf(g, n); TrimmedKeeps(g, g.nodes[n].(cache := g.nodes[n].cache - {h})); }
  }

  lemma ConnectOrNot(g: Cluster, a: End, b: End, proposed: Option<NodeId>)
    requires Invariant(g)
    ensures Invariant(Connected(g, a, b, proposed))
  {
    hide Invariant;
    if Connectable(g, a, b) {
      ConnectKeeps(g, a, b, proposed);
    }
  }

  lemma InitialGood(modes: map<NodeId, Mode>)
    ensures Invariant(Initial(modes))
  {
    assert Modes(Initial(modes)) == modes;
  }

  lemma {:induction false} RunKeeps(g: Cluster, H: Hasher, acts: seq<Act>)
    requires Invariant(g) && forall i | 0 <= i < |acts| :: Sane(acts[i])
    ensures Invariant(Run(g, H, acts))
    decreases |acts|
  {
    hide Invariant, Step, Sane;
    if acts != [] {
      StepKeeps(g, H, acts[0]);
      RunKeeps(Step(g, H, acts[0]), H, acts[1..]);
    }
  }

  // ---- what holds in every run ----

  ghost predicate AllSane(acts: seq<Act>) {
    forall i | 0 <= i < |acts| :: Sane(acts[i])
  }

  ghost predicate WasPut(acts: seq<Act>, key: Key, data: seq<byte>) {
    exists i :: 0 <= i < |acts| && IsPutOf(acts[i], key, data)
  }

  ghost predicate IsPutOf(act: Act, key: Key, data: seq<byte>) {
    act.ClientPut? && act.key == key && act.data == data
  }

  lemma StepPuts(g: Cluster, H: Hasher, act: Act)
    ensures forall x | x in Step(g, H, act).puts :: x in g.puts || IsPutOf(act, x.0, x.1)
  {
    hide PutCall, DeleteCall, GetCall, Asked, TornDown, CutOff, Awaited, GivenUp, Receive, Handled, Posted;
  }

  lemma {:induction false} PutsWerePut(g: Cluster, H: Hasher, acts: seq<Act>, key: Key, data: seq<byte>)
    requires (key, data) in Run(g, H, acts).puts
    ensures (key, data) in g.puts || WasPut(acts, key, data)
    decreases |acts|
  {
    hide Step;
    if acts != [] {
      PutsWerePut(Step(g, H, acts[0]), H, acts[1..], key, data);
      StepPuts(g, H, acts[0]);
      if i :| 0 <= i < |acts| - 1 && IsPutOf(acts[1..][i], key, data) {
        assert IsPutOf(acts[i + 1], key, data);
      } else {
        assert IsPutOf(acts[0], key, data) || (key, data) in g.puts;
      }
    }
  }

  // A get that returns data returns a value that some client put under that
  // very key, whatever was reordered, repeated or lost.
  lemma GetReturnsOnlyPut(modes: map<NodeId, Mode>, H: Hasher, acts: seq<Act>, r: Return)
    requires AllSane(acts) && r in Run(Initial(modes), H, acts).returned
    ensures WasPut(acts, r.key, r.data)
  {
    hide Invariant, Run, Sane;
    Reachable(modes, H, acts);
    ReturnedIsPut(Run(Initial(modes), H, acts));
    PutsWerePut(Initial(modes), H, acts, r.key, r.data);
  }

  // No PUT, DEL or GET request is ever addressed to a passive node, so a
  // missing cache is never touched.
  lemma NothingSentToPassive(modes: map<NodeId, Mode>, H: Hasher, acts: seq<Act>, p: Packet)
    requires AllSane(acts) && p in Run(Initial(modes), H, acts).soup
    ensures var g := Run(Initial(modes), H, acts);
            p.msg.Put? || p.msg.Del? || p.msg.GetReq? ==>
              p.to.node in g.nodes && g.nodes[p.to.node].mode == Active
  {
    hide *;
    Reachable(modes, H, acts);
    NotToPassive(Run(Initial(modes), H, acts), p);
  }

  lemma NotToPassive(g: Cluster, p: Packet)
    requires Invariant(g) && p in g.soup
    ensures p.msg.Put? || p.msg.Del? || p.msg.GetReq? ==> p.to.node in g.nodes && g.nodes[p.to.node].mode == Active
  {
    hide GoodNode, IsPutBody, IsRspBody;
    assert p.to in g.far && GoodMessage(WorldOf(g), g.far[p.to].node, p.to.node, p.msg);
  }

  lemma Reachable(modes: map<NodeId, Mode>, H: Hasher, acts: seq<Act>)
    requires AllSane(acts)
    ensures Invariant(Run(Initial(modes), H, acts))
  {
    hide Invariant, Run, Sane;
    InitialGood(modes);
    RunKeeps(Initial(modes), H, acts);
  }

  // Two passive nodes are never registered with each other.
  lemma NoPassivePair(modes: map<NodeId, Mode>, H: Hasher, acts: seq<Act>, a: NodeId, b: NodeId)
    requires AllSane(acts)
    ensures var g := Run(Initial(modes), H, acts);
            a in g.nodes && b in g.nodes[a].remoteNodes ==>
              b in g.nodes && !(g.nodes[a].mode == Passive && g.nodes[b].mode == Passive)
  {
    hide Run, GoodMessage, GoodQueues, GoodCache;
    Reachable(modes, H, acts);
    var g := Run(Initial(modes), H, acts);
    if a in g.nodes && b in g.nodes[a].remoteNodes {
      NodeOf(g, a);
      var l := g.nodes[a].remoteNodes[b];
      assert GoodLink(WorldOf(g), a, g.far[End(a, l)].node, g.nodes[a].links[l]);
    }
  }

  // Before a link has been registered it is not connected, and nothing but
  // VERIFY and VERIFYOK waits on it to be handled.
  lemma OnlyHandshakeBeforeRegistration(modes: map<NodeId, Mode>, H: Hasher, acts: seq<Act>, e: End)
    requires AllSane(acts)
    ensures var g := Run(Initial(modes), H, acts);
            e.node in g.nodes && e.link in g.nodes[e.node].links && !g.nodes[e.node].links[e.link].verified ==>
              var link := g.nodes[e.node].links[e.link];
              && link.state != LinkState.Connected
              && (forall i | 0 <= i < |link.inbox| :: link.inbox[i].Verify? || link.inbox[i].VerifyOK?)
              && (forall id | id in g.nodes[e.node].remoteNodes :: g.nodes[e.node].remoteNodes[id] != e.link)
  {
    hide Run, GoodMessage, GoodQueues, GoodCache;
    Reachable(modes, H, acts);
    var g := Run(Initial(modes), H, acts);
    if e.node in g.nodes && e.link in g.nodes[e.node].links {
      NodeOf(g, e.node);
      assert GoodLink(WorldOf(g), e.node, g.far[e].node, g.nodes[e.node].links[e.link]);
    }
  }

  // Binary bodies on the wire always decode, so no handler runs past one.
  lemma BodiesDecode(modes: map<NodeId, Mode>, H: Hasher, acts: seq<Act>, p: Packet)
    requires AllSane(acts) && p in Run(Initial(modes), H, acts).soup
    ensures p.msg.Put? ==> |p.msg.body| >= EXPIRY_SIZE + KEY_SIZE_IN_BYTES && ReadKey(p.msg.body, EXPIRY_SIZE).Some?
    ensures p.msg.GetRsp? ==> |p.msg.body| >= KEY_SIZE_IN_BYTES && ReadKey(p.msg.body, 0).Some?
  {
    hide *;
    Reachable(modes, H, acts);
    var g := Run(Initial(modes), H, acts);
    SoupIsGood(g, p);
    Decodes(WorldOf(g), g.far[p.to].node, p.to.node, p.msg);
  }

  lemma SoupIsGood(g: Cluster, p: Packet)
    requires Invariant(g) && p in g.soup
    ensures p.to in g.far && GoodMessage(WorldOf(g), g.far[p.to].node, p.to.node, p.msg)
  {
  }

  lemma Decodes(w: World, from: NodeId, to: NodeId, m: Message)
    requires GoodMessage(w, from, to, m)
    ensures m.Put? ==> |m.body| >= EXPIRY_SIZE + KEY_SIZE_IN_BYTES && ReadKey(m.body, EXPIRY_SIZE).Some?
    ensures m.GetRsp? ==> |m.body| >= KEY_SIZE_IN_BYTES && ReadKey(m.body, 0).Some?
  {
    hide ReadKey;
    if m.Put? {
      var key, expiry, data :| IsPutBody(w, m.body, key, expiry, data);
      PutReadBack(key, expiry, data);
    } else if m.GetRsp? {
      var pk, key, data :| IsRspBody(w, m.body, pk, key, data);
      GetRspReadBack(pk, data);
    }
  }
}
