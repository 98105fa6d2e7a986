// The nodes of a cluster as objects, and what travels between them: every act
// of ClusterRun.dfy performed on the objects of Cluster.dfy.
module Networks {
  import opened KeyedBlob
  import opened Results
  import opened ClusterInvariant
  import opened ClusterRun
  import opened ClusterGets
  import opened Clusters
  import E = ExpirySystem
  import Spec = ClusterSpec

  type Nodes = map<NodeId, ClusteredBigCache>
  type Views = map<NodeId, Spec.Node>

  ghost function Links(nodes: Nodes): set<object>
    reads nodes.Values
  {
    set id, l | id in nodes && l in nodes[id].links :: nodes[id].links[l]
  }

  // The object is the node that the view says.
  ghost predicate Is(node: ClusteredBigCache, H: E.Hasher, id: NodeId, view: Spec.Node)
    reads node, node.links.Values
  {
    && node.id == id && node.hasher == H && node.Valid() && node.View() == view
    && view.id == id && view.links.Keys == node.links.Keys
  }

  ghost predicate Stand(nodes: Nodes, H: E.Hasher, views: Views)
    reads nodes.Values, Links(nodes)
  {
    nodes.Keys == views.Keys && forall id | id in nodes :: Is(nodes[id], H, id, views[id])
  }

  // The links of every node are the same objects as before.
  twostate predicate SameLinks(nodes: Nodes)
    reads nodes.Values
  {
    forall id | id in nodes :: nodes[id].links == old(nodes[id].links)
  }

  twostate lemma NoNewLinks(nodes: Nodes)
    requires SameLinks(nodes)
    ensures Links(nodes) == old(Links(nodes))
  {
    forall o | o in Links(nodes) ensures o in old(Links(nodes)) {
      var id, l :| id in nodes && l in nodes[id].links && o == nodes[id].links[l];
      assert id in nodes && l in old(nodes[id].links) && o == old(nodes[id].links)[l];
    }
    forall o | o in old(Links(nodes)) ensures o in Links(nodes) {
      var id, l :| id in nodes && l in old(nodes[id].links) && o == old(nodes[id].links)[l];
      assert id in nodes && l in nodes[id].links && o == nodes[id].links[l];
    }
  }

  method Start(nodes: Nodes, ghost H: E.Hasher, ghost views: Views, n: NodeId)
    requires Stand(nodes, H, views) && n in nodes
    modifies nodes[n]
    ensures Stand(nodes, H, views[n := views[n].(started := true)])
    ensures SameLinks(nodes)
  {
    hide ClusteredBigCache.View;
    nodes[n].Start();
  }

  method Deliver(nodes: Nodes, ghost H: E.Hasher, ghost views: Views, to: End, m: Spec.Message)
    requires Stand(nodes, H, views) && to.node in nodes && to.link in nodes[to.node].links
    modifies nodes[to.node].links[to.link]
    ensures Stand(nodes, H, views[to.node := Spec.Receive(views[to.node], to.link, m)])
  {
    hide ClusteredBigCache.View;
    nodes[to.node].Receive(to.link, m);
  }

  method Put(nodes: Nodes, ghost H: E.Hasher, ghost views: Views, n: NodeId,
             key: Key, data: seq<byte>, duration: nat, now: nat)
    requires Stand(nodes, H, views) && n in nodes
    modifies nodes[n]
    ensures Stand(nodes, H, views[n := Spec.PutCall(views[n], H, key, data, duration, now)])
    ensures SameLinks(nodes)
  {
    hide ClusteredBigCache.View, Spec.PutCall;
    PutShape(views[n], H, key, data, duration, now);
    var _ := nodes[n].Put(key, data, duration, now);
  }

  lemma PutShape(n: Spec.Node, H: E.Hasher, key: Key, data: seq<byte>, duration: nat, now: nat)
    ensures var r := Spec.PutCall(n, H, key, data, duration, now); r.id == n.id && r.links == n.links
  {
  }

  method Delete(nodes: Nodes, ghost H: E.Hasher, ghost views: Views, n: NodeId, key: Key)
    requires Stand(nodes, H, views) && n in nodes
    modifies nodes[n]
    ensures Stand(nodes, H, views[n := Spec.DeleteCall(views[n], H, key)])
    ensures SameLinks(nodes)
  {
    hide ClusteredBigCache.View, Spec.ActivePeers;
    var _ := nodes[n].Delete(key);
  }

  method Get(nodes: Nodes, ghost H: E.Hasher, ghost views: Views, n: NodeId, q: Spec.Request) returns (r: Spec.GetStart)
    requires Stand(nodes, H, views) && n in nodes
    modifies nodes[n]
    ensures Stand(nodes, H, views[n := Spec.GetCall(views[n], H, q)]) && r == Spec.GetOutcome(views[n], H, q.key)
    ensures SameLinks(nodes)
  {
    hide ClusteredBigCache.View, Spec.ActivePeers, Spec.GetOutcome;
    r := nodes[n].Get(q);
  }

  method Lose(nodes: Nodes, ghost H: E.Hasher, ghost views: Views, n: NodeId, h: nat)
    requires Stand(nodes, H, views) && n in nodes
    modifies nodes[n]
    ensures Stand(nodes, H, views[n := views[n].(cache := views[n].cache - {h})])
    ensures SameLinks(nodes)
  {
    hide ClusteredBigCache.View;
    nodes[n].Lose(h);
  }

  method SendGet(nodes: Nodes, ghost H: E.Hasher, ghost views: Views, n: NodeId, l: LinkId, q: Spec.Request)
    returns (out: Spec.Out)
    requires Stand(nodes, H, views) && n in nodes && l in nodes[n].links
    modifies nodes[n].links[l]
    ensures Stand(nodes, H, views[n := Spec.Asked(views[n], l, q).0]) && out == Spec.Asked(views[n], l, q).1
  {
    hide ClusteredBigCache.View;
    var sent := nodes[n].SendRequest(l, q);
    out := if sent.Some? then {(l, sent.value)} else {};
  }

  method Await(nodes: Nodes, ghost H: E.Hasher, ghost views: Views, n: NodeId, serial: nat)
    requires Stand(nodes, H, views) && n in nodes
    modifies nodes[n]
    ensures Stand(nodes, H, views[n := Spec.Awaited(views[n], serial)])
    ensures SameLinks(nodes)
  {
    hide ClusteredBigCache.View;
    nodes[n].Await(serial);
  }

  method GiveUp(nodes: Nodes, ghost H: E.Hasher, ghost views: Views, n: NodeId, serial: nat)
    requires Stand(nodes, H, views) && n in nodes
    modifies nodes[n]
    ensures Stand(nodes, H, views[n := Spec.GivenUp(views[n], serial)])
    ensures SameLinks(nodes)
  {
    hide ClusteredBigCache.View;
    nodes[n].GiveUp(serial);
  }

  method Disconnect(nodes: Nodes, ghost H: E.Hasher, ghost views: Views, e: End)
    requires Stand(nodes, H, views) && e.node in nodes && e.link in nodes[e.node].links
    modifies nodes[e.node].links[e.link]
    ensures Stand(nodes, H, views[e.node := Spec.CutOff(views[e.node], e.link)])
  {
    hide ClusteredBigCache.View;
    nodes[e.node].Disconnect(e.link);
  }

  method Close(nodes: Nodes, ghost H: E.Hasher, ghost views: Views, e: End)
    requires Stand(nodes, H, views) && e.node in nodes && e.link in nodes[e.node].links
    modifies nodes[e.node], nodes[e.node].links[e.link]
    ensures Stand(nodes, H, views[e.node := Spec.TornDown(views[e.node], e.link)])
    ensures SameLinks(nodes)
  {
    hide ClusteredBigCache.View;
    nodes[e.node].TearDown(e.link);
  }

  method Handle(nodes: Nodes, ghost H: E.Hasher, ghost views: Views, e: End, t: Spec.Seen)
    returns (out: Spec.Out, reply: Option<(Spec.Request, seq<byte>)>)
    requires Stand(nodes, H, views) && e.node in nodes && e.link in nodes[e.node].links
    requires nodes[e.node].links[e.link].inboundMsgQueue != []
    requires Spec.Handleable(nodes[e.node].links[e.link].inboundMsgQueue[0])
    requires e.link in views[e.node].links && views[e.node].links[e.link] == nodes[e.node].links[e.link].View()
    modifies nodes[e.node], nodes[e.node].links[e.link]
    ensures Stand(nodes, H, views[e.node := Spec.Handled(views[e.node], H, e.link, t).node])
    ensures out == Spec.Handled(views[e.node], H, e.link, t).out
    ensures reply == Spec.Handled(views[e.node], H, e.link, t).reply
    ensures SameLinks(nodes)
  {
    hide ClusteredBigCache.View, Spec.Handled, Spec.Handleable;
    out, reply := HandleAt(nodes[e.node], H, e.node, views[e.node], e.link, t);
  }

  method HandleAt(node: ClusteredBigCache, ghost H: E.Hasher, ghost id: NodeId, ghost view: Spec.Node,
                  l: LinkId, t: Spec.Seen)
    returns (out: Spec.Out, reply: Option<(Spec.Request, seq<byte>)>)
    requires Is(node, H, id, view) && l in node.links && l in view.links && view.links[l] == node.links[l].View()
    requires node.links[l].inboundMsgQueue != [] && Spec.Handleable(node.links[l].inboundMsgQueue[0])
    modifies node`cache, node`remoteNodes, node`calls, node.links[l]
    ensures var effect := Spec.Handled(view, H, l, t);
            Is(node, H, id, effect.node) && out == effect.out && reply == effect.reply
  {
    HandledShape(view, H, l, t);
    hide ClusteredBigCache.View, Spec.Handled, Spec.Handleable;
    out, reply := node.HandleMessage(l, t);
  }

  lemma InboxIs(node: ClusteredBigCache, H: E.Hasher, id: NodeId, view: Spec.Node, l: LinkId)
    requires Is(node, H, id, view) && l in node.links
    ensures l in view.links && view.links[l] == node.links[l].View()
    ensures view.links[l].inbox == node.links[l].inboundMsgQueue && view.links[l].handling == node.links[l].handling
  {
  }

  method AddLink(nodes: Nodes, ghost H: E.Hasher, ghost views: Views, e: End, proposed: Option<NodeId>)
    returns (verify: Spec.Message)
    requires Stand(nodes, H, views) && e.node in nodes && e.link !in nodes[e.node].links
    modifies nodes[e.node]
    ensures Stand(nodes, H, views[e.node := WithLink(views[e.node], e.link, proposed)])
    ensures verify == Spec.Verify(e.node, views[e.node].mode)
    ensures var node := nodes[e.node];
            && e.link in node.links && fresh(node.links[e.link])
            && node.links == old(node.links)[e.link := node.links[e.link]]
  {
    ModeIs(nodes[e.node], H, e.node, views[e.node]);
    hide ClusteredBigCache.View;
    verify := nodes[e.node].AddLink(e.link, proposed);
  }

  lemma ModeIs(node: ClusteredBigCache, H: E.Hasher, id: NodeId, view: Spec.Node)
    requires Is(node, H, id, view)
    ensures view.mode == node.mode && view.started == node.started
    ensures view.replication == node.replicationChan && view.getQueue == node.getRequestChan
  {
  }

  // What is not inside a node: the connections, the messages on their way, and
  // what gets have returned.
  datatype Wire = Wire(far: map<End, End>, soup: set<Packet>, returned: seq<Return>, serial: nat)

  ghost function WireOf(g: Cluster): Wire {
    Wire(g.far, g.soup, g.returned, g.serial)
  }

  // The objects and the wire are where the cluster is.
  ghost predicate Follow(nodes: Nodes, H: E.Hasher, w: Wire, g: Cluster)
    reads nodes.Values, Links(nodes)
  {
    Stand(nodes, H, g.nodes) && w == WireOf(g)
  }

  function Sent(w: Wire, n: NodeId, out: Spec.Out): Wire {
    w.(soup := w.soup + set x | x in out && End(n, x.0) in w.far :: Packet(w.far[End(n, x.0)], x.1))
  }

  lemma SentIsPosted(g: Cluster, n: NodeId, out: Spec.Out)
    ensures Sent(WireOf(g), n, out) == WireOf(g).(soup := g.soup + Posted(g, n, out))
    ensures Posted(g, n, {}) == {}
  {
  }

  method PerformStart(nodes: Nodes, ghost H: E.Hasher, w: Wire, ghost g: Cluster, n: NodeId)
    requires Follow(nodes, H, w, g)
    modifies nodes.Values
    ensures Follow(nodes, H, w, Step(g, H, Act.Start(n)))
    ensures SameLinks(nodes)
  {
    hide Is, Posted;
    SentIsPosted(g, n, {});
    IdOf(nodes, H, g, n);
    if n in nodes {
      Start(nodes, H, g.nodes, n);
    }
  }

  lemma IdOf(nodes: Nodes, H: E.Hasher, g: Cluster, n: NodeId)
    requires Stand(nodes, H, g.nodes)
    ensures n in nodes <==> n in g.nodes
    ensures n in nodes ==> g.nodes[n].id == n && g.nodes[n].links.Keys == nodes[n].links.Keys
    ensures n in nodes ==> g.nodes[n].started == nodes[n].started
    ensures n in nodes ==> g.nodes[n].replication == nodes[n].replicationChan
    ensures n in nodes ==> g.nodes[n].getQueue == nodes[n].getRequestChan
  {
    if n in nodes {
      assert Is(nodes[n], H, n, g.nodes[n]);
      ModeIs(nodes[n], H, n, g.nodes[n]);
    }
  }

  method PerformDeliver(nodes: Nodes, ghost H: E.Hasher, w: Wire, ghost g: Cluster, p: Packet)
    requires Follow(nodes, H, w, g)
    modifies Links(nodes)
    ensures Follow(nodes, H, w, Step(g, H, Act.Deliver(p)))
  {
    hide Is, Posted, Spec.Queued;
    SentIsPosted(g, p.to.node, {});
    IdOf(nodes, H, g, p.to.node);
    if p in w.soup && p.to.node in nodes {
      if p.to.link in nodes[p.to.node].links {
        Deliver(nodes, H, g.nodes, p.to, p.msg);
      } else {
        assert g.nodes[p.to.node := g.nodes[p.to.node]] == g.nodes;
      }
    }
  }

  method PerformPut(nodes: Nodes, ghost H: E.Hasher, w: Wire, ghost g: Cluster,
                    n: NodeId, key: Key, data: seq<byte>, duration: nat, now: nat)
    requires Follow(nodes, H, w, g)
    modifies nodes.Values
    ensures Follow(nodes, H, w, Step(g, H, Act.ClientPut(n, key, data, duration, now)))
    ensures SameLinks(nodes)
  {
    hide Is, Posted, Spec.PutCall;
    SentIsPosted(g, n, {});
    IdOf(nodes, H, g, n);
    if n in nodes && nodes[n].started {
      PutShape(g.nodes[n], H, key, data, duration, now);
      Put(nodes, H, g.nodes, n, key, data, duration, now);
    }
  }

  method PerformDelete(nodes: Nodes, ghost H: E.Hasher, w: Wire, ghost g: Cluster, n: NodeId, key: Key)
    requires Follow(nodes, H, w, g)
    modifies nodes.Values
    ensures Follow(nodes, H, w, Step(g, H, Act.ClientDelete(n, key)))
    ensures SameLinks(nodes)
  {
    hide Is, Posted, Spec.ActivePeers;
    SentIsPosted(g, n, {});
    IdOf(nodes, H, g, n);
    if n in nodes {
      Delete(nodes, H, g.nodes, n, key);
    }
  }

  method PerformGet(nodes: Nodes, ghost H: E.Hasher, w: Wire, ghost g: Cluster, n: NodeId, key: Key, suffix: Key)
    returns (w': Wire)
    requires Follow(nodes, H, w, g)
    modifies nodes.Values
    ensures Follow(nodes, H, w', Step(g, H, Act.ClientGet(n, key, suffix)))
    ensures SameLinks(nodes)
  {
    hide Is, Posted, Spec.ActivePeers, Spec.GetOutcome;
    SentIsPosted(g, n, {});
    IdOf(nodes, H, g, n);
    w' := w;
    if n in nodes {
      var r := Get(nodes, H, g.nodes, n, Spec.Request(w.serial, key, suffix));
      w' := w.(serial := w.serial + 1,
               returned := w.returned + if r.Local? then [Return(w.serial, key, r.data)] else []);
    }
  }

  // The replication worker takes a message to its link.
  method PerformReplication(nodes: Nodes, ghost H: E.Hasher, w: Wire, ghost g: Cluster,
                            n: NodeId, l: LinkId, m: Spec.Message)
    returns (w': Wire)
    requires Follow(nodes, H, w, g)
    ensures Follow(nodes, H, w', Step(g, H, Act.SendReplication(n, l, m)))
  {
    hide Posted, Is, Sent;
    IdOf(nodes, H, g, n);
    w' := w;
    if n in nodes && (l, m) in nodes[n].replicationChan {
      var out := SendMessage(nodes, H, g.nodes, n, l, m);
      SentIsPosted(g, n, out);
      w' := Sent(w, n, out);
      assert g.nodes[n := g.nodes[n]] == g.nodes;
    }
  }

  method SendMessage(nodes: Nodes, ghost H: E.Hasher, ghost views: Views, n: NodeId, l: LinkId, m: Spec.Message)
    returns (out: Spec.Out)
    requires Stand(nodes, H, views) && n in nodes
    ensures out == Spec.Send(views[n], l, m)
  {
    hide ClusteredBigCache.View, Spec.Send;
    assert Is(nodes[n], H, n, views[n]);
    out := nodes[n].SendMessage(l, m);
  }

  // The worker for gets takes a request to its link.
  method PerformSendGet(nodes: Nodes, ghost H: E.Hasher, w: Wire, ghost g: Cluster,
                        n: NodeId, l: LinkId, q: Spec.Request)
    returns (w': Wire)
    requires Follow(nodes, H, w, g)
    modifies Links(nodes)
    ensures Follow(nodes, H, w', Step(g, H, Act.SendGet(n, l, q)))
  {
    hide Posted, Is, Sent;
    IdOf(nodes, H, g, n);
    w' := w;
    if n in nodes && (l, q) in nodes[n].getRequestChan {
      AskedShape(g.nodes[n], l, q);
      hide Spec.Asked;
      SentIsPosted(g, n, Spec.Asked(g.nodes[n], l, q).1);
      if l in nodes[n].links {
        var out := SendGet(nodes, H, g.nodes, n, l, q);
        w' := Sent(w, n, out);
      } else {
        assert g.nodes[n := g.nodes[n]] == g.nodes;
      }
    }
  }

  lemma AskedShape(n: Spec.Node, l: LinkId, q: Spec.Request)
    ensures Spec.Asked(n, l, q).0.id == n.id && (l !in n.links ==> Spec.Asked(n, l, q) == (n, {}))
  {
  }

  method PerformClose(nodes: Nodes, ghost H: E.Hasher, w: Wire, ghost g: Cluster, e: End)
    requires Follow(nodes, H, w, g)
    modifies nodes.Values, Links(nodes)
    ensures Follow(nodes, H, w, Step(g, H, Act.Close(e)))
    ensures SameLinks(nodes)
  {
    hide Is, Posted;
    SentIsPosted(g, e.node, {});
    IdOf(nodes, H, g, e.node);
    if e.node in nodes {
      if e.link in nodes[e.node].links {
        Close(nodes, H, g.nodes, e);
      } else {
        assert g.nodes[e.node := g.nodes[e.node]] == g.nodes;
      }
    }
  }

  method PerformAwait(nodes: Nodes, ghost H: E.Hasher, w: Wire, ghost g: Cluster, n: NodeId, serial: nat)
    requires Follow(nodes, H, w, g)
    modifies nodes.Values
    ensures Follow(nodes, H, w, Step(g, H, Act.Await(n, serial)))
    ensures SameLinks(nodes)
  {
    hide Is, Posted;
    SentIsPosted(g, n, {});
    IdOf(nodes, H, g, n);
    if n in nodes {
      Await(nodes, H, g.nodes, n, serial);
    }
  }

  method PerformGiveUp(nodes: Nodes, ghost H: E.Hasher, w: Wire, ghost g: Cluster, n: NodeId, serial: nat)
    requires Follow(nodes, H, w, g)
    modifies nodes.Values
    ensures Follow(nodes, H, w, Step(g, H, Act.GiveUp(n, serial)))
    ensures SameLinks(nodes)
  {
    hide Is, Posted;
    SentIsPosted(g, n, {});
    IdOf(nodes, H, g, n);
    if n in nodes {
      GiveUp(nodes, H, g.nodes, n, serial);
    }
  }

  method PerformDisconnect(nodes: Nodes, ghost H: E.Hasher, w: Wire, ghost g: Cluster, e: End)
    requires Follow(nodes, H, w, g)
    modifies Links(nodes)
    ensures Follow(nodes, H, w, Step(g, H, Act.Disconnect(e)))
  {
    hide Is, Posted;
    SentIsPosted(g, e.node, {});
    IdOf(nodes, H, g, e.node);
    if e.node in nodes {
      if e.link in nodes[e.node].links {
        Disconnect(nodes, H, g.nodes, e);
      } else {
        assert g.nodes[e.node := g.nodes[e.node]] == g.nodes;
      }
    }
  }

  method PerformLose(nodes: Nodes, ghost H: E.Hasher, w: Wire, ghost g: Cluster, n: NodeId, h: nat)
    requires Follow(nodes, H, w, g)
    modifies nodes.Values
    ensures Follow(nodes, H, w, Step(g, H, Act.Lose(n, h)))
    ensures SameLinks(nodes)
  {
    hide Is, Posted;
    SentIsPosted(g, n, {});
    IdOf(nodes, H, g, n);
    if n in nodes {
      Lose(nodes, H, g.nodes, n, h);
    }
  }

  method PerformHandle(nodes: Nodes, ghost H: E.Hasher, w: Wire, ghost g: Cluster, e: End, t: Spec.Seen)
    returns (w': Wire)
    requires Follow(nodes, H, w, g) && Invariant(g)
    modifies nodes.Values, Links(nodes)
    ensures Follow(nodes, H, w', Step(g, H, Act.HandleNext(e, t)))
    ensures SameLinks(nodes)
  {
    hide Invariant, Posted, Sent, Spec.Handled, Spec.Handleable;
    IdOf(nodes, H, g, e.node);
    w' := w;
    if e.node in nodes && e.link in nodes[e.node].links {
      InboxIs(nodes[e.node], H, e.node, g.nodes[e.node], e.link);
      if nodes[e.node].links[e.link].handling && nodes[e.node].links[e.link].inboundMsgQueue != [] {
        NextDecodes(g, e);
        HandledShape(g.nodes[e.node], H, e.link, t);
        hide Is;
        var out, reply := Handle(nodes, H, g.nodes, e, t);
        SentIsPosted(g, e.node, out);
        var answers := if reply.Some? then [ReturnOf(reply.value)] else [];
        w' := Sent(w, e.node, out).(returned := w.returned + answers);
      }
    }
  }

  // In a reachable cluster the next message of a link can be read.
  lemma NextDecodes(g: Cluster, e: End)
    requires Invariant(g) && e.node in g.nodes && e.link in g.nodes[e.node].links
    requires g.nodes[e.node].links[e.link].inbox != []
    ensures Spec.Handleable(g.nodes[e.node].links[e.link].inbox[0])
  {
    NodeOf(g, e.node);
    hide Invariant, GoodNode, GoodMessage;
    NextMessage(WorldOf(g), g.nodes[e.node], e.link);
    Decodes(WorldOf(g), WorldOf(g).far[e].node, e.node, g.nodes[e.node].links[e.link].inbox[0]);
  }

  method PerformConnect(nodes: Nodes, ghost H: E.Hasher, w: Wire, ghost g: Cluster, a: End, b: End,
                        proposed: Option<NodeId>) returns (w': Wire)
    requires Follow(nodes, H, w, g)
    modifies nodes.Values
    ensures Follow(nodes, H, w', Step(g, H, Act.Connect(a, b, proposed)))
    ensures fresh(Links(nodes) - old(Links(nodes)))
  {
    hide Is;
    IdOf(nodes, H, g, a.node);
    IdOf(nodes, H, g, b.node);
    w' := w;
    if a == b || a.node !in nodes || b.node !in nodes || a in w.far || b in w.far
       || a.link in nodes[a.node].links || b.link in nodes[b.node].links {
      return;
    }
    var fromA, fromB := AddLinks(nodes, H, g, a, b, proposed);
    w' := w.(far := w.far[a := b][b := a], soup := w.soup + {Packet(b, fromA), Packet(a, fromB)});
  }

  // The two ends of a connection.
  method AddLinks(nodes: Nodes, ghost H: E.Hasher, ghost g: Cluster, a: End, b: End, proposed: Option<NodeId>)
    returns (fromA: Spec.Message, fromB: Spec.Message)
    requires Stand(nodes, H, g.nodes) && a != b && a.node in nodes && b.node in nodes
    requires a.link !in nodes[a.node].links && b.link !in nodes[b.node].links
    modifies nodes[a.node], nodes[b.node]
    ensures var one := g.nodes[a.node := WithLink(g.nodes[a.node], a.link, proposed)];
            Stand(nodes, H, one[b.node := WithLink(one[b.node], b.link, None)])
    ensures fromA == Spec.Verify(a.node, g.nodes[a.node].mode) && fromB == Spec.Verify(b.node, g.nodes[b.node].mode)
    ensures fresh(Links(nodes) - old(Links(nodes)))
  {
    hide Is;
    IdOf(nodes, H, g, b.node);
    fromA := AddLink(nodes, H, g.nodes, a, proposed);
    ghost var one := g.nodes[a.node := WithLink(g.nodes[a.node], a.link, proposed)];
    IdOf(nodes, H, g.(nodes := one), b.node);
    fromB := AddLink(nodes, H, one, b, None);
  }

  // Any act on the objects is the step of the cluster.
  method Perform(nodes: Nodes, ghost H: E.Hasher, w: Wire, ghost g: Cluster, act: Act) returns (w': Wire)
    requires Follow(nodes, H, w, g) && Invariant(g)
    modifies nodes.Values, Links(nodes)
    ensures Follow(nodes, H, w', Step(g, H, act))
    ensures fresh(Links(nodes) - old(Links(nodes)))
  {
    hide Follow, Step, Invariant;
    w' := w;
    match act {
      case Start(n) => PerformStart(nodes, H, w, g, n);
      case Connect(a, b, proposed) => w' := PerformConnect(nodes, H, w, g, a, b, proposed); return;
      case Deliver(p) => PerformDeliver(nodes, H, w, g, p);
      case HandleNext(e, t) => w' := PerformHandle(nodes, H, w, g, e, t);
      case ClientPut(n, key, data, duration, now) => PerformPut(nodes, H, w, g, n, key, data, duration, now);
      case ClientDelete(n, key) => PerformDelete(nodes, H, w, g, n, key);
      case ClientGet(n, key, suffix) => w' := PerformGet(nodes, H, w, g, n, key, suffix);
      case SendReplication(n, l, m) => w' := PerformReplication(nodes, H, w, g, n, l, m);
      case SendGet(n, l, q) => w' := PerformSendGet(nodes, H, w, g, n, l, q);
      case Await(n, serial) => PerformAwait(nodes, H, w, g, n, serial);
      case GiveUp(n, serial) => PerformGiveUp(nodes, H, w, g, n, serial);
      case Disconnect(e) => PerformDisconnect(nodes, H, w, g, e);
      case Close(e) => PerformClose(nodes, H, w, g, e);
      case Lose(n, h) => PerformLose(nodes, H, w, g, n, h);
    }
    NoNewLinks(nodes);
  }

  // One node object for every id.
  method NewNodes(modes: map<NodeId, Spec.Mode>, H: E.Hasher) returns (nodes: Nodes)
    ensures Stand(nodes, H, Initial(modes).nodes)
    ensures fresh(nodes.Values) && Links(nodes) == {}
  {
    hide ClusteredBigCache.View;
    nodes := map[];
    var rest := modes.Keys;
    while rest != {}
      invariant rest <= modes.Keys && nodes.Keys == modes.Keys - rest && fresh(nodes.Values)
      invariant forall id | id in nodes :: Is(nodes[id], H, id, Empty(id, modes[id])) && nodes[id].links == map[]
    {
      var id :| id in rest;
      var node := new ClusteredBigCache(id, modes[id], H);
      assert Is(node, H, id, Empty(id, modes[id]));
      assert nodes[id := node].Values <= nodes.Values + {node};
      nodes, rest := nodes[id := node], rest - {id};
    }
  }

  // In any run of the objects the gets return what those of the cluster do: each
  // at most once, and only values that were put under their keys.
  method RunCluster(modes: map<NodeId, Spec.Mode>, H: E.Hasher, acts: seq<Act>) returns (returned: seq<Return>)
    requires AllSane(acts)
    ensures returned == Run(Initial(modes), H, acts).returned && Once(returned)
    ensures forall r | r in returned :: WasPut(acts, r.key, r.data)
  {
    hide Step, Invariant, Sane, Stand, Once;
    var nodes := NewNodes(modes, H);
    var w := Wire(map[], {}, [], 0);
    ghost var g := Initial(modes);
    InitialGood(modes);
    for i := 0 to |acts|
      invariant Follow(nodes, H, w, g) && fresh(nodes.Values) && fresh(Links(nodes))
      invariant Invariant(g) && Run(g, H, acts[i..]) == Run(Initial(modes), H, acts)
    {
      assert acts[i..][0] == acts[i] && acts[i..][1..] == acts[i + 1..];
      StepKeeps(g, H, acts[i]);
      w := Perform(nodes, H, w, g, acts[i]);
      g := Step(g, H, acts[i]);
    }
    returned := w.returned;
    AtMostOneReturn(modes, H, acts);
    forall r | r in returned ensures WasPut(acts, r.key, r.data) {
      GetReturnsOnlyPut(modes, H, acts, r);
    }
  }
}
