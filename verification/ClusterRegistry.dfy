// Who is registered with whom, over whole runs.
module ClusterRegistry {
  import opened Results
  import opened Messages
  import opened ReplicatedExpiry
  import ExpirySystem
  import opened ClusterSpec
  import opened ClusterInvariant
  import opened ClusterRun
  import KeyedBlob

  // The act tears down a link of node a that is known under that id, be it the
  // link registered under the id or another, be it that its peer has given the
  // id or that the link was only dialled for it.
  ghost predicate Unregisters(g: Cluster, act: Act, a: NodeId, id: NodeId) {
    && act.Close? && act.e.node == a && a in g.nodes && act.e.link in g.nodes[a].links
    && g.nodes[a].links[act.e.link].peer == Some(id)
  }

  // The act handles a VERIFY with that id on a link of node a, and its look
  // into the registry misses the entry.
  ghost predicate Replaces(g: Cluster, act: Act, a: NodeId, id: NodeId) {
    && act.HandleNext? && act.e.node == a && a in g.nodes && act.e.link in g.nodes[a].links && act.t.missed
    && var link := g.nodes[a].links[act.e.link];
       link.handling && link.state != Disconnected && link.inbox != [] && Admits(g.nodes[a], link.inbox[0], id)
  }

  // The message introduces that peer, and not two passive nodes to each other.
  ghost predicate Admits(n: Node, m: Message, id: NodeId) {
    m.Verify? && m.id == id && !(m.mode == Passive && n.mode == Passive)
  }

  ghost predicate Registered(g: Cluster, a: NodeId, id: NodeId, l: LinkId) {
    a in g.nodes && id in g.nodes[a].remoteNodes && g.nodes[a].remoteNodes[id] == l
  }

  lemma HandledRegistry(n: Node, H: ExpirySystem.Hasher, l: LinkId, t: Seen, id: NodeId)
    requires l in n.links && n.links[l].inbox != [] && id in n.remoteNodes
    ensures var r := Handled(n, H, l, t).node;
            var replaced := n.links[l].state != Disconnected && t.missed && Admits(n, n.links[l].inbox[0], id);
            r.id == n.id && id in r.remoteNodes && r.remoteNodes[id] == if replaced then l else n.remoteNodes[id]
  {
    hide Stored, Resolved, Answered;
    StoredRest(Dequeued(n, l), H, l, t);
  }

  lemma StoredRest(n: Node, H: ExpirySystem.Hasher, l: LinkId, t: Seen)
    ensures forall body :: Stored(n, H, body, t).id == n.id && Stored(n, H, body, t).remoteNodes == n.remoteNodes
    ensures forall body :: Resolved(n, l, body).0.id == n.id && Resolved(n, l, body).0.remoteNodes == n.remoteNodes
  {
    hide Received, KeyedBlob.ReadKey, KeyedBlob.ReadValue;
  }

  // Every act but two kinds keeps a registration: tearing down a link known
  // under that id ends it, and a VERIFY that misses it gives it to its own
  // link.
  lemma StepRegistered(g: Cluster, H: ExpirySystem.Hasher, act: Act, a: NodeId, id: NodeId, l: LinkId)
    requires WellNamed(g) && Registered(g, a, id, l)
    ensures a in Step(g, H, act).nodes
    ensures if Unregisters(g, act, a, id) then id !in Step(g, H, act).nodes[a].remoteNodes
            else Registered(Step(g, H, act), a, id, if Replaces(g, act, a, id) then act.e.link else l)
  {
    if act.HandleNext? {
      HandleRegistered(g, H, act.e, act.t, a, id, l);
    } else if act.Close? {
      CloseRegistered(g, H, act.e, a, id, l);
    } else {
      OthersRegistered(g, H, act, a, id, l);
    }
  }

  lemma HandleRegistered(g: Cluster, H: ExpirySystem.Hasher, e: End, t: Seen, a: NodeId, id: NodeId, l: LinkId)
    requires WellNamed(g) && Registered(g, a, id, l)
    ensures var act := HandleNext(e, t);
            Registered(Step(g, H, act), a, id, if Replaces(g, act, a, id) then e.link else l)
  {
    hide Handled, Posted;
    if e.node == a && e.link in g.nodes[a].links && g.nodes[a].links[e.link].inbox != [] {
      HandledRegistry(g.nodes[a], H, e.link, t, id);
    } else if e.node in g.nodes && e.link in g.nodes[e.node].links && g.nodes[e.node].links[e.link].inbox != [] {
      HandledShape(g.nodes[e.node], H, e.link, t);
    }
  }

  lemma CloseRegistered(g: Cluster, H: ExpirySystem.Hasher, e: End, a: NodeId, id: NodeId, l: LinkId)
    requires WellNamed(g) && Registered(g, a, id, l)
    ensures a in Step(g, H, Close(e)).nodes
    ensures if Unregisters(g, Close(e), a, id) then id !in Step(g, H, Close(e)).nodes[a].remoteNodes
            else Registered(Step(g, H, Close(e)), a, id, l)
  {
    hide Posted;
  }

  lemma OthersRegistered(g: Cluster, H: ExpirySystem.Hasher, act: Act, a: NodeId, id: NodeId, l: LinkId)
    requires WellNamed(g) && Registered(g, a, id, l) && !act.HandleNext? && !act.Close?
    ensures Registered(Step(g, H, act), a, id, l)
  {
    hide ActivePeers, Posted, GetOutcome, PutBytes;
  }

  ghost predicate Ends(g: Cluster, act: Act, a: NodeId, id: NodeId) {
    Unregisters(g, act, a, id) || Replaces(g, act, a, id)
  }

  // Once a link is registered it stays registered under its id until one of
  // these acts, in every run.
  lemma {:induction false} RegisteredUntilClosed(g: Cluster, H: ExpirySystem.Hasher, acts: seq<Act>,
                                                 a: NodeId, id: NodeId, l: LinkId)
    requires Invariant(g) && AllSane(acts) && Registered(g, a, id, l)
    ensures Registered(Run(g, H, acts), a, id, l)
            || exists i :: 0 <= i < |acts| && Ends(Run(g, H, acts[..i]), acts[i], a, id)
    decreases |acts|
  {
    hide Step, Invariant, Unregisters, Replaces, Registered, Sane;
    if acts != [] {
      var v := Step(g, H, acts[0]);
      InvariantNames(g);
      StepKeeps(g, H, acts[0]);
      StepRegistered(g, H, acts[0], a, id, l);
      if Ends(g, acts[0], a, id) {
        assert Ends(Run(g, H, acts[..0]), acts[0], a, id);
      } else {
        RegisteredUntilClosed(v, H, acts[1..], a, id, l);
        if i :| 0 <= i < |acts| - 1 && Ends(Run(v, H, acts[1..][..i]), acts[1..][i], a, id) {
          assert acts[..i + 1][1..] == acts[1..][..i];
          assert Ends(Run(g, H, acts[..i + 1]), acts[i + 1], a, id);
        }
      }
    }
  }

  // A link that the node knows under an id already registered for another link
  // takes the registration with it when it is torn down. The other link stays
  // as it is.
  lemma NamesakeUnregisters(g: Cluster, H: ExpirySystem.Hasher, e: End, id: NodeId, l: LinkId)
    requires WellNamed(g) && Registered(g, e.node, id, l) && l in g.nodes[e.node].links && l != e.link
    requires e.link in g.nodes[e.node].links && g.nodes[e.node].links[e.link].peer == Some(id)
    ensures var v := Step(g, H, Close(e));
            && e.node in v.nodes && id !in v.nodes[e.node].remoteNodes
            && l in v.nodes[e.node].links && v.nodes[e.node].links[l] == g.nodes[e.node].links[l]
  {
    hide Posted;
  }

  // A second connection to a peer that is already registered: its VERIFY is
  // delivered and refused, and the link goes down.
  function DuplicateRun(e: End, id: NodeId, mode: Mode, t: Seen): seq<Act> {
    [Deliver(Packet(e, Verify(id, mode))), HandleNext(e, t), Close(e)]
  }

  // The duplicate takes the registration with it.
  lemma DuplicateUnregisters(g: Cluster, H: ExpirySystem.Hasher, e: End, id: NodeId, mode: Mode, l: LinkId, t: Seen)
    requires WellNamed(g) && Registered(g, e.node, id, l) && l in g.nodes[e.node].links && l != e.link && !t.missed
    requires e.link in g.nodes[e.node].links && Packet(e, Verify(id, mode)) in g.soup
    requires var link := g.nodes[e.node].links[e.link]; link.state != Disconnected && link.handling && link.inbox == []
    ensures var v := Run(g, H, DuplicateRun(e, id, mode, t));
            && e.node in v.nodes && id !in v.nodes[e.node].remoteNodes
            && l in v.nodes[e.node].links && v.nodes[e.node].links[l] == g.nodes[e.node].links[l]
  {
    hide Run, Step;
    var p := Packet(e, Verify(id, mode));
    Refused(g, H, e, id, mode, l, t);
    NamesakeUnregisters(Step(Step(g, H, Deliver(p)), H, HandleNext(e, t)), H, e, id, l);
    ThreeActs(g, H, Deliver(p), HandleNext(e, t), Close(e));
  }

  lemma Refused(g: Cluster, H: ExpirySystem.Hasher, e: End, id: NodeId, mode: Mode, l: LinkId, t: Seen)
    requires WellNamed(g) && Registered(g, e.node, id, l) && l in g.nodes[e.node].links && l != e.link && !t.missed
    requires e.link in g.nodes[e.node].links && Packet(e, Verify(id, mode)) in g.soup
    requires var link := g.nodes[e.node].links[e.link]; link.state != Disconnected && link.handling && link.inbox == []
    ensures var v := Step(Step(g, H, Deliver(Packet(e, Verify(id, mode)))), H, HandleNext(e, t));
            && WellNamed(v) && Registered(v, e.node, id, l) && l in v.nodes[e.node].links
            && v.nodes[e.node].links[l] == g.nodes[e.node].links[l]
            && e.link in v.nodes[e.node].links && v.nodes[e.node].links[e.link].peer == Some(id)
            && !v.nodes[e.node].links[e.link].handling
  {
    hide Posted;
    var g1 := Step(g, H, Deliver(Packet(e, Verify(id, mode))));
    assert g1.nodes[e.node].links[e.link].inbox == [Verify(id, mode)];
  }

  lemma ThreeActs(g: Cluster, H: ExpirySystem.Hasher, a: Act, b: Act, c: Act)
    ensures Run(g, H, [a, b, c]) == Step(Step(Step(g, H, a), H, b), H, c)
  {
    hide Step;
    assert [a, b, c][1..] == [b, c] && [b, c][1..] == [c] && [c][1..] == [];
    assert Run(Step(g, H, a), H, [b, c]) == Run(Step(Step(g, H, a), H, b), H, [c]);
  }
}
