// Runs from the very start in which a good link loses its registration.
module ClusterWitness {
  import opened Results
  import opened ClusterSpec
  import opened ClusterInvariant
  import opened ClusterRun
  import opened ClusterPaths
  import opened ClusterRegistry
  import E = ExpirySystem

  // Two nodes with two connections between them: node a has dialled one,
  // perhaps for a proposed peer, and node b the other.
  datatype Setting = Setting(a: NodeId, b: NodeId, dialled: LinkId, good: LinkId, there: LinkId, back: LinkId)

  predicate Proper(x: Setting, modes: map<NodeId, Mode>) {
    && x.a in modes && x.b in modes && x.a != x.b && x.dialled != x.good && x.there != x.back
    && !(modes[x.a] == Passive && modes[x.b] == Passive)
  }

  function Dialled(x: Setting): End { End(x.a, x.dialled) }
  function Good(x: Setting): End { End(x.a, x.good) }
  function There(x: Setting): End { End(x.b, x.there) }
  function Back(x: Setting): End { End(x.b, x.back) }

  // What a good link to node b looks like.
  function HealthyLink(id: NodeId, mode: Mode): Link {
    NEW_LINK.(state := LinkState.Connected, peer := Some(id), mode := mode, verified := true)
  }

  // Both connections stand, and nothing has been delivered.
  ghost predicate Standing(g: Cluster, x: Setting, modes: map<NodeId, Mode>, proposed: Option<NodeId>)
    requires Proper(x, modes)
  {
    && WellNamed(g) && x.a in g.nodes && Good(x) in g.far
    && g.nodes[x.a].links == map[x.dialled := NewLink(proposed), x.good := NewLink(None)]
    && g.nodes[x.a].remoteNodes == map[] && g.nodes[x.a].mode == modes[x.a]
    && Packet(Good(x), Verify(x.b, modes[x.b])) in g.soup && Packet(Dialled(x), Verify(x.b, modes[x.b])) in g.soup
  }

  // The connection that b has dialled is up and registered.
  ghost predicate Registering(g: Cluster, x: Setting, modes: map<NodeId, Mode>, proposed: Option<NodeId>)
    requires Proper(x, modes)
  {
    && WellNamed(g) && x.a in g.nodes
    && g.nodes[x.a].links == map[x.dialled := NewLink(proposed), x.good := HealthyLink(x.b, modes[x.b])]
    && g.nodes[x.a].remoteNodes == map[x.b := x.good] && g.nodes[x.a].mode == modes[x.a]
    && Packet(Dialled(x), Verify(x.b, modes[x.b])) in g.soup
  }

  // That connection is still up, but its peer is registered no more.
  ghost predicate Lost(g: Cluster, x: Setting, modes: map<NodeId, Mode>)
    requires Proper(x, modes)
  {
    && x.a in g.nodes && x.good in g.nodes[x.a].links && g.nodes[x.a].links[x.good] == HealthyLink(x.b, modes[x.b])
    && x.b !in g.nodes[x.a].remoteNodes
  }

  // The first connection from nothing.
  lemma OneStands(modes: map<NodeId, Mode>, H: E.Hasher, x: Setting, proposed: Option<NodeId>)
    requires Proper(x, modes)
    ensures var g := Step(Initial(modes), H, Connect(Dialled(x), There(x), proposed));
            && WellNamed(g) && g.nodes.Keys == modes.Keys
            && g.far == map[Dialled(x) := There(x), There(x) := Dialled(x)]
            && g.nodes[x.a] == WithLink(Empty(x.a, modes[x.a]), x.dialled, proposed)
            && g.nodes[x.b] == WithLink(Empty(x.b, modes[x.b]), x.there, None)
            && Packet(Dialled(x), Verify(x.b, modes[x.b])) in g.soup
  {
    var g := Initial(modes);
    ConnectedNow(g, H, Dialled(x), There(x), proposed);
    assert g.far[Dialled(x) := There(x)][There(x) := Dialled(x)] == map[Dialled(x) := There(x), There(x) := Dialled(x)];
  }

  // The second one beside it.
  lemma BothStand(g: Cluster, H: E.Hasher, modes: map<NodeId, Mode>, x: Setting, proposed: Option<NodeId>)
    requires Proper(x, modes) && WellNamed(g) && g.nodes.Keys == modes.Keys
    requires g.far == map[Dialled(x) := There(x), There(x) := Dialled(x)]
    requires g.nodes[x.a] == WithLink(Empty(x.a, modes[x.a]), x.dialled, proposed)
    requires g.nodes[x.b] == WithLink(Empty(x.b, modes[x.b]), x.there, None)
    requires Packet(Dialled(x), Verify(x.b, modes[x.b])) in g.soup
    ensures Standing(Step(g, H, Connect(Back(x), Good(x), None)), x, modes, proposed)
  {
    ConnectedNow(g, H, Back(x), Good(x), None);
    var v := Step(g, H, Connect(Back(x), Good(x), None));
    assert g.soup <= v.soup;
    assert v.nodes[x.a].links == map[x.dialled := NewLink(proposed), x.good := NewLink(None)];
  }

  // Node b introduces itself on its own connection.
  lemma Registers(g: Cluster, H: E.Hasher, modes: map<NodeId, Mode>, x: Setting, proposed: Option<NodeId>, t: Seen)
    requires Proper(x, modes) && Standing(g, x, modes, proposed)
    ensures var v := Step(Step(g, H, Deliver(Packet(Good(x), Verify(x.b, modes[x.b])))), H, HandleNext(Good(x), t));
            Registering(v, x, modes, proposed)
  {
    hide Step;
    Introduced(g, H, Good(x), None, x.b, modes[x.b], t);
    assert map[x.dialled := NewLink(proposed), x.good := NewLink(None)][x.good := HealthyLink(x.b, modes[x.b])] ==
           map[x.dialled := NewLink(proposed), x.good := HealthyLink(x.b, modes[x.b])];
  }

  function Opening(modes: map<NodeId, Mode>, x: Setting, proposed: Option<NodeId>, t: Seen): seq<Act>
    requires Proper(x, modes)
  {
    [Connect(Dialled(x), There(x), proposed), Connect(Back(x), Good(x), None),
     Deliver(Packet(Good(x), Verify(x.b, modes[x.b]))), HandleNext(Good(x), t)]
  }

  lemma Opened(modes: map<NodeId, Mode>, H: E.Hasher, x: Setting, proposed: Option<NodeId>, t: Seen)
    requires Proper(x, modes)
    ensures Registering(Run(Initial(modes), H, Opening(modes, x, proposed, t)), x, modes, proposed)
  {
    hide Run, Step, Initial, Standing, Registering;
    var acts := Opening(modes, x, proposed, t);
    Four(Initial(modes), H, acts[0], acts[1], acts[2], acts[3]);
    OneStands(modes, H, x, proposed);
    BothStand(Step(Initial(modes), H, acts[0]), H, modes, x, proposed);
    Registers(Step(Step(Initial(modes), H, acts[0]), H, acts[1]), H, modes, x, proposed, t);
  }

  // Node a dials b for a proposal while b connects on its own; the dialled
  // connection breaks before b has introduced itself there.
  lemma DialledLinkLoses(modes: map<NodeId, Mode>, H: E.Hasher, x: Setting, t: Seen)
    requires Proper(x, modes)
    ensures Lost(Run(Initial(modes), H, Opening(modes, x, Some(x.b), t) + [Close(Dialled(x))]), x, modes)
  {
    hide Run, Step, Initial;
    var acts := Opening(modes, x, Some(x.b), t);
    Opened(modes, H, x, Some(x.b), t);
    RunSplit(Initial(modes), H, acts, [Close(Dialled(x))]);
    var g := Run(Initial(modes), H, acts);
    OneAct(g, H, Close(Dialled(x)));
    NamesakeUnregisters(g, H, Dialled(x), x.b, x.good);
  }

  lemma OneAct(g: Cluster, H: E.Hasher, act: Act)
    ensures Run(g, H, [act]) == Step(g, H, act)
  {
    hide Step;
    assert [act][1..] == [];
  }

  // Node a has dialled b without knowing it; b introduces itself there, too, is
  // refused, and the connection goes down.
  lemma DuplicateLinkLoses(modes: map<NodeId, Mode>, H: E.Hasher, x: Setting, t: Seen)
    requires Proper(x, modes) && !t.missed
    ensures var duplicate := DuplicateRun(Dialled(x), x.b, modes[x.b], t);
            Lost(Run(Initial(modes), H, Opening(modes, x, None, t) + duplicate), x, modes)
  {
    hide Run, Step, Initial;
    var acts := Opening(modes, x, None, t);
    Opened(modes, H, x, None, t);
    RunSplit(Initial(modes), H, acts, DuplicateRun(Dialled(x), x.b, modes[x.b], t));
    DuplicateUnregisters(Run(Initial(modes), H, acts), H, Dialled(x), x.b, modes[x.b], x.good, t);
  }

  // Both introductions are handled at once, and the second does not see the
  // first: the good connection stays up, but b is registered with the other.
  lemma RacingLinkReplaces(modes: map<NodeId, Mode>, H: E.Hasher, x: Setting, t: Seen)
    requires Proper(x, modes) && t.missed
    ensures var late := [Deliver(Packet(Dialled(x), Verify(x.b, modes[x.b]))), HandleNext(Dialled(x), t)];
            var v := Run(Initial(modes), H, Opening(modes, x, None, t) + late);
            && Registered(v, x.a, x.b, x.dialled)
            && x.good in v.nodes[x.a].links && v.nodes[x.a].links[x.good] == HealthyLink(x.b, modes[x.b])
  {
    hide Run, Step, Initial;
    var acts := Opening(modes, x, None, t);
    var late := [Deliver(Packet(Dialled(x), Verify(x.b, modes[x.b]))), HandleNext(Dialled(x), t)];
    Opened(modes, H, x, None, t);
    RunSplit(Initial(modes), H, acts, late);
    var g := Run(Initial(modes), H, acts);
    Two(g, H, late[0], late[1]);
    Replaced(g, H, modes, x, t);
  }

  lemma Replaced(g: Cluster, H: E.Hasher, modes: map<NodeId, Mode>, x: Setting, t: Seen)
    requires Proper(x, modes) && t.missed && Registering(g, x, modes, None)
    ensures var g1 := Step(g, H, Deliver(Packet(Dialled(x), Verify(x.b, modes[x.b]))));
            var v := Step(g1, H, HandleNext(Dialled(x), t));
            && Registered(v, x.a, x.b, x.dialled)
            && x.good in v.nodes[x.a].links && v.nodes[x.a].links[x.good] == HealthyLink(x.b, modes[x.b])
  {
    hide Step, Posted;
    Handed(g, H, Dialled(x), Verify(x.b, modes[x.b]), t);
  }
}
