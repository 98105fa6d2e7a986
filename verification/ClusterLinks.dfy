// What holds of every link in every run: messages are handled in the order in
// which they arrive, and a link that is down stays down and is silent.
module ClusterLinks {
  import opened KeyedBlob
  import opened Messages
  import opened Results
  import opened ClusterSpec
  import opened ClusterInvariant
  import opened ClusterRun
  import E = ExpirySystem
  import ReplicatedExpiry

  ghost predicate Has(g: Cluster, e: End) {
    e.node in g.nodes && e.link in g.nodes[e.node].links
  }

  ghost function LinkOf(g: Cluster, e: End): Link
    requires Has(g, e)
  {
    g.nodes[e.node].links[e.link]
  }

  // What waits at an end to be handled.
  ghost function Waiting(g: Cluster, e: End): seq<Message> {
    if Has(g, e) then LinkOf(g, e).inbox else []
  }

  ghost predicate Down(g: Cluster, e: End) {
    Has(g, e) && LinkOf(g, e).state == Disconnected
  }

  // The act delivers a packet that the end takes in: a link in the handshake
  // takes only introductions, and a link that is down takes nothing.
  ghost predicate TakesIn(g: Cluster, act: Act, e: End) {
    && act.Deliver? && act.p in g.soup && act.p.to == e && Has(g, e) && !Down(g, e)
    && (LinkOf(g, e).state == Handshake ==> act.p.msg.Verify? || act.p.msg.VerifyOK?)
  }

  // The act has the end handle its next message.
  ghost predicate Treats(g: Cluster, act: Act, e: End) {
    act.HandleNext? && act.e == e && Has(g, e) && LinkOf(g, e).handling && LinkOf(g, e).inbox != []
  }

  // ---- one node ----

  // How a link may change otherwise: what waits stays as it is, and what is
  // down stays down.
  ghost predicate Quiet(a: Link, b: Link) {
    b.inbox == a.inbox && (a.state == Disconnected ==> b.state == Disconnected)
  }

  ghost predicate QuietBut(n: Node, m: Node, l: LinkId) {
    m.id == n.id && m.links.Keys == n.links.Keys && forall x | x in n.links && x != l :: m.links[x] == n.links[x]
  }

  lemma NodeQuiet(n: Node, l: LinkId, q: Request)
    ensures QuietBut(n, TornDown(n, l), l) && QuietBut(n, CutOff(n, l), l) && QuietBut(n, Asked(n, l, q).0, l)
    ensures l in n.links ==> && Quiet(n.links[l], TornDown(n, l).links[l]) && Quiet(n.links[l], CutOff(n, l).links[l])
                             && Quiet(n.links[l], Asked(n, l, q).0.links[l])
    ensures forall x | x in Asked(n, l, q).1 :: x.0 == l && l in n.links && n.links[l].state != Disconnected
  {
  }

  lemma CallsQuiet(n: Node, H: E.Hasher, key: Key, data: seq<byte>, duration: nat, now: nat, q: Request, serial: nat)
    ensures var m := PutCall(n, H, key, data, duration, now); m.id == n.id && m.links == n.links
    ensures var m := DeleteCall(n, H, key); m.id == n.id && m.links == n.links
    ensures var m := GetCall(n, H, q); m.id == n.id && m.links == n.links
    ensures var m := Awaited(n, serial); m.id == n.id && m.links == n.links
    ensures var m := GivenUp(n, serial); m.id == n.id && m.links == n.links
  {
    hide ActivePeers, GetOutcome, PutBytes;
  }

  // Handling takes the first message off its link and sends on that link only,
  // if it is up.
  lemma HandledQuiet(n: Node, H: E.Hasher, l: LinkId, t: Seen)
    requires l in n.links && n.links[l].inbox != []
    ensures var e := Handled(n, H, l, t);
            && QuietBut(n, e.node, l) && e.node.links[l].inbox == n.links[l].inbox[1..]
            && (n.links[l].state == Disconnected ==> e.node.links[l].state == Disconnected)
            && forall x | x in e.out :: x.0 == l && n.links[l].state != Disconnected
  {
    DequeuedQuiet(n, l);
    hide Dispatched, Dequeued;
    if n.links[l].state != Disconnected {
      DispatchedQuiet(Dequeued(n, l), H, l, n.links[l].inbox[0], t);
    }
  }

  lemma DequeuedQuiet(n: Node, l: LinkId)
    requires l in n.links && n.links[l].inbox != []
    ensures QuietBut(n, Dequeued(n, l), l)
    ensures Dequeued(n, l).links[l] == n.links[l].(inbox := n.links[l].inbox[1..])
  {
  }

  lemma DispatchedQuiet(n: Node, H: E.Hasher, l: LinkId, m: Message, t: Seen)
    requires l in n.links
    ensures var e := Dispatched(n, H, l, m, t);
            && QuietBut(n, e.node, l) && e.node.links[l].inbox == n.links[l].inbox
            && forall x | x in e.out :: x.0 == l
  {
    hide Stored, Resolved, Answered, Verified;
    match m
    case Verify(id, mode) => VerifiedQuiet(n, l, id, mode, t.missed);
    case GetReq(key, pk) => AnsweredQuiet(n, H, l, key, pk);
    case GetRsp(body) => ResolvedQuiet(n, l, body);
    case Put(body) => StoredQuiet(n, H, body, t);
    case _ =>
  }

  lemma VerifiedQuiet(n: Node, l: LinkId, id: NodeId, mode: Mode, missed: bool)
    requires l in n.links
    ensures var r := Verified(n, l, id, mode, missed);
            && QuietBut(n, r.0, l) && r.0.links[l].inbox == n.links[l].inbox && forall x | x in r.1 :: x.0 == l
  {
  }

  lemma ResolvedQuiet(n: Node, l: LinkId, body: seq<byte>)
    requires l in n.links
    ensures var r := Resolved(n, l, body).0; QuietBut(n, r, l) && r.links[l].inbox == n.links[l].inbox
  {
    hide ReadKey, ReadValue;
  }

  lemma StoredQuiet(n: Node, H: E.Hasher, body: seq<byte>, t: Seen)
    ensures var r := Stored(n, H, body, t); r.id == n.id && r.links == n.links
  {
    hide ReadKey, ReadValue, ReplicatedExpiry.Received;
  }

  lemma AnsweredQuiet(n: Node, H: E.Hasher, l: LinkId, key: Key, pk: Key)
    ensures forall x | x in Answered(n, H, l, key, pk) :: x.0 == l
  {
    hide GetRspBytes;
  }

  lemma ReceiveQuiet(n: Node, l: LinkId, m: Message)
    ensures var r := Receive(n, l, m);
            && QuietBut(n, r, l)
            && (l in n.links ==>
                  var link := n.links[l];
                  var taken := link.state != Disconnected && (link.state == Handshake ==> m.Verify? || m.VerifyOK?);
                  r.links[l] == link.(inbox := if taken then link.inbox + [m] else link.inbox))
  {
  }

  // ---- the cluster ----

  // A step in which a node moves, seen from one end.
  lemma MovedAt(g: Cluster, n: Node, out: Out, e: End)
    ensures var v := Moved(g, n, out);
            if e.node == n.id then Has(v, e) <==> e.link in n.links
            else (Has(v, e) <==> Has(g, e)) && (Has(g, e) ==> LinkOf(v, e) == LinkOf(g, e))
    ensures e.node == n.id && e.link in n.links ==> LinkOf(Moved(g, n, out), e) == n.links[e.link]
  {
    hide Posted;
  }

  // What a step does to an end, apart from taking in and handling messages.
  ghost predicate FollowsQuietly(g: Cluster, v: Cluster, e: End) {
    Waiting(v, e) == Waiting(g, e) && (Down(g, e) ==> Down(v, e))
  }

  lemma QuietMove(g: Cluster, n: Node, out: Out, l: LinkId, e: End)
    requires n.id in g.nodes && QuietBut(g.nodes[n.id], n, l)
    requires l in n.links ==> Quiet(g.nodes[n.id].links[l], n.links[l])
    ensures FollowsQuietly(g, Moved(g, n, out), e)
  {
    MovedAt(g, n, out, e);
    hide Moved;
  }

  lemma SameLinksMove(g: Cluster, n: Node, out: Out, e: End)
    requires n.id in g.nodes && g.nodes[n.id].links == n.links
    ensures FollowsQuietly(g, Moved(g, n, out), e)
  {
    MovedAt(g, n, out, e);
    hide Moved;
  }

  lemma ConnectedQuiet(g: Cluster, a: End, b: End, proposed: Option<NodeId>, e: End)
    ensures FollowsQuietly(g, ClusterRun.Connected(g, a, b, proposed), e)
  {
  }

  // Every act but the two follows quietly.
  lemma LinkActsQuiet(g: Cluster, H: E.Hasher, act: Act, e: End)
    requires WellNamed(g) && (act.SendGet? || act.SendReplication? || act.Disconnect? || act.Close? || act.Connect?)
    ensures FollowsQuietly(g, Step(g, H, act), e)
  {
    hide Moved, TornDown, CutOff, Asked, ClusterRun.Connected, Send;
    match act
    case Connect(a, b, proposed) => ConnectedQuiet(g, a, b, proposed, e);
    case SendReplication(n, l, m) =>
      if n in g.nodes {
        SameLinksMove(g, g.nodes[n], Send(g.nodes[n], l, m), e);
      }
    case SendGet(n, l, q) =>
      if n in g.nodes {
        NodeQuiet(g.nodes[n], l, q);
        QuietMove(g, Asked(g.nodes[n], l, q).0, Asked(g.nodes[n], l, q).1, l, e);
      }
    case Disconnect(d) =>
      if d.node in g.nodes {
        NodeQuiet(g.nodes[d.node], d.link, Request(0, [], []));
        QuietMove(g, CutOff(g.nodes[d.node], d.link), {}, d.link, e);
      }
    case Close(d) =>
      if d.node in g.nodes {
        NodeQuiet(g.nodes[d.node], d.link, Request(0, [], []));
        QuietMove(g, TornDown(g.nodes[d.node], d.link), {}, d.link, e);
      }
  }

  lemma PutQuiet(g: Cluster, H: E.Hasher, act: Act, e: End)
    requires WellNamed(g) && (act.ClientPut? || act.ClientDelete?)
    ensures FollowsQuietly(g, Step(g, H, act), e)
  {
    hide Moved, PutCall, DeleteCall;
    if act.n in g.nodes {
      var n, none := g.nodes[act.n], Request(0, [], []);
      if act.ClientPut? {
        CallsQuiet(n, H, act.key, act.data, act.duration, act.now, none, 0);
        SameLinksMove(g, PutCall(n, H, act.key, act.data, act.duration, act.now), {}, e);
      } else {
        CallsQuiet(n, H, act.key, [], 0, 0, none, 0);
        SameLinksMove(g, DeleteCall(n, H, act.key), {}, e);
      }
    }
  }

  lemma NodeActsQuiet(g: Cluster, H: E.Hasher, act: Act, e: End)
    requires WellNamed(g) && (act.Start? || act.ClientGet? || act.Await? || act.GiveUp? || act.Lose?)
    ensures FollowsQuietly(g, Step(g, H, act), e)
  {
    hide Moved, GetCall, GetOutcome, Awaited, GivenUp, FollowsQuietly, GetStarted;
    Undisturbed(g, e);
    match act
    case Start(m) => if m in g.nodes { SameLinksMove(g, g.nodes[m].(started := true), {}, e); }
    case Lose(m, h) => if m in g.nodes { SameLinksMove(g, g.nodes[m].(cache := g.nodes[m].cache - {h}), {}, e); }
    case Await(m, serial) =>
      if m in g.nodes {
        CallsQuiet(g.nodes[m], H, [], [], 0, 0, Request(0, [], []), serial);
        SameLinksMove(g, Awaited(g.nodes[m], serial), {}, e);
      }
    case GiveUp(m, serial) =>
      if m in g.nodes {
        CallsQuiet(g.nodes[m], H, [], [], 0, 0, Request(0, [], []), serial);
        SameLinksMove(g, GivenUp(g.nodes[m], serial), {}, e);
      }
    case ClientGet(m, key, suffix) => if m in g.nodes { GetQuiet(g, H, m, Request(g.serial, key, suffix), e); }
  }

  lemma Undisturbed(g: Cluster, e: End)
    ensures FollowsQuietly(g, g, e)
  {
  }

  lemma GetQuiet(g: Cluster, H: E.Hasher, m: NodeId, q: Request, e: End)
    requires WellNamed(g) && m in g.nodes
    ensures FollowsQuietly(g, GetStarted(g, H, g.nodes[m], q), e)
  {
    hide Moved, GetCall, GetOutcome;
    CallsQuiet(g.nodes[m], H, [], [], 0, 0, q, 0);
    SameLinksMove(g, GetCall(g.nodes[m], H, q), {}, e);
  }

  lemma DeliverAt(g: Cluster, H: E.Hasher, act: Act, e: End)
    requires WellNamed(g) && act.Deliver?
    ensures Waiting(Step(g, H, act), e) == Waiting(g, e) + if TakesIn(g, act, e) then [act.p.msg] else []
    ensures Down(g, e) ==> Down(Step(g, H, act), e)
  {
    hide Moved, Receive;
    var p := act.p;
    if p in g.soup && p.to.node in g.nodes {
      ReceiveQuiet(g.nodes[p.to.node], p.to.link, p.msg);
      MovedAt(g, Receive(g.nodes[p.to.node], p.to.link, p.msg), {}, e);
    }
  }

  lemma HandleAt(g: Cluster, H: E.Hasher, act: Act, e: End)
    requires WellNamed(g) && act.HandleNext?
    ensures Waiting(Step(g, H, act), e) == if Treats(g, act, e) then Waiting(g, e)[1..] else Waiting(g, e)
    ensures Down(g, e) ==> Down(Step(g, H, act), e)
  {
    hide Moved, Handled;
    var d := act.e;
    if Has(g, d) && LinkOf(g, d).inbox != [] {
      HandledQuiet(g.nodes[d.node], H, d.link, act.t);
      var r := Handled(g.nodes[d.node], H, d.link, act.t);
      MovedAt(g, r.node, r.out, e);
    }
  }

  // What a step does to what waits at an end.
  lemma WaitingStep(g: Cluster, H: E.Hasher, act: Act, e: End)
    requires WellNamed(g)
    ensures Waiting(Step(g, H, act), e) ==
            if TakesIn(g, act, e) then Waiting(g, e) + [act.p.msg]
            else if Treats(g, act, e) then Waiting(g, e)[1..] else Waiting(g, e)
    ensures Down(g, e) ==> Down(Step(g, H, act), e)
  {
    hide Step, Waiting, Down;
    if act.Deliver? {
      DeliverAt(g, H, act, e);
      assert Waiting(g, e) + [] == Waiting(g, e);
    } else if act.HandleNext? {
      HandleAt(g, H, act, e);
    } else if act.SendGet? || act.SendReplication? || act.Disconnect? || act.Close? || act.Connect? {
      LinkActsQuiet(g, H, act, e);
    } else if act.ClientPut? || act.ClientDelete? {
      PutQuiet(g, H, act, e);
    } else {
      NodeActsQuiet(g, H, act, e);
    }
  }

  // ---- in order ----

  // The messages that an end takes in during a run, and those it handles.
  ghost function Arrived(g: Cluster, H: E.Hasher, acts: seq<Act>, e: End): seq<Message>
    decreases |acts|
  {
    if acts == [] then []
    else (if TakesIn(g, acts[0], e) then [acts[0].p.msg] else []) + Arrived(Step(g, H, acts[0]), H, acts[1..], e)
  }

  ghost function Treated(g: Cluster, H: E.Hasher, acts: seq<Act>, e: End): seq<Message>
    decreases |acts|
  {
    if acts == [] then []
    else (if Treats(g, acts[0], e) then [Waiting(g, e)[0]] else []) + Treated(Step(g, H, acts[0]), H, acts[1..], e)
  }

  // In every run and on every link: what has been handled and what still waits
  // is what waited before and what has arrived since, in that order.
  lemma {:induction false} InOrder(g: Cluster, H: E.Hasher, acts: seq<Act>, e: End)
    requires Invariant(g) && AllSane(acts)
    ensures Treated(g, H, acts, e) + Waiting(Run(g, H, acts), e) == Waiting(g, e) + Arrived(g, H, acts, e)
    decreases |acts|
  {
    hide Invariant, Step, Sane, Waiting, TakesIn, Treats;
    if acts != [] {
      var v := Step(g, H, acts[0]);
      InvariantNames(g);
      StepKeeps(g, H, acts[0]);
      WaitingStep(g, H, acts[0], e);
      InOrder(v, H, acts[1..], e);
      var w, arrived, treated := Waiting(g, e), Arrived(v, H, acts[1..], e), Treated(v, H, acts[1..], e);
      var left := Waiting(Run(v, H, acts[1..]), e);
      NotBoth(g, acts[0], e);
      if TakesIn(g, acts[0], e) {
        OneArrives(w, acts[0].p.msg, arrived, treated, left);
      } else if Treats(g, acts[0], e) {
        OneTreated(w, arrived, treated, left);
      } else {
        assert [] + treated == treated && [] + arrived == arrived;
      }
    }
  }

  lemma NotBoth(g: Cluster, act: Act, e: End)
    ensures Treats(g, act, e) ==> Waiting(g, e) != [] && !TakesIn(g, act, e)
    ensures TakesIn(g, act, e) ==> act.Deliver?
  {
  }

  lemma OneArrives(w: seq<Message>, m: Message, arrived: seq<Message>, treated: seq<Message>, left: seq<Message>)
    requires treated + left == w + [m] + arrived
    ensures ([] + treated) + left == w + ([m] + arrived)
  {
    assert [] + treated == treated;
  }

  lemma OneTreated(w: seq<Message>, arrived: seq<Message>, treated: seq<Message>, left: seq<Message>)
    requires w != [] && treated + left == w[1..] + arrived
    ensures ([w[0]] + treated) + left == w + ([] + arrived)
  {
    assert ([w[0]] + treated) + left == [w[0]] + (treated + left);
    assert [w[0]] + (w[1..] + arrived) == w + arrived && [] + arrived == arrived;
  }

  // From the start of the cluster, what a link has handled is a front of what
  // has arrived on it.
  lemma HandledInOrder(modes: map<NodeId, Mode>, H: E.Hasher, acts: seq<Act>, e: End)
    requires AllSane(acts)
    ensures Treated(Initial(modes), H, acts, e) <= Arrived(Initial(modes), H, acts, e)
  {
    hide Invariant, Run, Sane, Arrived, Treated;
    InitialGood(modes);
    InOrder(Initial(modes), H, acts, e);
    assert Waiting(Initial(modes), e) == [];
    assert [] + Arrived(Initial(modes), H, acts, e) == Arrived(Initial(modes), H, acts, e);
  }

  // ---- down for good ----

  // Nothing new is on its way to an end.
  ghost predicate NothingNewFor(g: Cluster, v: Cluster, to: End) {
    forall p | p in v.soup && p.to == to :: p in g.soup
  }

  lemma PostedElsewhere(g: Cluster, n: NodeId, out: Out, e: End)
    requires Paired(g) && e in g.far && (n == e.node ==> forall x | x in out :: x.0 != e.link)
    ensures forall p | p in Posted(g, n, out) :: p.to != g.far[e]
  {
    forall p | p in Posted(g, n, out) ensures p.to != g.far[e] {
      var x :| x in out && End(n, x.0) in g.far && p == Packet(g.far[End(n, x.0)], x.1);
      assert g.far[g.far[End(n, x.0)]] == End(n, x.0) && g.far[g.far[e]] == e;
    }
  }

  // A link that is down sends nothing and takes nothing in, and a step leaves
  // it down.
  lemma SilentStep(g: Cluster, H: E.Hasher, act: Act, e: End)
    requires Paired(g) && WellNamed(g) && Down(g, e) && e in g.far
    ensures Down(Step(g, H, act), e) && !TakesIn(g, act, e)
    ensures e in Step(g, H, act).far && Step(g, H, act).far[e] == g.far[e]
    ensures NothingNewFor(g, Step(g, H, act), g.far[e])
  {
    WaitingStep(g, H, act, e);
    assert act.Connect? ==> Step(g, H, act) == ClusterRun.Connected(g, act.a, act.b, act.proposed);
    hide Step, Paired;
    if act.HandleNext? {
      HandleSilent(g, H, act, e);
    } else if act.SendGet? {
      AskSilent(g, H, act, e);
    } else if act.SendReplication? {
      ReplicationSilent(g, H, act, e);
    } else if act.Connect? {
      ConnectSilent(g, act.a, act.b, act.proposed, e);
    } else {
      NothingSent(g, H, act);
    }
  }

  lemma HandleSilent(g: Cluster, H: E.Hasher, act: Act, e: End)
    requires Paired(g) && WellNamed(g) && Down(g, e) && e in g.far && act.HandleNext?
    ensures Step(g, H, act).far == g.far && NothingNewFor(g, Step(g, H, act), g.far[e])
  {
    hide Handled, Posted, Paired;
    var d := act.e;
    if Has(g, d) && LinkOf(g, d).inbox != [] {
      HandledQuiet(g.nodes[d.node], H, d.link, act.t);
      PostedElsewhere(g, d.node, Handled(g.nodes[d.node], H, d.link, act.t).out, e);
    }
  }

  lemma AskSilent(g: Cluster, H: E.Hasher, act: Act, e: End)
    requires Paired(g) && WellNamed(g) && Down(g, e) && e in g.far && act.SendGet?
    ensures Step(g, H, act).far == g.far && NothingNewFor(g, Step(g, H, act), g.far[e])
  {
    hide Asked, Posted, Paired;
    if act.n in g.nodes {
      NodeQuiet(g.nodes[act.n], act.l, act.q);
      PostedElsewhere(g, act.n, Asked(g.nodes[act.n], act.l, act.q).1, e);
    }
  }

  lemma ConnectSilent(g: Cluster, a: End, b: End, proposed: Option<NodeId>, e: End)
    requires Paired(g) && e in g.far
    ensures var v := ClusterRun.Connected(g, a, b, proposed);
            e in v.far && v.far[e] == g.far[e] && NothingNewFor(g, v, g.far[e])
  {
    hide WithLink;
  }

  lemma ReplicationSilent(g: Cluster, H: E.Hasher, act: Act, e: End)
    requires Paired(g) && WellNamed(g) && Down(g, e) && e in g.far && act.SendReplication?
    ensures Step(g, H, act).far == g.far && NothingNewFor(g, Step(g, H, act), g.far[e])
  {
    hide Posted;
    if act.n in g.nodes {
      PostedElsewhere(g, act.n, Send(g.nodes[act.n], act.l, act.m), e);
    }
  }

  // Every other act sends nothing at all.
  lemma NothingSent(g: Cluster, H: E.Hasher, act: Act)
    requires !act.HandleNext? && !act.SendGet? && !act.SendReplication? && !act.Connect?
    ensures Step(g, H, act).far == g.far && Step(g, H, act).soup == g.soup
  {
    assert forall n :: Posted(g, n, {}) == {};
    hide Posted, Receive, TornDown, CutOff, PutCall, DeleteCall, GetCall, GetOutcome, Awaited, GivenUp;
  }

  // In every run: once a link is down it stays down and never sends again.
  lemma {:induction false} DownForGood(g: Cluster, H: E.Hasher, acts: seq<Act>, e: End)
    requires Invariant(g) && AllSane(acts) && Down(g, e) && e in g.far
    ensures Down(Run(g, H, acts), e) && NothingNewFor(g, Run(g, H, acts), g.far[e])
    ensures Arrived(g, H, acts, e) == []
    decreases |acts|
  {
    hide Invariant, Step, Sane, Down, TakesIn;
    if acts != [] {
      InvariantPairs(g);
      StepKeeps(g, H, acts[0]);
      SilentStep(g, H, acts[0], e);
      DownForGood(Step(g, H, acts[0]), H, acts[1..], e);
    }
  }

  lemma InvariantPairs(g: Cluster)
    requires Invariant(g)
    ensures Paired(g) && WellNamed(g)
  {
  }

  // Breaking the connection takes a link down. Tearing it down also ends its
  // handler and every request that waits on it.
  lemma TakenDown(g: Cluster, H: E.Hasher, e: End)
    requires WellNamed(g) && Has(g, e)
    ensures Down(Step(g, H, Disconnect(e)), e) && Down(Step(g, H, Close(e)), e)
    ensures var link := LinkOf(Step(g, H, Close(e)), e); !link.handling && link.pending == map[]
  {
    hide Posted;
  }

  // A PING that is handled on a link that is up is answered with a PONG, and
  // nothing else happens.
  lemma PongForPing(g: Cluster, H: E.Hasher, e: End, t: Seen)
    requires WellNamed(g) && e in g.far && Has(g, e) && LinkOf(g, e).handling && !Down(g, e)
    requires Waiting(g, e) != [] && Waiting(g, e)[0] == Ping
    ensures var v := Step(g, H, HandleNext(e, t));
            && v.soup == g.soup + {Packet(g.far[e], Pong)} && v.returned == g.returned
            && v.nodes == g.nodes[e.node := Dequeued(g.nodes[e.node], e.link)]
  {
    var x := (e.link, Pong);
    assert End(e.node, x.0) == e;
    assert Posted(g, e.node, {x}) == {Packet(g.far[e], Pong)} by {
      assert x in {x} && End(e.node, x.0) in g.far;
    }
    hide Posted;
    assert g.returned + [] == g.returned;
  }
}
