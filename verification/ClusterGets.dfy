// Every get returns at most once, whichever of its peers answer, how often and
// when.
module ClusterGets {
  import opened KeyedBlob
  import opened Results
  import opened ClusterSpec
  import opened ClusterInvariant
  import opened ClusterRun
  import ReplicatedExpiry
  import E = ExpirySystem

  // How every get stands, by node and number.
  type Calls = map<NodeId, map<nat, CallState>>

  ghost function CallsOf(g: Cluster): Calls {
    map n | n in g.nodes :: g.nodes[n].calls
  }

  ghost predicate At(c: Calls, n: NodeId, s: nat) {
    n in c && s in c[n]
  }

  // A get that has returned is over wherever it is known, and every get is
  // known to one node only.
  ghost predicate Known(c: Calls, returned: seq<Return>, next: nat) {
    && (forall r | r in returned :: r.serial < next)
    && (forall n, s: nat | At(c, n, s) :: s < next)
    && (forall n, m, s: nat | At(c, n, s) && At(c, m, s) :: n == m)
    && (forall r, n | r in returned && At(c, n, r.serial) :: c[n][r.serial] == Replied)
  }

  ghost predicate Once(returned: seq<Return>) {
    forall i, j | 0 <= i < j < |returned| :: returned[i].serial != returned[j].serial
  }

  ghost predicate Orderly(g: Cluster) {
    Known(CallsOf(g), g.returned, g.serial) && Once(g.returned)
  }

  // Whatever else changes, the gets stand as they stood.
  ghost predicate SameCalls(g: Cluster, v: Cluster) {
    v.returned == g.returned && v.serial == g.serial && CallsOf(v) == CallsOf(g)
  }

  ghost function Put(c: Calls, n: NodeId, s: nat, x: CallState): Calls
    requires n in c
  {
    var calls: map<nat, CallState> := c[n][s := x];
    c[n := calls]
  }

  lemma PutAt(c: Calls, n: NodeId, s: nat, x: CallState)
    requires n in c
    ensures forall m, t: nat :: At(Put(c, n, s, x), m, t) <==> At(c, m, t) || (m == n && t == s)
    ensures forall m, t: nat | At(c, m, t) && !(m == n && t == s) :: Put(c, n, s, x)[m][t] == c[m][t]
    ensures Put(c, n, s, x)[n][s] == x
  {
  }

  // A get that is not over changes its state.
  lemma Changed(c: Calls, returned: seq<Return>, next: nat, n: NodeId, s: nat, x: CallState)
    requires Known(c, returned, next) && At(c, n, s) && c[n][s] != Replied
    ensures Known(Put(c, n, s, x), returned, next)
    ensures forall r | r in returned :: r.serial != s
  {
    PutAt(c, n, s, x);
    hide Put;
  }

  // A get that listens is replied to.
  lemma Returned(c: Calls, returned: seq<Return>, next: nat, n: NodeId, r: Return)
    requires Known(c, returned, next) && Once(returned) && At(c, n, r.serial) && c[n][r.serial] == Listening
    ensures Known(Put(c, n, r.serial, Replied), returned + [r], next) && Once(returned + [r])
  {
    Changed(c, returned, next, n, r.serial, Replied);
    PutAt(c, n, r.serial, Replied);
    hide Put;
  }

  // A new get queues its requests, or returns at once.
  lemma Started(c: Calls, returned: seq<Return>, next: nat, n: NodeId)
    requires Known(c, returned, next) && n in c
    ensures Known(Put(c, n, next, Queuing), returned, next + 1) && Known(c, returned, next + 1)
  {
    PutAt(c, n, next, Queuing);
    hide Put;
  }

  lemma ReturnedAtOnce(c: Calls, returned: seq<Return>, r: Return)
    requires Known(c, returned, r.serial) && Once(returned)
    ensures Known(c, returned + [r], r.serial + 1) && Once(returned + [r])
  {
  }

  lemma NodeCalls(n: Node, H: E.Hasher, l: LinkId, m: Message, key: Key, data: seq<byte>, duration: nat, now: nat,
                  q: Request)
    ensures Receive(n, l, m).calls == TornDown(n, l).calls == CutOff(n, l).calls == Asked(n, l, q).0.calls == n.calls
    ensures PutCall(n, H, key, data, duration, now).calls == DeleteCall(n, H, key).calls == n.calls
    ensures Receive(n, l, m).id == TornDown(n, l).id == CutOff(n, l).id == Asked(n, l, q).0.id == n.id
    ensures PutCall(n, H, key, data, duration, now).id == DeleteCall(n, H, key).id == n.id
  {
  }

  // A message ends a get exactly when it brings a reply to one that listens.
  lemma HandledCalls(n: Node, H: E.Hasher, l: LinkId, t: Seen)
    requires l in n.links && n.links[l].inbox != []
    ensures var e := Handled(n, H, l, t);
            && e.node.id == n.id
            && match e.reply
               case None => e.node.calls == n.calls
               case Some(r) => Listens(n, r.0.serial) && e.node.calls == n.calls[r.0.serial := Replied]
  {
    var m, msg := Dequeued(n, l), n.links[l].inbox[0];
    HandledShape(n, H, l, t);
    EffectCalls(m, H, l, t, if msg.Verify? then msg.id else 0, if msg.Verify? then msg.mode else Active,
                if msg.GetRsp? || msg.Put? then msg.body else []);
    hide Verified, Resolved, Stored, Answered;
  }

  lemma EffectCalls(n: Node, H: E.Hasher, l: LinkId, t: Seen, id: NodeId, mode: Mode, body: seq<byte>)
    requires l in n.links
    ensures Verified(n, l, id, mode, t.missed).0.calls == Stored(n, H, body, t).calls == n.calls
    ensures match Resolved(n, l, body).1
            case None => Resolved(n, l, body).0.calls == n.calls
            case Some(r) =>
              Listens(n, r.0.serial) && Resolved(n, l, body).0.calls == n.calls[r.0.serial := Replied]
  {
    hide ReplicatedExpiry.Received, ReadKey, ReadValue;
  }

  // A node moves.
  lemma MovedCalls(g: Cluster, n: Node, out: Out)
    requires n.id in g.nodes
    ensures CallsOf(Moved(g, n, out)) == CallsOf(g)[n.id := n.calls]
    ensures n.calls == g.nodes[n.id].calls ==> SameCalls(g, Moved(g, n, out))
  {
    hide Posted;
    assert n.calls == g.nodes[n.id].calls ==> CallsOf(g)[n.id := n.calls] == CallsOf(g);
  }

  lemma HandleOrderly(g: Cluster, H: E.Hasher, n: NodeId, l: LinkId, t: Seen)
    requires Orderly(g) && n in g.nodes && g.nodes[n].id == n
    requires l in g.nodes[n].links && g.nodes[n].links[l].inbox != []
    ensures Orderly(HandledBy(g, H, g.nodes[n], l, t))
  {
    HandledCalls(g.nodes[n], H, l, t);
    hide Handled, Moved, Known, Once;
    var e := Handled(g.nodes[n], H, l, t);
    MovedCalls(g, e.node, e.out);
    MovedRest(g, e.node, e.out);
    if e.reply.Some? {
      Returned(CallsOf(g), g.returned, g.serial, n, ReturnOf(e.reply.value));
    } else {
      assert g.returned + [] == g.returned;
    }
  }

  lemma MovedRest(g: Cluster, n: Node, out: Out)
    ensures Moved(g, n, out).returned == g.returned && Moved(g, n, out).serial == g.serial
  {
  }

  lemma GetOrderly(g: Cluster, H: E.Hasher, n: NodeId, q: Request)
    requires Orderly(g) && n in g.nodes && g.nodes[n].id == n && q.serial == g.serial
    ensures Orderly(GetStarted(g, H, g.nodes[n], q))
  {
    GetParts(g.nodes[n], H, q);
    hide GetOutcome, GetCall, Moved, Known, Once;
    MovedCalls(g, GetCall(g.nodes[n], H, q), {});
    MovedRest(g, GetCall(g.nodes[n], H, q), {});
    Started(CallsOf(g), g.returned, g.serial, n);
    if GetOutcome(g.nodes[n], H, q.key).Local? {
      ReturnedAtOnce(CallsOf(g), g.returned, Return(q.serial, q.key, GetOutcome(g.nodes[n], H, q.key).data));
    } else {
      assert g.returned + [] == g.returned;
    }
  }

  // A get either answers at once or queues.
  lemma GetParts(n: Node, H: E.Hasher, q: Request)
    ensures GetCall(n, H, q).id == n.id
    ensures GetCall(n, H, q).calls ==
            if GetOutcome(n, H, q.key) == Waiting then n.calls[q.serial := Queuing] else n.calls
  {
    hide GetOutcome, ActivePeers;
  }

  lemma CallsOrderly(g: Cluster, n: NodeId, serial: nat)
    requires Orderly(g) && n in g.nodes && g.nodes[n].id == n
    ensures Orderly(Moved(g, Awaited(g.nodes[n], serial), {})) && Orderly(Moved(g, GivenUp(g.nodes[n], serial), {}))
  {
    hide Moved, Known, Once;
    var a, b := Awaited(g.nodes[n], serial), GivenUp(g.nodes[n], serial);
    MovedCalls(g, a, {});
    MovedCalls(g, b, {});
    MovedRest(g, a, {});
    MovedRest(g, b, {});
    if serial in g.nodes[n].calls && g.nodes[n].calls[serial] == Queuing {
      Changed(CallsOf(g), g.returned, g.serial, n, serial, Listening);
    } else if Listens(g.nodes[n], serial) {
      Changed(CallsOf(g), g.returned, g.serial, n, serial, TimedOut);
    }
  }

  lemma ConnectSame(g: Cluster, a: End, b: End, proposed: Option<NodeId>)
    ensures SameCalls(g, ClusterRun.Connected(g, a, b, proposed))
  {
  }

  predicate MovesGets(act: Act) {
    act.HandleNext? || act.ClientGet? || act.Await? || act.GiveUp?
  }

  // What happens on links leaves the gets alone.
  lemma LinkActsSame(g: Cluster, H: E.Hasher, act: Act)
    requires WellNamed(g) && (act.Deliver? || act.SendReplication? || act.SendGet? || act.Disconnect? || act.Close?)
    ensures SameCalls(g, Step(g, H, act))
  {
    hide SameCalls, Moved, Receive, TornDown, CutOff, Asked;
    SameItself(g);
    match act
    case Deliver(p) =>
      if p in g.soup && p.to.node in g.nodes {
        NodeCalls(g.nodes[p.to.node], H, p.to.link, p.msg, [], [], 0, 0, Request(0, [], []));
        MovedCalls(g, Receive(g.nodes[p.to.node], p.to.link, p.msg), {});
      }
    case SendReplication(n, l, m) => if n in g.nodes { MovedCalls(g, g.nodes[n], Send(g.nodes[n], l, m)); }
    case SendGet(n, l, r) =>
      if n in g.nodes {
        NodeCalls(g.nodes[n], H, l, Ping, [], [], 0, 0, r);
        MovedCalls(g, Asked(g.nodes[n], l, r).0, Asked(g.nodes[n], l, r).1);
      }
    case Disconnect(e) =>
      if e.node in g.nodes {
        NodeCalls(g.nodes[e.node], H, e.link, Ping, [], [], 0, 0, Request(0, [], []));
        MovedCalls(g, CutOff(g.nodes[e.node], e.link), {});
      }
    case Close(e) =>
      if e.node in g.nodes {
        NodeCalls(g.nodes[e.node], H, e.link, Ping, [], [], 0, 0, Request(0, [], []));
        MovedCalls(g, TornDown(g.nodes[e.node], e.link), {});
      }
  }

  lemma SameItself(g: Cluster)
    ensures SameCalls(g, g)
  {
  }

  // So do the other client calls, a start, a connection and an expiry.
  lemma NodeActsSame(g: Cluster, H: E.Hasher, act: Act)
    requires WellNamed(g) && (act.Start? || act.Connect? || act.ClientPut? || act.ClientDelete? || act.Lose?)
    ensures SameCalls(g, Step(g, H, act))
  {
    hide SameCalls, Moved, PutCall, DeleteCall, ClusterRun.Connected;
    SameItself(g);
    match act
    case Start(n) => if n in g.nodes { MovedCalls(g, g.nodes[n].(started := true), {}); }
    case Connect(a, b, proposed) => ConnectSame(g, a, b, proposed);
    case ClientPut(n, key, data, duration, now) =>
      if n in g.nodes {
        NodeCalls(g.nodes[n], H, 0, Ping, key, data, duration, now, Request(0, [], []));
        MovedCalls(g, PutCall(g.nodes[n], H, key, data, duration, now), {});
        SamePuts(g, Moved(g, PutCall(g.nodes[n], H, key, data, duration, now), {}), g.puts + {(key, data)});
      }
    case ClientDelete(n, key) =>
      if n in g.nodes {
        NodeCalls(g.nodes[n], H, 0, Ping, key, [], 0, 0, Request(0, [], []));
        MovedCalls(g, DeleteCall(g.nodes[n], H, key), {});
      }
    case Lose(n, h) => if n in g.nodes { MovedCalls(g, g.nodes[n].(cache := g.nodes[n].cache - {h}), {}); }
  }

  lemma SamePuts(g: Cluster, v: Cluster, puts: Puts)
    requires SameCalls(g, v)
    ensures SameCalls(g, v.(puts := puts))
  {
  }

  lemma StepOrderly(g: Cluster, H: E.Hasher, act: Act)
    requires WellNamed(g) && Orderly(g)
    ensures Orderly(Step(g, H, act))
  {
    if !MovesGets(act) {
      hide Step;
      if act.Deliver? || act.SendReplication? || act.SendGet? || act.Disconnect? || act.Close? {
        LinkActsSame(g, H, act);
      } else {
        NodeActsSame(g, H, act);
      }
    } else {
      GetActsOrderly(g, H, act);
    }
  }

  lemma GetActsOrderly(g: Cluster, H: E.Hasher, act: Act)
    requires WellNamed(g) && Orderly(g) && MovesGets(act)
    ensures Orderly(Step(g, H, act))
  {
    hide Orderly, Moved, GetStarted, HandledBy;
    match act
    case HandleNext(e, t) =>
      if e.node in g.nodes && e.link in g.nodes[e.node].links && g.nodes[e.node].links[e.link].inbox != [] {
        HandleOrderly(g, H, e.node, e.link, t);
      }
    case ClientGet(n, key, suffix) => if n in g.nodes { GetOrderly(g, H, n, Request(g.serial, key, suffix)); }
    case Await(n, serial) => if n in g.nodes { CallsOrderly(g, n, serial); }
    case GiveUp(n, serial) => if n in g.nodes { CallsOrderly(g, n, serial); }
  }

  lemma {:induction false} RunOrderly(g: Cluster, H: E.Hasher, acts: seq<Act>)
    requires Invariant(g) && AllSane(acts) && Orderly(g)
    ensures Orderly(Run(g, H, acts))
    decreases |acts|
  {
    hide Invariant, Step, Sane, Orderly;
    if acts != [] {
      InvariantNames(g);
      StepKeeps(g, H, acts[0]);
      StepOrderly(g, H, acts[0]);
      RunOrderly(Step(g, H, acts[0]), H, acts[1..]);
    }
  }

  // In every run no get returns twice: no two returns have the same number.
  lemma AtMostOneReturn(modes: map<NodeId, Mode>, H: E.Hasher, acts: seq<Act>)
    requires AllSane(acts)
    ensures Once(Run(Initial(modes), H, acts).returned)
  {
    hide Invariant, Run, Sane;
    InitialGood(modes);
    assert forall n, s: nat :: !At(CallsOf(Initial(modes)), n, s);
    RunOrderly(Initial(modes), H, acts);
  }
}
