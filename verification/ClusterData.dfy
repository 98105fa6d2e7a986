// What becomes of the entries of every node: which acts may touch one, what
// client calls achieve on the node itself, and where they are passed on to.
module ClusterData {
  import opened KeyedBlob
  import opened Encoding
  import opened Messages
  import opened Results
  import opened TtlSpec
  import opened ClusterSpec
  import opened ClusterInvariant
  import opened ClusterRun
  import E = ExpirySystem
  import LE = LittleEndian
  import ReplicatedExpiry

  // ---- which acts touch an entry ----

  // A message that asks for a change under hash h: a PUT or a DEL whose key
  // hashes to it.
  ghost predicate Names(H: E.Hasher, m: Message, h: nat) {
    || (m.Put? && Storable(m.body) && H(ReadKey(m.body, EXPIRY_SIZE).value) == h)
    || (m.Del? && H(m.key) == h)
  }

  // The act may change what node n holds under hash h: a client of that very
  // node puts or deletes a key of that hash while the node is started and
  // active, the node handles a PUT or DEL for it, or the entry expires.
  ghost predicate Touches(g: Cluster, H: E.Hasher, act: Act, n: NodeId, h: nat)
    requires n in g.nodes
  {
    match act
    case ClientPut(m, key, _, _, _) => m == n && H(key) == h && g.nodes[n].started && g.nodes[n].mode == Active
    case ClientDelete(m, key) => m == n && H(key) == h && g.nodes[n].started && g.nodes[n].mode == Active
    case HandleNext(e, _) =>
      && e.node == n && e.link in g.nodes[n].links
      && var link := g.nodes[n].links[e.link];
         link.handling && link.state != Disconnected && link.inbox != [] && Names(H, link.inbox[0], h)
    case Lose(m, x) => m == n && x == h
    case _ => false
  }

  // The same entry, or none, under a hash.
  ghost predicate SameAt(a: E.Store, b: E.Store, h: nat) {
    (h in a <==> h in b) && (h in a ==> a[h] == b[h])
  }

  // The parts of a node that its links do not touch.
  ghost predicate SameHold(n: Node, m: Node) {
    m.id == n.id && m.mode == n.mode && m.started == n.started && m.cache == n.cache
  }

  // What happens to links and gets does not concern the cache.
  lemma LinksHold(n: Node, H: E.Hasher, l: LinkId, m: Message, q: Request, serial: nat)
    ensures SameHold(n, Receive(n, l, m)) && SameHold(n, TornDown(n, l)) && SameHold(n, CutOff(n, l))
    ensures SameHold(n, Asked(n, l, q).0) && SameHold(n, GetCall(n, H, q))
    ensures SameHold(n, Awaited(n, serial)) && SameHold(n, GivenUp(n, serial))
  {
    hide ActivePeers, GetOutcome;
  }

  lemma MessagesHold(n: Node, l: LinkId, id: NodeId, mode: Mode, missed: bool, body: seq<byte>)
    requires l in n.links
    ensures SameHold(n, Verified(n, l, id, mode, missed).0) && SameHold(n, Resolved(n, l, body).0)
  {
    hide ReadKey, ReadValue;
  }

  lemma StoredElsewhere(n: Node, H: E.Hasher, body: seq<byte>, t: Seen, h: nat)
    ensures SameHold(n, Stored(n, H, body, t).(cache := n.cache))
    ensures !Names(H, Message.Put(body), h) ==> SameAt(n.cache, Stored(n, H, body, t).cache, h)
  {
    hide ReplicatedExpiry.Received, ReadKey, ReadValue, LE.Get;
  }

  lemma HandledEntry(n: Node, H: E.Hasher, l: LinkId, t: Seen, h: nat)
    requires l in n.links && n.links[l].inbox != []
    ensures SameHold(n, Handled(n, H, l, t).node.(cache := n.cache))
    ensures n.links[l].state == Disconnected || !Names(H, n.links[l].inbox[0], h) ==>
              SameAt(n.cache, Handled(n, H, l, t).node.cache, h)
  {
    if n.links[l].state != Disconnected {
      DispatchedEntry(Dequeued(n, l), H, l, n.links[l].inbox[0], t, h);
    }
    hide Dispatched, Names;
  }

  lemma DispatchedEntry(n: Node, H: E.Hasher, l: LinkId, msg: Message, t: Seen, h: nat)
    requires l in n.links
    ensures SameHold(n, Dispatched(n, H, l, msg, t).node.(cache := n.cache))
    ensures !Names(H, msg, h) ==> SameAt(n.cache, Dispatched(n, H, l, msg, t).node.cache, h)
  {
    hide Verified, Resolved, Stored, Answered;
    if msg.Verify? {
      MessagesHold(n, l, msg.id, msg.mode, t.missed, []);
    } else if msg.Put? {
      StoredElsewhere(n, H, msg.body, t, h);
    } else if msg.GetRsp? {
      MessagesHold(n, l, 0, Active, false, msg.body);
    }
  }

  // Node n holds in v what it holds in g.
  ghost predicate HoldsOn(g: Cluster, v: Cluster, n: NodeId) {
    n in g.nodes && n in v.nodes && SameHold(g.nodes[n], v.nodes[n])
  }

  lemma MovedHolds(g: Cluster, m: Node, out: Out, n: NodeId)
    requires n in g.nodes && m.id in g.nodes && SameHold(g.nodes[m.id], m)
    ensures HoldsOn(g, Moved(g, m, out), n)
  {
    hide Posted;
  }

  lemma ConnectedHolds(g: Cluster, a: End, b: End, proposed: Option<NodeId>, n: NodeId)
    requires n in g.nodes
    ensures HoldsOn(g, ClusterRun.Connected(g, a, b, proposed), n)
  {
  }

  // Acts that move messages and gets leave every cache alone.
  predicate Carrying(act: Act) {
    act.Connect? || act.Deliver? || act.SendReplication? || act.SendGet? || act.Disconnect? || act.Close?
    || act.ClientGet? || act.Await? || act.GiveUp?
  }

  lemma CarryingHolds(g: Cluster, H: E.Hasher, act: Act, n: NodeId)
    requires WellNamed(g) && n in g.nodes && Carrying(act)
    ensures HoldsOn(g, Step(g, H, act), n)
  {
    hide Step, HoldsOn;
    if act.Connect? || act.Deliver? || act.Disconnect? || act.Close? {
      ConnectionHolds(g, H, act, n);
    } else if act.SendReplication? || act.SendGet? {
      SendingHolds(g, H, act, n);
    } else {
      GettingHolds(g, H, act, n);
    }
  }

  lemma ConnectionHolds(g: Cluster, H: E.Hasher, act: Act, n: NodeId)
    requires WellNamed(g) && n in g.nodes && (act.Connect? || act.Deliver? || act.Disconnect? || act.Close?)
    ensures HoldsOn(g, Step(g, H, act), n)
  {
    hide Moved, Receive, TornDown, CutOff, ClusterRun.Connected;
    Itself(g, n);
    var none := Request(0, [], []);
    match act
    case Connect(a, b, proposed) => ConnectedHolds(g, a, b, proposed, n);
    case Deliver(p) =>
      if p.to.node in g.nodes {
        LinksHold(g.nodes[p.to.node], H, p.to.link, p.msg, none, 0);
        MovedHolds(g, Receive(g.nodes[p.to.node], p.to.link, p.msg), {}, n);
      }
    case Disconnect(e) =>
      if e.node in g.nodes {
        LinksHold(g.nodes[e.node], H, e.link, Ping, none, 0);
        MovedHolds(g, CutOff(g.nodes[e.node], e.link), {}, n);
      }
    case Close(e) =>
      if e.node in g.nodes {
        LinksHold(g.nodes[e.node], H, e.link, Ping, none, 0);
        MovedHolds(g, TornDown(g.nodes[e.node], e.link), {}, n);
      }
  }

  lemma SendingHolds(g: Cluster, H: E.Hasher, act: Act, n: NodeId)
    requires WellNamed(g) && n in g.nodes && (act.SendReplication? || act.SendGet?)
    ensures HoldsOn(g, Step(g, H, act), n)
  {
    hide Moved, Asked, Send;
    Itself(g, n);
    match act
    case SendReplication(m, l, msg) =>
      if m in g.nodes {
        Itself(g, m);
        MovedHolds(g, g.nodes[m], Send(g.nodes[m], l, msg), n);
      }
    case SendGet(m, l, q) =>
      if m in g.nodes {
        LinksHold(g.nodes[m], H, l, Ping, q, 0);
        MovedHolds(g, Asked(g.nodes[m], l, q).0, Asked(g.nodes[m], l, q).1, n);
      }
  }

  lemma GettingHolds(g: Cluster, H: E.Hasher, act: Act, n: NodeId)
    requires WellNamed(g) && n in g.nodes && (act.ClientGet? || act.Await? || act.GiveUp?)
    ensures HoldsOn(g, Step(g, H, act), n)
  {
    hide Moved, GetCall, GetOutcome, Awaited, GivenUp;
    Itself(g, n);
    if act.n in g.nodes {
      var q := if act.ClientGet? then Request(g.serial, act.key, act.suffix) else Request(0, [], []);
      LinksHold(g.nodes[act.n], H, 0, Ping, q, if act.ClientGet? then 0 else act.serial);
      MovedHolds(g, GetCall(g.nodes[act.n], H, q), {}, n);
      if !act.ClientGet? {
        MovedHolds(g, Awaited(g.nodes[act.n], act.serial), {}, n);
        MovedHolds(g, GivenUp(g.nodes[act.n], act.serial), {}, n);
      }
    }
  }

  lemma Itself(g: Cluster, n: NodeId)
    requires n in g.nodes
    ensures HoldsOn(g, g, n) && SameHold(g.nodes[n], g.nodes[n])
  {
  }

  // What a node holds under a hash changes, comes or goes only by an act that
  // touches it. Its mode never changes, and it stays started.
  lemma OnlyTouched(g: Cluster, H: E.Hasher, act: Act, n: NodeId, h: nat)
    requires WellNamed(g) && n in g.nodes
    ensures var v := Step(g, H, act);
            n in v.nodes && v.nodes[n].mode == g.nodes[n].mode && (g.nodes[n].started ==> v.nodes[n].started)
    ensures !Touches(g, H, act, n, h) ==> SameAt(g.nodes[n].cache, Step(g, H, act).nodes[n].cache, h)
  {
    if Carrying(act) {
      CarryingHolds(g, H, act, n);
      hide Step;
    } else if act.HandleNext? {
      OnlyTouchedByMessage(g, H, act.e, act.t, n, h);
      hide Step;
    } else {
      OnlyTouchedByClient(g, H, act, n, h);
      hide Step;
    }
  }

  lemma OnlyTouchedByClient(g: Cluster, H: E.Hasher, act: Act, n: NodeId, h: nat)
    requires WellNamed(g) && n in g.nodes && !act.HandleNext? && !Carrying(act)
    ensures var v := Step(g, H, act);
            n in v.nodes && v.nodes[n].mode == g.nodes[n].mode && (g.nodes[n].started ==> v.nodes[n].started)
    ensures !Touches(g, H, act, n, h) ==> SameAt(g.nodes[n].cache, Step(g, H, act).nodes[n].cache, h)
  {
    hide ActivePeers, Posted, PutBytes, Names;
  }

  lemma OnlyTouchedByMessage(g: Cluster, H: E.Hasher, e: End, t: Seen, n: NodeId, h: nat)
    requires WellNamed(g) && n in g.nodes
    ensures var act := HandleNext(e, t);
            && n in Step(g, H, act).nodes && Step(g, H, act).nodes[n].mode == g.nodes[n].mode
            && Step(g, H, act).nodes[n].started == g.nodes[n].started
            && (!Touches(g, H, act, n, h) ==> SameAt(g.nodes[n].cache, Step(g, H, act).nodes[n].cache, h))
  {
    if e.node in g.nodes && e.link in g.nodes[e.node].links && g.nodes[e.node].links[e.link].inbox != [] {
      HandledEntry(g.nodes[e.node], H, e.link, t, h);
    }
    hide Handled, Posted, Names;
  }

  ghost predicate TouchedIn(g: Cluster, H: E.Hasher, act: Act, n: NodeId, h: nat) {
    n in g.nodes && Touches(g, H, act, n, h)
  }

  // In every run an entry stays as it is until one of these acts.
  lemma {:induction false} StaysUntilTouched(g: Cluster, H: E.Hasher, acts: seq<Act>, n: NodeId, h: nat)
    requires Invariant(g) && AllSane(acts) && n in g.nodes
    ensures n in Run(g, H, acts).nodes
    ensures || SameAt(g.nodes[n].cache, Run(g, H, acts).nodes[n].cache, h)
            || exists i :: 0 <= i < |acts| && TouchedIn(Run(g, H, acts[..i]), H, acts[i], n, h)
    decreases |acts|
  {
    hide Step, Invariant, Touches, Sane;
    if acts != [] {
      var v := Step(g, H, acts[0]);
      InvariantNames(g);
      StepKeeps(g, H, acts[0]);
      OnlyTouched(g, H, acts[0], n, h);
      StaysUntilTouched(v, H, acts[1..], n, h);
      if TouchedIn(g, H, acts[0], n, h) {
        assert TouchedIn(Run(g, H, acts[..0]), H, acts[0], n, h);
      } else if i :| 0 <= i < |acts| - 1 && TouchedIn(Run(v, H, acts[1..][..i]), H, acts[1..][i], n, h) {
        assert acts[..i + 1][1..] == acts[1..][..i];
        assert TouchedIn(Run(g, H, acts[..i + 1]), H, acts[i + 1], n, h);
      }
    }
  }

  // ---- client calls ----

  // A link under which an active peer is registered.
  ghost predicate ToActivePeer(n: Node, l: LinkId) {
    exists id :: id in n.remoteNodes && n.remoteNodes[id] == l && l in n.links && n.links[l].mode == Active
  }

  lemma PeersAreThese(n: Node)
    ensures forall l :: l in ActivePeers(n) <==> ToActivePeer(n, l)
  {
    forall l ensures l in ActivePeers(n) <==> ToActivePeer(n, l) {
      if ToActivePeer(n, l) {
        var id :| id in n.remoteNodes && n.remoteNodes[id] == l && l in n.links && n.links[l].mode == Active;
        assert n.remoteNodes[id] in n.links && n.links[n.remoteNodes[id]].mode != Passive;
      }
    }
  }

  // A PUT that any reader takes for this key, second and data.
  ghost predicate Tells(m: Message, key: Key, data: seq<byte>, expiry: Time) {
    && m.Put? && Storable(m.body) && ReadKey(m.body, EXPIRY_SIZE) == Some(key)
    && ReadValue(m.body, EXPIRY_SIZE) == Some(data) && LE.Get(m.body[..EXPIRY_SIZE]) == expiry
  }

  // A put on a started node: an active node reads the data under the key, until
  // the second in which its time runs out, and every active peer is sent a PUT
  // with all of that; nothing else is queued.
  lemma PutAchieves(g: Cluster, H: E.Hasher, n: NodeId, key: Key, data: seq<byte>, duration: nat, now: Time)
    requires WellNamed(g) && n in g.nodes && g.nodes[n].started
    requires |key| <= MAX_KEY_LENGTH && IsUint64(E.Expiry(now, duration))
    ensures var v := Step(g, H, ClientPut(n, key, data, duration, now));
            n in v.nodes &&
            var before, after := g.nodes[n], v.nodes[n];
            var expiry := E.Expiry(now, duration);
            && (duration == 0 ==> expiry == E.NO_EXPIRY)
            && (duration != 0 ==> SECOND * expiry <= SECOND * now + duration < SECOND * (expiry + 1))
            && (before.mode == Active ==> && E.Lookup(after.cache, key, H(key)) == Ok(data)
                                          && after.cache[H(key)].expiry == expiry)
            && (exists m :: Tells(m, key, data, expiry)
                            && forall x :: x in after.replication <==>
                                           x in before.replication || (x.1 == m && ToActivePeer(before, x.0)))
            && v.returned == g.returned && v.soup == g.soup && v.serial == g.serial
  {
    var m := Message.Put(PutBytes(key, E.Expiry(now, duration), data));
    PutReadBack(key, E.Expiry(now, duration), data);
    PutLayout(key, E.Expiry(now, duration), data);
    E.ExpiryExact(now, duration);
    PeersAreThese(g.nodes[n]);
    hide ActivePeers, PutBytes, ReadKey, ReadValue, LE.Get, ToActivePeer;
    assert Tells(m, key, data, E.Expiry(now, duration));
    QueuedFor(g.nodes[n], m);
    NothingPosted(g, n);
  }

  lemma QueuedFor(n: Node, m: Message)
    ensures var more := n.replication + set l | l in ActivePeers(n) :: (l, m);
            forall x :: x in more <==> x in n.replication || (x.1 == m && ToActivePeer(n, x.0))
  {
    PeersAreThese(n);
    hide ActivePeers, ToActivePeer;
    var more := n.replication + set l | l in ActivePeers(n) :: (l, m);
    forall x: (LinkId, Message) | x.1 == m && ToActivePeer(n, x.0) ensures x in more {
      assert x == (x.0, m) && x.0 in ActivePeers(n);
    }
  }

  lemma NothingPosted(g: Cluster, n: NodeId)
    ensures Posted(g, n, {}) == {}
  {
  }

  // A delete likewise.
  lemma DeleteAchieves(g: Cluster, H: E.Hasher, n: NodeId, key: Key)
    requires WellNamed(g) && n in g.nodes && g.nodes[n].started
    ensures var v := Step(g, H, ClientDelete(n, key));
            n in v.nodes &&
            var before, after := g.nodes[n], v.nodes[n];
            && (before.mode == Active ==> E.Lookup(after.cache, key, H(key)) == Err(EntryNotFound))
            && (forall x :: x in after.replication <==>
                            x in before.replication || (x.1 == Message.Del(key) && ToActivePeer(before, x.0)))
            && v.returned == g.returned && v.soup == g.soup
  {
    hide ActivePeers, ToActivePeer;
    QueuedFor(g.nodes[n], Message.Del(key));
    NothingPosted(g, n);
  }

  // A get on a started node returns at once exactly when the node is active and
  // holds the key, with what it holds. Otherwise, if any peer is registered, it
  // queues one request for every active peer and no other, and waits; with
  // nobody registered it is over at once with nothing.
  lemma GetAchieves(g: Cluster, H: E.Hasher, n: NodeId, key: Key, suffix: Key)
    requires WellNamed(g) && n in g.nodes && g.nodes[n].started
    ensures var v := Step(g, H, ClientGet(n, key, suffix));
            n in v.nodes &&
            var before, after := g.nodes[n], v.nodes[n];
            var q := Request(g.serial, key, suffix);
            var found := E.Lookup(before.cache, key, H(key));
            && v.serial == g.serial + 1 && v.soup == g.soup
            && if before.mode == Active && found.Ok? then
                 v.returned == g.returned + [Return(g.serial, key, found.value)] && after == before
               else if before.remoteNodes == map[] then
                 v.returned == g.returned && after == before
               else
                 && v.returned == g.returned && after.calls == before.calls[g.serial := Queuing]
                 && (forall x :: x in after.getQueue <==>
                                 x in before.getQueue || (x.1 == q && ToActivePeer(before, x.0)))
  {
    hide ActivePeers, ToActivePeer;
    RequestsFor(g.nodes[n], Request(g.serial, key, suffix));
    NothingPosted(g, n);
    assert g.nodes[n].remoteNodes.Keys == {} <==> g.nodes[n].remoteNodes == map[];
    assert g.returned + [] == g.returned;
  }

  lemma RequestsFor(n: Node, q: Request)
    ensures var more := n.getQueue + set l | l in ActivePeers(n) :: (l, q);
            forall x :: x in more <==> x in n.getQueue || (x.1 == q && ToActivePeer(n, x.0))
  {
    PeersAreThese(n);
    hide ActivePeers, ToActivePeer;
    var more := n.getQueue + set l | l in ActivePeers(n) :: (l, q);
    forall x: (LinkId, Request) | x.1 == q && ToActivePeer(n, x.0) ensures x in more {
      assert x == (x.0, q) && x.0 in ActivePeers(n);
    }
  }

  // Before a node has started its clients achieve nothing.
  lemma NotStartedNothing(g: Cluster, H: E.Hasher, act: Act)
    requires WellNamed(g) && (act.ClientPut? || act.ClientDelete? || act.ClientGet?)
    requires act.n in g.nodes && !g.nodes[act.n].started
    ensures Step(g, H, act) == g.(serial := Step(g, H, act).serial)
  {
    hide ActivePeers;
    NothingPosted(g, act.n);
    assert g.nodes[act.n := g.nodes[act.n]] == g.nodes;
    assert g.returned + [] == g.returned;
  }

  // A node keeps its mode and, once started, serves its clients for ever.
  lemma {:induction false} StillServes(g: Cluster, H: E.Hasher, acts: seq<Act>, n: NodeId)
    requires Invariant(g) && AllSane(acts) && n in g.nodes
    ensures var v := Run(g, H, acts);
            n in v.nodes && v.nodes[n].mode == g.nodes[n].mode && (g.nodes[n].started ==> v.nodes[n].started)
    decreases |acts|
  {
    hide Invariant, Step, Sane;
    if acts != [] {
      InvariantNames(g);
      StepKeeps(g, H, acts[0]);
      OnlyTouched(g, H, acts[0], n, 0);
      StillServes(Step(g, H, acts[0]), H, acts[1..], n);
    }
  }

  lemma SaneNow(act: Act)
    requires act.ClientPut? && |act.key| <= MAX_KEY_LENGTH && IsUint64(E.Expiry(act.now, act.duration))
    ensures Sane(act)
  {
  }

  // What a client has put on a started active node the next get there returns,
  // whatever peers it has, and whatever else happens in between that does not
  // touch the entry.
  lemma GetAfterPut(g: Cluster, H: E.Hasher, n: NodeId, key: Key, data: seq<byte>, duration: nat, now: Time,
                    suffix: Key, between: seq<Act>)
    requires Invariant(g) && n in g.nodes && g.nodes[n].started && g.nodes[n].mode == Active
    requires |key| <= MAX_KEY_LENGTH && IsUint64(E.Expiry(now, duration)) && AllSane(between)
    requires var v := Step(g, H, ClientPut(n, key, data, duration, now));
             forall i | 0 <= i < |between| :: !TouchedIn(Run(v, H, between[..i]), H, between[i], n, H(key))
    ensures var v := Run(Step(g, H, ClientPut(n, key, data, duration, now)), H, between);
            Step(v, H, ClientGet(n, key, suffix)).returned == v.returned + [Return(v.serial, key, data)]
  {
    hide Invariant, Step, Run, Touches, Sane;
    var put := ClientPut(n, key, data, duration, now);
    var g1 := Step(g, H, put);
    InvariantNames(g);
    SaneNow(put);
    PutAchieves(g, H, n, key, data, duration, now);
    StepKeeps(g, H, put);
    StaysUntilTouched(g1, H, between, n, H(key));
    var v := Run(g1, H, between);
    RunKeeps(g1, H, between);
    InvariantNames(v);
    OnlyTouched(g, H, put, n, 0);
    StillServes(g1, H, between, n);
    GetAchieves(v, H, n, key, suffix);
  }

  // With nothing in between, on a cluster as it may be at any time.
  lemma PutThenGet(g: Cluster, H: E.Hasher, n: NodeId, key: Key, data: seq<byte>, duration: nat, now: Time, suffix: Key)
    requires Invariant(g) && n in g.nodes && g.nodes[n].started && g.nodes[n].mode == Active
    requires |key| <= MAX_KEY_LENGTH && IsUint64(E.Expiry(now, duration))
    ensures Run(g, H, [ClientPut(n, key, data, duration, now), ClientGet(n, key, suffix)]).returned ==
            g.returned + [Return(g.serial, key, data)]
  {
    hide Invariant, Step;
    var put, get := ClientPut(n, key, data, duration, now), ClientGet(n, key, suffix);
    InvariantNames(g);
    PutAchieves(g, H, n, key, data, duration, now);
    GetAfterPut(g, H, n, key, data, duration, now, suffix, []);
    assert [put, get][1..] == [get] && [get][1..] == [];
    assert Run(Step(g, H, put), H, [get]) == Run(Step(Step(g, H, put), H, get), H, []);
  }

  // ---- passive nodes ----

  ghost predicate PassiveEmpty(g: Cluster) {
    forall n | n in g.nodes && g.nodes[n].mode == Passive :: g.nodes[n].cache == map[]
  }

  lemma NotForPassive(g: Cluster, e: End)
    requires Invariant(g) && e.node in g.nodes && g.nodes[e.node].mode == Passive
    requires e.link in g.nodes[e.node].links && g.nodes[e.node].links[e.link].inbox != []
    ensures var m := g.nodes[e.node].links[e.link].inbox[0]; !m.Put? && !m.Del?
  {
    hide Invariant, GoodNode, GoodLink, IsPassive, WorldOf;
    NodeOf(g, e.node);
    LinkIsGood(WorldOf(g), g.nodes[e.node], e.link);
    PassiveOf(g, e.node);
    NotInInbox(WorldOf(g), e.node, WorldOf(g).far[End(e.node, e.link)].node, g.nodes[e.node].links[e.link]);
  }

  lemma PassiveOf(g: Cluster, n: NodeId)
    requires n in g.nodes && g.nodes[n].mode == Passive
    ensures IsPassive(WorldOf(g), n)
  {
  }

  lemma LinkIsGood(w: World, n: Node, l: LinkId)
    requires GoodNode(w, n) && l in n.links
    ensures End(n.id, l) in w.far && GoodLink(w, n.id, w.far[End(n.id, l)].node, n.links[l])
  {
    hide GoodLink, GoodQueues, GoodRegistry, GoodCache;
  }

  lemma NotInInbox(w: World, me: NodeId, other: NodeId, link: Link)
    requires GoodLink(w, me, other, link) && IsPassive(w, me) && link.inbox != []
    ensures !link.inbox[0].Put? && !link.inbox[0].Del?
  {
    hide IsPutBody, IsRspBody, IsPassive, GoodRequest;
    assert GoodMessage(w, other, me, link.inbox[0]);
  }

  // Nothing ever asks a passive node to change an entry.
  lemma PassiveUntouched(g: Cluster, H: E.Hasher, act: Act, n: NodeId, h: nat)
    requires Invariant(g) && n in g.nodes && g.nodes[n].mode == Passive && Touches(g, H, act, n, h)
    ensures act == Lose(n, h)
  {
    hide Invariant, Storable;
    if act.HandleNext? {
      NotForPassive(g, act.e);
    }
  }

  lemma PassiveEntry(g: Cluster, H: E.Hasher, act: Act, n: NodeId, h: nat)
    requires Invariant(g) && WellNamed(g) && n in g.nodes && g.nodes[n].mode == Passive && g.nodes[n].cache == map[]
    ensures n in Step(g, H, act).nodes && h !in Step(g, H, act).nodes[n].cache
  {
    hide Step, Invariant, Touches;
    OnlyTouched(g, H, act, n, h);
    if Touches(g, H, act, n, h) {
      PassiveUntouched(g, H, act, n, h);
      LostIsGone(g, H, n, h);
    }
  }

  lemma PassiveStep(g: Cluster, H: E.Hasher, act: Act)
    requires Invariant(g) && PassiveEmpty(g)
    ensures PassiveEmpty(Step(g, H, act))
  {
    hide Step, Invariant, Touches, SameAt;
    InvariantNames(g);
    StepNodes(g, H, act);
    var v := Step(g, H, act);
    forall n | n in v.nodes && v.nodes[n].mode == Passive ensures v.nodes[n].cache == map[] {
      OnlyTouched(g, H, act, n, 0);
      forall h ensures h !in v.nodes[n].cache {
        PassiveEntry(g, H, act, n, h);
      }
    }
  }

  lemma LostIsGone(g: Cluster, H: E.Hasher, n: NodeId, h: nat)
    requires WellNamed(g) && n in g.nodes
    ensures n in Step(g, H, Lose(n, h)).nodes && h !in Step(g, H, Lose(n, h)).nodes[n].cache
  {
  }

  lemma StepNodes(g: Cluster, H: E.Hasher, act: Act)
    requires WellNamed(g)
    ensures Step(g, H, act).nodes.Keys == g.nodes.Keys
  {
    hide Handled, ActivePeers, Posted, GetOutcome, PutBytes;
    if act.HandleNext? && act.e.node in g.nodes && act.e.link in g.nodes[act.e.node].links
       && g.nodes[act.e.node].links[act.e.link].inbox != [] {
      HandledShape(g.nodes[act.e.node], H, act.e.link, act.t);
    }
  }

  lemma {:induction false} PassiveRun(g: Cluster, H: E.Hasher, acts: seq<Act>)
    requires Invariant(g) && AllSane(acts) && PassiveEmpty(g)
    ensures PassiveEmpty(Run(g, H, acts))
    decreases |acts|
  {
    hide Invariant, Step, Sane, PassiveEmpty;
    if acts != [] {
      StepKeeps(g, H, acts[0]);
      PassiveStep(g, H, acts[0]);
      PassiveRun(Step(g, H, acts[0]), H, acts[1..]);
    }
  }

  // In every run a passive node holds nothing, whatever its clients and peers
  // do.
  lemma PassiveHoldsNothing(modes: map<NodeId, Mode>, H: E.Hasher, acts: seq<Act>, n: NodeId)
    requires AllSane(acts)
    ensures var g := Run(Initial(modes), H, acts);
            n in g.nodes && g.nodes[n].mode == Passive ==> g.nodes[n].cache == map[]
  {
    hide Invariant, Run, Sane;
    InitialGood(modes);
    PassiveRun(Initial(modes), H, acts);
  }
}
