// What messages that are not lost achieve: replication and the remote get as
// runs of the cluster, through the binary messages.
module ClusterPaths {
  import opened KeyedBlob
  import opened Encoding
  import opened Messages
  import opened Results
  import opened TtlSpec
  import opened ReplicatedExpiry
  import opened ClusterSpec
  import opened ClusterInvariant
  import opened ClusterRun
  import E = ExpirySystem
  import LE = LittleEndian

  // A connected end whose handler waits for a message.
  ghost predicate Waits(g: Cluster, e: End) {
    && e.node in g.nodes && e.link in g.nodes[e.node].links
    && var link := g.nodes[e.node].links[e.link];
       link.state == LinkState.Connected && link.handling && link.inbox == []
  }

  // An end whose handler waits, in a state in which it takes the message.
  ghost predicate Takes(g: Cluster, e: End, m: Message) {
    && e.node in g.nodes && e.link in g.nodes[e.node].links
    && var link := g.nodes[e.node].links[e.link];
       link.handling && link.inbox == [] && link.state != Disconnected
       && (link.state == Handshake ==> m.Verify? || m.VerifyOK?)
  }

  ghost predicate Opposite(g: Cluster, a: End, b: End) {
    a in g.far && g.far[a] == b && b in g.far && g.far[b] == a
  }

  // Both ends of one connection.
  lemma OppositeEnds(g: Cluster, e: End)
    requires Invariant(g) && e in g.far
    ensures WellNamed(g) && Opposite(g, e, g.far[e])
  {
  }

  function Answers(reply: Option<(Request, seq<byte>)>): seq<Return> {
    if reply.Some? then [ReturnOf(reply.value)] else []
  }

  // A packet that is delivered to an end that takes it, and handled, does
  // there what its message asks for.
  lemma Handed(g: Cluster, H: E.Hasher, b: End, m: Message, t: Seen)
    requires WellNamed(g) && Takes(g, b, m) && Packet(b, m) in g.soup
    ensures var e := Dispatched(g.nodes[b.node], H, b.link, m, t);
            Step(Step(g, H, Deliver(Packet(b, m))), H, HandleNext(b, t)) ==
              Moved(g, e.node, e.out).(returned := g.returned + Answers(e.reply))
  {
    hide Dispatched, Posted;
    var n := g.nodes[b.node];
    var link := n.links[b.link];
    var got := Receive(n, b.link, m);
    assert got.links[b.link].inbox == [m];
    assert [m][1..] == [];
    assert Dequeued(got, b.link) == n by {
      assert got.links[b.link].(inbox := []) == link;
      assert got.links[b.link := link] == n.links;
    }
    DispatchedId(n, H, b.link, m, t);
    assert g.nodes[b.node := got][b.node := Dispatched(n, H, b.link, m, t).node] ==
           g.nodes[b.node := Dispatched(n, H, b.link, m, t).node];
    PostedNow(g, Moved(g, got, {}), b.node, Dispatched(n, H, b.link, m, t).out);
  }

  lemma DispatchedId(n: Node, H: E.Hasher, l: LinkId, m: Message, t: Seen)
    requires l in n.links
    ensures Dispatched(n, H, l, m, t).node.id == n.id
  {
    hide Received, ReadKey, ReadValue;
  }

  lemma PostedNow(g: Cluster, v: Cluster, n: NodeId, out: Out)
    requires v.far == g.far
    ensures Posted(v, n, out) == Posted(g, n, out) && Posted(g, n, {}) == {}
  {
  }

  // A replication worker puts its message on the way.
  lemma Sent(g: Cluster, H: E.Hasher, e: End, m: Message)
    requires WellNamed(g) && e in g.far && e.node in g.nodes && (e.link, m) in g.nodes[e.node].replication
    requires e.link in g.nodes[e.node].links && g.nodes[e.node].links[e.link].state != Disconnected
    ensures Step(g, H, SendReplication(e.node, e.link, m)) == g.(soup := g.soup + {Packet(g.far[e], m)})
  {
    assert g.nodes[e.node := g.nodes[e.node]] == g.nodes;
    OnePosted(g, e, m);
    hide Posted;
  }

  lemma OnePosted(g: Cluster, e: End, m: Message)
    requires e in g.far
    ensures Posted(g, e.node, {(e.link, m)}) == {Packet(g.far[e], m)}
  {
    var x := (e.link, m);
    assert End(e.node, x.0) == e;
    assert Packet(g.far[e], m) in Posted(g, e.node, {x}) by {
      assert x in {x} && End(e.node, x.0) in g.far;
    }
  }

  lemma First(g: Cluster, H: E.Hasher, act: Act, rest: seq<Act>)
    ensures Run(g, H, [act] + rest) == Run(Step(g, H, act), H, rest)
  {
    assert ([act] + rest)[1..] == rest;
  }

  lemma Four(g: Cluster, H: E.Hasher, a: Act, b: Act, c: Act, d: Act)
    ensures Run(g, H, [a, b, c, d]) == Step(Step(Step(Step(g, H, a), H, b), H, c), H, d)
  {
    hide Step, Run;
    var g1 := Step(g, H, a);
    var g2 := Step(g1, H, b);
    var g3 := Step(g2, H, c);
    assert [a, b, c, d] == [a] + [b, c, d] && [b, c, d] == [b] + [c, d] && [c, d] == [c] + [d] && [d] == [d] + [];
    First(g, H, a, [b, c, d]);
    First(g1, H, b, [c, d]);
    First(g2, H, c, [d]);
    First(g3, H, d, []);
    NoActs(Step(g3, H, d), H);
  }

  lemma NoActs(g: Cluster, H: E.Hasher)
    ensures Run(g, H, []) == g
  {
  }

  // A replicated message once queued: sent, delivered and handled.
  lemma Replicated(g: Cluster, H: E.Hasher, e: End, m: Message, t: Seen)
    requires WellNamed(g) && e in g.far && e.node in g.nodes && (e.link, m) in g.nodes[e.node].replication
    requires e.link in g.nodes[e.node].links && g.nodes[e.node].links[e.link].state != Disconnected
    requires Waits(g, g.far[e]) && (m.Put? || m.Del?)
    ensures var b := g.far[e];
            var sent := Step(g, H, SendReplication(e.node, e.link, m));
            var v := Step(Step(sent, H, Deliver(Packet(b, m))), H, HandleNext(b, t));
            v.nodes == g.nodes[b.node := Dispatched(g.nodes[b.node], H, b.link, m, t).node]
  {
    hide Step, Dispatched;
    Sent(g, H, e, m);
    var v := g.(soup := g.soup + {Packet(g.far[e], m)});
    Handed(v, H, g.far[e], m, t);
    DispatchedId(g.nodes[g.far[e].node], H, g.far[e].link, m, t);
  }

  function PutPath(e: End, b: End, key: Key, data: seq<byte>, duration: nat, now: Time, t: Seen): seq<Act> {
    var m := Message.Put(PutBytes(key, E.Expiry(now, duration), data));
    [ClientPut(e.node, key, data, duration, now), SendReplication(e.node, e.link, m),
     Deliver(Packet(b, m)), HandleNext(b, t)]
  }

  // A link of a started node that client traffic goes over, and whose far end
  // waits for it.
  ghost predicate Carries(g: Cluster, e: End) {
    && e in g.far && e.node in g.nodes && g.nodes[e.node].started && e.link in ActivePeers(g.nodes[e.node])
    && e.link in g.nodes[e.node].links && g.nodes[e.node].links[e.link].state != Disconnected && Waits(g, g.far[e])
  }

  lemma PutLands(n: Node, H: E.Hasher, l: LinkId, key: Key, data: seq<byte>, expiry: Time, t: Seen)
    requires l in n.links && |key| <= MAX_KEY_LENGTH && IsUint64(expiry)
    ensures var after := Dispatched(n, H, l, Message.Put(PutBytes(key, expiry, data)), t).node;
            && E.Lookup(after.cache, key, H(key)) == Ok(data)
            && after.cache[H(key)].expiry == Received(expiry, t.clock)
  {
    PutReadBack(key, expiry, data);
    hide PutBytes, ReadKey, ReadValue, LE.Get, Received;
  }

  // A put on a started node, replicated over one of its active links without
  // loss: the key reads the data on the far side, with the expiry as received,
  // and on the node itself if that is active.
  lemma PutArrives(g: Cluster, H: E.Hasher, e: End, key: Key, data: seq<byte>, duration: nat, now: Time, t: Seen)
    requires Invariant(g) && Carries(g, e)
    requires |key| <= MAX_KEY_LENGTH && IsUint64(E.Expiry(now, duration))
    ensures var b := g.far[e]; var v := Run(g, H, PutPath(e, b, key, data, duration, now, t));
            && b.node in v.nodes && e.node in v.nodes
            && E.Lookup(v.nodes[b.node].cache, key, H(key)) == Ok(data)
            && v.nodes[b.node].cache[H(key)].expiry == Received(E.Expiry(now, duration), t.clock)
            && (g.nodes[e.node].mode == Active ==> E.Lookup(v.nodes[e.node].cache, key, H(key)) == Ok(data))
  {
    hide Invariant, Step, Run, PutBytes, Received, ActivePeers, Dispatched;
    var b, m := g.far[e], Message.Put(PutBytes(key, E.Expiry(now, duration), data));
    OppositeEnds(g, e);
    var path := PutPath(e, b, key, data, duration, now, t);
    Four(g, H, path[0], path[1], path[2], path[3]);
    var g1 := Step(g, H, path[0]);
    PutQueued(g, H, e, key, data, duration, now);
    Replicated(g1, H, e, m, t);
    PutLands(g1.nodes[b.node], H, b.link, key, data, E.Expiry(now, duration), t);
  }

  // The first step of the path.
  lemma PutQueued(g: Cluster, H: E.Hasher, e: End, key: Key, data: seq<byte>, duration: nat, now: Time)
    requires WellNamed(g) && e.node in g.nodes && g.nodes[e.node].started && e.link in ActivePeers(g.nodes[e.node])
    ensures var g1 := Step(g, H, ClientPut(e.node, key, data, duration, now));
            && WellNamed(g1) && g1.far == g.far && g1.nodes.Keys == g.nodes.Keys
            && (forall id | id in g.nodes :: g1.nodes[id].links == g.nodes[id].links)
            && (e.link, Message.Put(PutBytes(key, E.Expiry(now, duration), data))) in g1.nodes[e.node].replication
            && (g.nodes[e.node].mode == Active ==> E.Lookup(g1.nodes[e.node].cache, key, H(key)) == Ok(data))
  {
    hide ActivePeers, PutBytes, Posted;
  }

  function DeletePath(e: End, b: End, key: Key, t: Seen): seq<Act> {
    var m := Message.Del(key);
    [ClientDelete(e.node, key), SendReplication(e.node, e.link, m), Deliver(Packet(b, m)), HandleNext(b, t)]
  }

  // A delete likewise: the key is gone on the far side, and on the node itself
  // if that is active.
  lemma DeleteArrives(g: Cluster, H: E.Hasher, e: End, key: Key, t: Seen)
    requires Invariant(g) && Carries(g, e)
    ensures var b := g.far[e]; var v := Run(g, H, DeletePath(e, b, key, t));
            && b.node in v.nodes && e.node in v.nodes
            && E.Lookup(v.nodes[b.node].cache, key, H(key)) == Err(EntryNotFound)
            && (g.nodes[e.node].mode == Active ==> E.Lookup(v.nodes[e.node].cache, key, H(key)) == Err(EntryNotFound))
  {
    hide Invariant, Step, Run, ActivePeers;
    var b := g.far[e];
    OppositeEnds(g, e);
    var path := DeletePath(e, b, key, t);
    Four(g, H, path[0], path[1], path[2], path[3]);
    DeleteQueued(g, H, e, key);
    Replicated(Step(g, H, path[0]), H, e, Message.Del(key), t);
  }

  lemma DeleteQueued(g: Cluster, H: E.Hasher, e: End, key: Key)
    requires WellNamed(g) && e.node in g.nodes && g.nodes[e.node].started && e.link in ActivePeers(g.nodes[e.node])
    ensures var g1 := Step(g, H, ClientDelete(e.node, key));
            && WellNamed(g1) && g1.far == g.far && g1.nodes.Keys == g.nodes.Keys
            && (forall id | id in g.nodes :: g1.nodes[id].links == g.nodes[id].links)
            && (e.link, Message.Del(key)) in g1.nodes[e.node].replication
            && (g.nodes[e.node].mode == Active ==> H(key) !in g1.nodes[e.node].cache)
  {
    hide ActivePeers, Posted;
  }

  // What the far side answers.
  function Response(n: Node, H: E.Hasher, key: Key, pk: Key): Message {
    var found := E.Lookup(n.cache, key, H(key));
    GetRsp(GetRspBytes(pk, if found.Ok? then found.value else []))
  }

  // The acts of a remote get over one link: the request goes out and the far
  // side answers; the get itself does what it does in the meantime; the
  // response comes in.
  function GetPath(e: End, b: End, q: Request, response: Message, meantime: seq<Act>, t: Seen, u: Seen): seq<Act> {
    var request := GetReq(q.key, q.key + q.suffix);
    [ClientGet(e.node, q.key, q.suffix), SendGet(e.node, e.link, q), Deliver(Packet(b, request)), HandleNext(b, t)]
    + meantime + [Deliver(Packet(e, response)), HandleNext(e, u)]
  }

  // Nothing but what one get does.
  predicate OwnActs(acts: seq<Act>, n: NodeId, serial: nat) {
    forall i | 0 <= i < |acts| :: acts[i] == Await(n, serial) || acts[i] == GiveUp(n, serial)
  }

  // Where these acts lead a get.
  function CallAfter(state: CallState, acts: seq<Act>): CallState
    decreases |acts|
  {
    if acts == [] then state
    else
      CallAfter(if acts[0].Await? && state == Queuing then Listening
                else if acts[0].GiveUp? && state == Listening then TimedOut else state, acts[1..])
  }

  // The request waits on its link and is on its way.
  ghost predicate Asking(g: Cluster, v: Cluster, e: End, q: Request) {
    && WellNamed(v) && v.far == g.far && v.nodes.Keys == g.nodes.Keys && v.returned == g.returned
    && e in g.far && Packet(g.far[e], GetReq(q.key, q.key + q.suffix)) in v.soup
    && (forall id | id in g.nodes ::
          v.nodes[id].cache == g.nodes[id].cache && v.nodes[id].links.Keys == g.nodes[id].links.Keys)
    && (forall id, l | id in g.nodes && l in g.nodes[id].links ::
          var link := g.nodes[id].links[l];
          v.nodes[id].links[l] ==
            if End(id, l) == e then link.(pending := link.pending[q.key + q.suffix := q]) else link)
    && e.node in v.nodes && q.serial in v.nodes[e.node].calls && v.nodes[e.node].calls[q.serial] == Queuing
  }

  lemma GetAsked(g: Cluster, H: E.Hasher, e: End, key: Key, suffix: Key)
    requires WellNamed(g) && Carries(g, e) && GetOutcome(g.nodes[e.node], H, key) == Waiting
    ensures var q := Request(g.serial, key, suffix);
            Asking(g, Step(Step(g, H, ClientGet(e.node, key, suffix)), H, SendGet(e.node, e.link, q)), e, q)
  {
    var q := Request(g.serial, key, suffix);
    var g1 := Step(g, H, ClientGet(e.node, key, suffix));
    GetQueued(g, H, e, q);
    OnePosted(g1, e, GetReq(key, key + suffix));
    hide ActivePeers, Posted, GetStarted;
  }

  lemma GetQueued(g: Cluster, H: E.Hasher, e: End, q: Request)
    requires WellNamed(g) && Carries(g, e) && GetOutcome(g.nodes[e.node], H, q.key) == Waiting
    ensures var g1 := GetStarted(g, H, g.nodes[e.node], q);
            && WellNamed(g1) && g1.far == g.far && g1.nodes.Keys == g.nodes.Keys && g1.returned == g.returned
            && (forall id | id in g.nodes ::
                  g1.nodes[id].links == g.nodes[id].links && g1.nodes[id].cache == g.nodes[id].cache)
            && (e.link, q) in g1.nodes[e.node].getQueue
            && q.serial in g1.nodes[e.node].calls && g1.nodes[e.node].calls[q.serial] == Queuing
  {
    hide ActivePeers, Posted;
  }

  // The far side answers with what it holds.
  lemma GetAnswered(g: Cluster, H: E.Hasher, b: End, q: Request, t: Seen)
    requires WellNamed(g) && Waits(g, b) && b in g.far && Packet(b, GetReq(q.key, q.key + q.suffix)) in g.soup
    ensures var v := Step(Step(g, H, Deliver(Packet(b, GetReq(q.key, q.key + q.suffix)))), H, HandleNext(b, t));
            v == g.(soup := g.soup + {Packet(g.far[b], Response(g.nodes[b.node], H, q.key, q.key + q.suffix))})
  {
    hide Step, GetRspBytes;
    var pk := q.key + q.suffix;
    Handed(g, H, b, GetReq(q.key, pk), t);
    OnePosted(g, b, Response(g.nodes[b.node], H, q.key, pk));
    hide Posted;
    assert g.nodes[b.node := g.nodes[b.node]] == g.nodes;
    assert g.returned + [] == g.returned;
  }

  // What a get does meanwhile changes its own state and nothing else.
  lemma {:induction false} Meanwhile(g: Cluster, H: E.Hasher, n: NodeId, serial: nat, acts: seq<Act>)
    requires OwnActs(acts, n, serial) && n in g.nodes && g.nodes[n].id == n && serial in g.nodes[n].calls
    ensures var state := CallAfter(g.nodes[n].calls[serial], acts);
            Run(g, H, acts) == g.(nodes := g.nodes[n := g.nodes[n].(calls := g.nodes[n].calls[serial := state])])
    decreases |acts|
  {
    if acts == [] {
      assert g.nodes[n].calls[serial := g.nodes[n].calls[serial]] == g.nodes[n].calls;
      assert g.nodes[n := g.nodes[n]] == g.nodes;
    } else {
      var v := Step(g, H, acts[0]);
      OwnAct(g, H, n, serial, acts[0]);
      hide Step;
      Meanwhile(v, H, n, serial, acts[1..]);
      var after := CallAfter(g.nodes[n].calls[serial], acts);
      assert v.nodes[n].calls[serial := after] == g.nodes[n].calls[serial := after];
      assert v.nodes[n := g.nodes[n].(calls := g.nodes[n].calls[serial := after])] ==
             g.nodes[n := g.nodes[n].(calls := g.nodes[n].calls[serial := after])];
    }
  }

  lemma OwnAct(g: Cluster, H: E.Hasher, n: NodeId, serial: nat, act: Act)
    requires act == Await(n, serial) || act == GiveUp(n, serial)
    requires n in g.nodes && g.nodes[n].id == n && serial in g.nodes[n].calls
    ensures var state := CallAfter(g.nodes[n].calls[serial], [act]);
            Step(g, H, act) == g.(nodes := g.nodes[n := g.nodes[n].(calls := g.nodes[n].calls[serial := state])])
  {
    PostedNow(g, g, n, {});
    hide Posted;
    assert [act][1..] == [];
    assert g.nodes[n].calls[serial := g.nodes[n].calls[serial]] == g.nodes[n].calls;
  }

  // The response ends the wait of the request, and the get returns its data
  // exactly when it is listening and there is any.
  lemma GetResolved(g: Cluster, H: E.Hasher, e: End, q: Request, data: seq<byte>, u: Seen)
    requires WellNamed(g) && Waits(g, e) && Packet(e, GetRsp(GetRspBytes(q.key + q.suffix, data))) in g.soup
    requires |q.key| <= MAX_KEY_LENGTH && |q.suffix| == SUFFIX_LENGTH
    requires q.key + q.suffix in g.nodes[e.node].links[e.link].pending
    requires g.nodes[e.node].links[e.link].pending[q.key + q.suffix] == q
    ensures var m := GetRsp(GetRspBytes(q.key + q.suffix, data));
            var v := Step(Step(g, H, Deliver(Packet(e, m))), H, HandleNext(e, u));
            && v.returned == g.returned + (if data != [] && Listens(g.nodes[e.node], q.serial)
                                           then [Return(q.serial, q.key, data)] else [])
            && e.node in v.nodes && e.link in v.nodes[e.node].links
            && q.key + q.suffix !in v.nodes[e.node].links[e.link].pending
  {
    hide Step, GetRspBytes, Posted, Resolved;
    Handed(g, H, e, GetRsp(GetRspBytes(q.key + q.suffix, data)), u);
    ResolvedNow(g.nodes[e.node], e.link, q, data);
  }

  lemma ResolvedNow(n: Node, l: LinkId, q: Request, data: seq<byte>)
    requires l in n.links && |q.key| <= MAX_KEY_LENGTH && |q.suffix| == SUFFIX_LENGTH
    requires q.key + q.suffix in n.links[l].pending && n.links[l].pending[q.key + q.suffix] == q
    ensures var (after, reply) := Resolved(n, l, GetRspBytes(q.key + q.suffix, data));
            && reply == (if data != [] && Listens(n, q.serial) then Some((q, data)) else None) && after.id == n.id
            && l in after.links && q.key + q.suffix !in after.links[l].pending
  {
    GetRspReadBack(q.key + q.suffix, data);
    hide ReadKey, ReadValue;
  }

  lemma {:induction false} RunSplit(g: Cluster, H: E.Hasher, acts: seq<Act>, more: seq<Act>)
    ensures Run(g, H, acts + more) == Run(Run(g, H, acts), H, more)
    decreases |acts|
  {
    hide Step;
    if acts == [] {
      assert acts + more == more;
    } else {
      assert (acts + more)[1..] == acts[1..] + more && (acts + more)[0] == acts[0];
      RunSplit(Step(g, H, acts[0]), H, acts[1..], more);
    }
  }

  lemma Two(g: Cluster, H: E.Hasher, a: Act, b: Act)
    ensures Run(g, H, [a, b]) == Step(Step(g, H, a), H, b)
  {
    hide Step, Run;
    assert [a, b] == [a] + [b] && [b] == [b] + [];
    First(g, H, a, [b]);
    First(Step(g, H, a), H, b, []);
    NoActs(Step(Step(g, H, a), H, b), H);
  }

  // The request is asked and answered; the get has not listened yet.
  lemma AskedAndAnswered(g: Cluster, H: E.Hasher, e: End, key: Key, suffix: Key, t: Seen)
    requires Invariant(g) && Carries(g, e) && Waits(g, e) && GetOutcome(g.nodes[e.node], H, key) == Waiting
    ensures var b, q := g.far[e], Request(g.serial, key, suffix);
            var response := Response(g.nodes[b.node], H, key, key + suffix);
            var path := GetPath(e, b, q, response, [], t, t); var v := Run(g, H, path[..4]);
            && WellNamed(v) && Waits(v, e) && Packet(e, response) in v.soup && v.returned == g.returned
            && key + suffix in v.nodes[e.node].links[e.link].pending
            && v.nodes[e.node].links[e.link].pending[key + suffix] == q
            && q.serial in v.nodes[e.node].calls && v.nodes[e.node].calls[q.serial] == Queuing
  {
    hide Invariant, Step, Run, ActivePeers, GetRspBytes, Posted, GetOutcome;
    var b, q := g.far[e], Request(g.serial, key, suffix);
    var path := GetPath(e, b, q, Response(g.nodes[b.node], H, key, key + suffix), [], t, t);
    OppositeEnds(g, e);
    assert path[..4] == [path[0], path[1], path[2], path[3]];
    Four(g, H, path[0], path[1], path[2], path[3]);
    GetAsked(g, H, e, key, suffix);
    var g2 := Step(Step(g, H, path[0]), H, path[1]);
    AskingWaits(g, g2, e, q);
    GetAnswered(g2, H, b, q, t);
  }

  // A remote get that loses no message returns what the far side holds under
  // the key exactly when that is not missing or empty and the get is listening
  // by then; either way the request waits no more.
  lemma RemoteGetCompletes(g: Cluster, H: E.Hasher, e: End, key: Key, suffix: Key, meantime: seq<Act>, t: Seen, u: Seen)
    requires Invariant(g) && Carries(g, e) && Waits(g, e) && GetOutcome(g.nodes[e.node], H, key) == Waiting
    requires |key| <= MAX_KEY_LENGTH && |suffix| == SUFFIX_LENGTH && OwnActs(meantime, e.node, g.serial)
    ensures var b, q := g.far[e], Request(g.serial, key, suffix);
            var response := Response(g.nodes[b.node], H, key, key + suffix);
            var v := Run(g, H, GetPath(e, b, q, response, meantime, t, u));
            var found := E.Lookup(g.nodes[b.node].cache, key, H(key));
            var answered := found.Ok? && found.value != [] && CallAfter(Queuing, meantime) == Listening;
            && v.returned == g.returned + (if answered then [Return(q.serial, key, found.value)] else [])
            && e.node in v.nodes && e.link in v.nodes[e.node].links
            && key + suffix !in v.nodes[e.node].links[e.link].pending
  {
    hide Invariant, Step, Run, ActivePeers, GetRspBytes, Posted, GetOutcome, CallAfter, OwnActs;
    var b, q := g.far[e], Request(g.serial, key, suffix);
    var response := Response(g.nodes[b.node], H, key, key + suffix);
    var path := GetPath(e, b, q, response, meantime, t, u);
    var start := GetPath(e, b, q, response, [], t, t)[..4];
    var rest := [Deliver(Packet(e, response)), HandleNext(e, u)];
    assert path == start + meantime + rest;
    RunSplit(g, H, start + meantime, rest);
    RunSplit(g, H, start, meantime);
    AskedAndAnswered(g, H, e, key, suffix, t);
    var g4 := Run(g, H, start);
    Meanwhile(g4, H, e.node, q.serial, meantime);
    var g5 := Run(g4, H, meantime);
    Two(g5, H, rest[0], rest[1]);
    var found := E.Lookup(g.nodes[b.node].cache, key, H(key));
    GetResolved(g5, H, e, q, if found.Ok? then found.value else [], u);
  }

  lemma AskingWaits(g: Cluster, v: Cluster, e: End, q: Request)
    requires e in g.far && Asking(g, v, e, q) && Waits(g, e) && Waits(g, g.far[e])
    ensures Waits(v, e) && Waits(v, g.far[e])
    ensures q.key + q.suffix in v.nodes[e.node].links[e.link].pending
    ensures v.nodes[e.node].links[e.link].pending[q.key + q.suffix] == q
    ensures v.nodes[g.far[e].node].cache == g.nodes[g.far[e].node].cache
  {
  }

  // ---- the handshake ----

  function HandshakePath(a: End, b: End, proposed: Option<NodeId>, fromA: Message, fromB: Message, t: Seen): seq<Act> {
    [Connect(a, b, proposed), Deliver(Packet(b, fromA)), HandleNext(b, t), Deliver(Packet(a, fromB)), HandleNext(a, t)]
  }

  // Node e.node has registered the far node on the link, and waits there.
  ghost predicate Joined(g: Cluster, e: End) {
    && e in g.far && Waits(g, e)
    && g.far[e].node in g.nodes[e.node].remoteNodes && g.nodes[e.node].remoteNodes[g.far[e].node] == e.link
  }

  // One side of the handshake: a fresh link hears who its peer is.
  lemma Introduced(g: Cluster, H: E.Hasher, e: End, proposed: Option<NodeId>, id: NodeId, mode: Mode, t: Seen)
    requires WellNamed(g) && e in g.far && e.node in g.nodes && e.link in g.nodes[e.node].links
    requires g.nodes[e.node].links[e.link] == NewLink(proposed) && Packet(e, Verify(id, mode)) in g.soup
    requires id !in g.nodes[e.node].remoteNodes && !(mode == Passive && g.nodes[e.node].mode == Passive)
    ensures var v := Step(Step(g, H, Deliver(Packet(e, Verify(id, mode)))), H, HandleNext(e, t));
            var n := g.nodes[e.node];
            && v.far == g.far && g.soup <= v.soup
            && v.nodes == g.nodes[e.node := n.(links := n.links[e.link := NEW_LINK.(state := LinkState.Connected,
                                                          peer := Some(id), mode := mode, verified := true)],
                                               remoteNodes := n.remoteNodes[id := e.link])]
  {
    hide Step, Posted;
    Handed(g, H, e, Verify(id, mode), t);
  }

  // Two nodes that do not know each other and are not both passive: once
  // connected and both introduced, each has registered the other, and their
  // links carry client traffic to whichever side is active.
  lemma HandshakeCompletes(g: Cluster, H: E.Hasher, a: End, b: End, proposed: Option<NodeId>, t: Seen)
    requires WellNamed(g) && Connectable(g, a, b) && a.node != b.node
    requires !(g.nodes[a.node].mode == Passive && g.nodes[b.node].mode == Passive)
    requires b.node !in g.nodes[a.node].remoteNodes && a.node !in g.nodes[b.node].remoteNodes
    ensures var fromA, fromB := Verify(a.node, g.nodes[a.node].mode), Verify(b.node, g.nodes[b.node].mode);
            var v := Run(g, H, HandshakePath(a, b, proposed, fromA, fromB, t));
            && Opposite(v, a, b) && Joined(v, a) && Joined(v, b)
            && (g.nodes[a.node].started && g.nodes[b.node].mode == Active ==> Carries(v, a))
  {
    var fromA, fromB := Verify(a.node, g.nodes[a.node].mode), Verify(b.node, g.nodes[b.node].mode);
    var path := HandshakePath(a, b, proposed, fromA, fromB, t);
    FiveActs(g, H, path[0], path[1], path[2], path[3], path[4]);
    ConnectedNow(g, H, a, b, proposed);
    hide Step, Run;
    BothIntroduced(Step(g, H, path[0]), H, a, b, proposed, t);
  }

  // The rest of the path, once the connection stands.
  lemma BothIntroduced(g: Cluster, H: E.Hasher, a: End, b: End, proposed: Option<NodeId>, t: Seen)
    requires WellNamed(g) && Opposite(g, a, b) && a.node != b.node && a.node in g.nodes && b.node in g.nodes
    requires a.link in g.nodes[a.node].links && b.link in g.nodes[b.node].links
    requires g.nodes[a.node].links[a.link] == NewLink(proposed) && g.nodes[b.node].links[b.link] == NewLink(None)
    requires !(g.nodes[a.node].mode == Passive && g.nodes[b.node].mode == Passive)
    requires b.node !in g.nodes[a.node].remoteNodes && a.node !in g.nodes[b.node].remoteNodes
    requires Packet(b, Verify(a.node, g.nodes[a.node].mode)) in g.soup
    requires Packet(a, Verify(b.node, g.nodes[b.node].mode)) in g.soup
    ensures var fromA, fromB := Verify(a.node, g.nodes[a.node].mode), Verify(b.node, g.nodes[b.node].mode);
            var one := Step(Step(g, H, Deliver(Packet(b, fromA))), H, HandleNext(b, t));
            var v := Step(Step(one, H, Deliver(Packet(a, fromB))), H, HandleNext(a, t));
            && Opposite(v, a, b) && Joined(v, a) && Joined(v, b)
            && (g.nodes[a.node].started && g.nodes[b.node].mode == Active ==> Carries(v, a))
  {
    hide Step;
    var fromA, fromB := Verify(a.node, g.nodes[a.node].mode), Verify(b.node, g.nodes[b.node].mode);
    var one := Step(Step(g, H, Deliver(Packet(b, fromA))), H, HandleNext(b, t));
    Introduced(g, H, b, None, a.node, g.nodes[a.node].mode, t);
    Introduced(one, H, a, proposed, b.node, g.nodes[b.node].mode, t);
    CarriesNow(Step(Step(one, H, Deliver(Packet(a, fromB))), H, HandleNext(a, t)), a, b);
  }

  lemma ConnectedNow(g: Cluster, H: E.Hasher, a: End, b: End, proposed: Option<NodeId>)
    requires WellNamed(g) && Connectable(g, a, b) && a.node != b.node
    ensures var g1 := Step(g, H, Connect(a, b, proposed));
            && WellNamed(g1) && Opposite(g1, a, b) && g1.nodes.Keys == g.nodes.Keys
            && g1.nodes[a.node] == WithLink(g.nodes[a.node], a.link, proposed)
            && g1.nodes[b.node] == WithLink(g.nodes[b.node], b.link, None)
            && Packet(b, Verify(a.node, g.nodes[a.node].mode)) in g1.soup
            && Packet(a, Verify(b.node, g.nodes[b.node].mode)) in g1.soup
  {
  }

  lemma CarriesNow(g: Cluster, a: End, b: End)
    requires Opposite(g, a, b) && Joined(g, a) && Waits(g, b)
    ensures g.nodes[a.node].started && g.nodes[a.node].links[a.link].mode == Active ==> Carries(g, a)
  {
  }

  lemma FiveActs(g: Cluster, H: E.Hasher, a: Act, b: Act, c: Act, d: Act, x: Act)
    ensures Run(g, H, [a, b, c, d, x]) == Step(Step(Step(Step(Step(g, H, a), H, b), H, c), H, d), H, x)
  {
    hide Step, Run;
    assert [a, b, c, d, x] == [a] + [b, c, d, x];
    First(g, H, a, [b, c, d, x]);
    Four(Step(g, H, a), H, b, c, d, x);
  }
}
