// Cluster/clusteredBigCache.go and Cluster/remoteNode.go: a node and its links
// as objects that the handlers and client calls update. Every method is proved
// against the functions of ClusterSpec.dfy.
module Clusters {
  import opened KeyedBlob
  import opened Messages
  import opened Results
  import opened TtlSpec
  import opened ExpirySystem
  import opened ReplicatedExpiry
  import LE = LittleEndian
  import Spec = ClusterSpec

  type NodeId = Spec.NodeId
  type LinkId = Spec.LinkId

  class RemoteNode {
    const parentNode: ClusteredBigCache
    var state: Spec.LinkState
    var peer: Option<NodeId>
    var mode: Spec.Mode
    var pendingGet: map<Key, Spec.Request>
    var inboundMsgQueue: seq<Spec.Message>
    var verified: bool
    var handling: bool

    ghost function View(): Spec.Link
      reads this
    {
      Spec.Link(state, peer, mode, pendingGet, inboundMsgQueue, verified, handling)
    }

    constructor (parentNode: ClusteredBigCache, proposed: Option<NodeId>)
      ensures View() == Spec.NewLink(proposed) && this.parentNode == parentNode
    {
      this.parentNode := parentNode;
      state, peer, mode := Spec.Handshake, proposed, Spec.Active;
      pendingGet, inboundMsgQueue, verified, handling := map[], [], false, true;
    }

    method QueueInboundMessage(msg: Spec.Message)
      modifies this
      ensures View() == Spec.Queued(old(View()), msg)
    {
      if state == Spec.Handshake {
        if !msg.Verify? && !msg.VerifyOK? {
          return;
        }
      }
      if state != Spec.Disconnected {
        inboundMsgQueue := inboundMsgQueue + [msg];
      }
    }

    // The link learns who its peer is, and is up or stops accordingly.
    method Introduce(id: NodeId, peerMode: Spec.Mode, accepted: bool)
      modifies this
      ensures View() == var heard := old(View()).(peer := Some(id), mode := peerMode);
                        if accepted then heard.(state := Spec.Connected, verified := true)
                        else heard.(handling := false)
    {
      peer, mode := Some(id), peerMode;
      if accepted {
        state, verified := Spec.Connected, true;
      } else {
        handling := false;
      }
    }

    // Files a request under its pending key and says what to send, if anything.
    method GetData(reqData: Spec.Request) returns (sent: Option<Spec.Message>)
      modifies this
      ensures state == Spec.Disconnected ==> sent == None && View() == old(View())
      ensures state != Spec.Disconnected ==>
                var pk := reqData.key + reqData.suffix;
                && sent == Some(Spec.GetReq(reqData.key, pk))
                && View() == old(View()).(pending := old(View()).pending[pk := reqData])
    {
      if state == Spec.Disconnected {
        return None;
      }
      var pk := reqData.key + reqData.suffix;
      pendingGet := pendingGet[pk := reqData];
      return Some(Spec.GetReq(reqData.key, pk));
    }

    // Ends the wait of the request that a response is for, and gives it back if
    // the response brings data.
    method HandleGetResponse(pendingKey: Key, data: seq<byte>) returns (origReq: Option<Spec.Request>)
      modifies this
      ensures View() == old(View()).(pending := old(View()).pending - {pendingKey})
      ensures pendingKey !in old(pendingGet) ==> View() == old(View())
      ensures origReq == if pendingKey in old(pendingGet) && |data| >= 1 then Some(old(pendingGet)[pendingKey])
                         else None
    {
      if pendingKey !in pendingGet {
        return None;
      }
      var waiting := pendingGet[pendingKey];
      pendingGet := pendingGet - {pendingKey};
      if |data| < 1 {
        return None;
      }
      return Some(waiting);
    }
  }

  class ClusteredBigCache {
    const id: NodeId
    const mode: Spec.Mode
    const hasher: Hasher
    var started: bool
    var cache: Store
    var links: map<LinkId, RemoteNode>
    var remoteNodes: map<NodeId, LinkId>
    var getRequestChan: set<(LinkId, Spec.Request)>
    var replicationChan: set<(LinkId, Spec.Message)>
    var calls: map<nat, Spec.CallState>

    // One object per link, and none shared with another node.
    ghost predicate Valid()
      reads this
    {
      && (forall l | l in links :: links[l].parentNode == this)
      && (forall l, m | l in links && m in links && l != m :: links[l] != links[m])
      && (forall p | p in remoteNodes :: remoteNodes[p] in links)
    }

    ghost function View(): Spec.Node
      reads this, links.Values
    {
      Spec.Node(id, mode, started, cache, map l | l in links :: links[l].View(), remoteNodes,
                getRequestChan, replicationChan, calls)
    }

    constructor (id: NodeId, mode: Spec.Mode, hasher: Hasher)
      ensures Valid() && this.id == id && this.hasher == hasher && links == map[]
      ensures View() == Spec.Node(id, mode, false, map[], map[], map[], {}, {}, map[])
    {
      this.id, this.mode, this.hasher := id, mode, hasher;
      started, cache, links, remoteNodes, getRequestChan, replicationChan := false, map[], map[], map[], {}, {};
      calls := map[];
    }

    method Start()
      requires Valid()
      modifies this`started
      ensures Valid() && View() == old(View()).(started := true)
    {
      started := true;
    }

    // A connection made, perhaps for a proposed peer, or accepted: a fresh link
    // in the handshake, on which the node introduces itself.
    method AddLink(l: LinkId, proposed: Option<NodeId>) returns (verify: Spec.Message)
      requires Valid() && l !in links
      modifies this`links
      ensures Valid() && l in links && fresh(links[l]) && links == old(links)[l := links[l]]
      ensures View() == old(View()).(links := old(View()).links[l := Spec.NewLink(proposed)])
      ensures verify == Spec.Verify(id, mode)
    {
      var r := new RemoteNode(this, proposed);
      links := links[l := r];
      return Spec.Verify(id, mode);
    }

    // sendMessage on a link, as the replication worker calls it.
    method SendMessage(l: LinkId, m: Spec.Message) returns (out: Spec.Out)
      requires Valid()
      ensures out == Spec.Send(View(), l, m)
    {
      out := if l in links && links[l].state != Spec.Disconnected then {(l, m)} else {};
    }

    // An entry expires.
    method Lose(h: nat)
      requires Valid()
      modifies this`cache
      ensures Valid() && View() == old(View()).(cache := old(View()).cache - {h})
    {
      cache := cache - {h};
    }

    // Queues a message for every registered peer that is not passive, in any
    // order.
    method Replicate(m: Spec.Message)
      requires Valid()
      modifies this`replicationChan
      ensures Valid()
      ensures View() == var n := old(View());
                        n.(replication := n.replication + set l | l in Spec.ActivePeers(n) :: (l, m))
    {
      hide Spec.ActivePeers, RemoteNode.View;
      ghost var done: set<NodeId> := {};
      var rest := remoteNodes.Keys;
      while rest != {}
        invariant done + rest == remoteNodes.Keys && done !! rest
        invariant replicationChan ==
                  old(replicationChan)
                  + set p | p in done && links[remoteNodes[p]].mode != Spec.Passive :: (remoteNodes[p], m)
      {
        var p :| p in rest;
        rest, done := rest - {p}, done + {p};
        if links[remoteNodes[p]].mode == Spec.Passive {
          continue;
        }
        replicationChan := replicationChan + {(remoteNodes[p], m)};
      }
      assert done == remoteNodes.Keys;
      SameTargets(m);
      SamePeers(old(View()), View());
    }

    lemma SameTargets<T>(m: T)
      requires Valid()
      ensures (set p | p in remoteNodes.Keys && links[remoteNodes[p]].mode != Spec.Passive :: (remoteNodes[p], m))
              == (set l | l in Spec.ActivePeers(View()) :: (l, m))
    {
      var peers := Spec.ActivePeers(View());
      forall p | p in remoteNodes.Keys && links[remoteNodes[p]].mode != Spec.Passive ensures remoteNodes[p] in peers {
        assert View().links[remoteNodes[p]].mode == links[remoteNodes[p]].mode;
      }
    }

    method Put(key: Key, data: seq<byte>, duration: nat, now: Time) returns (ok: bool)
      requires Valid()
      modifies this`cache, this`replicationChan
      ensures Valid() && ok == old(started)
      ensures View() == Spec.PutCall(old(View()), hasher, key, data, duration, now)
    {
      hide Spec.ActivePeers, PutBytes;
      if !started {
        return false;
      }
      var expiryTime := Expiry(now, duration);
      if mode == Spec.Active {
        cache := cache[hasher(key) := Entry(expiryTime, key, data)];
      }
      SamePeers(old(View()), View());
      Replicate(Spec.Message.Put(PutBytes(key, expiryTime, data)));
      return true;
    }

    method Delete(key: Key) returns (ok: bool)
      requires Valid()
      modifies this`cache, this`replicationChan
      ensures Valid() && ok == old(started)
      ensures View() == Spec.DeleteCall(old(View()), hasher, key)
    {
      hide Spec.ActivePeers;
      if !started {
        return false;
      }
      if mode == Spec.Active {
        cache := cache - {hasher(key)};
      }
      SamePeers(old(View()), View());
      Replicate(Spec.Message.Del(key));
      return true;
    }

    // Starts a get: a local answer, or requests queued for the active peers.
    method Get(q: Spec.Request) returns (r: Spec.GetStart)
      requires Valid()
      modifies this`getRequestChan, this`calls
      ensures Valid() && r == Spec.GetOutcome(old(View()), hasher, q.key)
      ensures View() == Spec.GetCall(old(View()), hasher, q)
    {
      hide Spec.ActivePeers, Spec.GetOutcome, RemoteNode.View;
      r := LookFirst(q.key);
      if r == Spec.Waiting {
        Ask(q);
        calls := calls[q.serial := Spec.Queuing];
        assert View().links == old(View().links);
      }
    }

    // What the node can say without its peers.
    method LookFirst(key: Key) returns (r: Spec.GetStart)
      requires Valid()
      ensures r == Spec.GetOutcome(View(), hasher, key)
    {
      if !started {
        return Spec.NotStarted;
      }
      if mode == Spec.Active {
        var data := Lookup(cache, key, hasher(key));
        if data.Ok? {
          return Spec.Local(data.value);
        }
      }
      assert |remoteNodes| == |remoteNodes.Keys|;
      if |remoteNodes| < 1 {
        assert remoteNodes.Keys == {};
        return Spec.NoPeers;
      }
      return Spec.Waiting;
    }

    // The get has queued its requests and begins to listen for a reply.
    method Await(serial: nat)
      requires Valid()
      modifies this`calls
      ensures Valid() && View() == Spec.Awaited(old(View()), serial)
    {
      if serial in calls && calls[serial] == Spec.Queuing {
        calls := calls[serial := Spec.Listening];
      }
    }

    // The get runs into its timeout.
    method GiveUp(serial: nat)
      requires Valid()
      modifies this`calls
      ensures Valid() && View() == Spec.GivenUp(old(View()), serial)
    {
      if serial in calls && calls[serial] == Spec.Listening {
        calls := calls[serial := Spec.TimedOut];
      }
    }

    // Queues a request for every registered peer that is not passive.
    method Ask(q: Spec.Request)
      requires Valid()
      modifies this`getRequestChan
      ensures Valid()
      ensures View() == var n := old(View()); n.(getQueue := n.getQueue + set l | l in Spec.ActivePeers(n) :: (l, q))
    {
      hide Spec.ActivePeers, RemoteNode.View;
      ghost var done: set<NodeId> := {};
      var rest := remoteNodes.Keys;
      while rest != {}
        invariant done + rest == remoteNodes.Keys && done !! rest
        invariant getRequestChan ==
                  old(getRequestChan)
                  + set p | p in done && links[remoteNodes[p]].mode != Spec.Passive :: (remoteNodes[p], q)
      {
        var p :| p in rest;
        rest, done := rest - {p}, done + {p};
        if links[remoteNodes[p]].mode == Spec.Passive {
          continue;
        }
        getRequestChan := getRequestChan + {(remoteNodes[p], q)};
      }
      assert done == remoteNodes.Keys;
      SameTargets(q);
      SamePeers(old(View()), View());
    }

    // Only the object of link l has changed.
    twostate lemma OneLink(l: LinkId)
      requires l in links && links == old(links) && Valid()
      requires forall m | m in links && m != l :: links[m].View() == old(links[m].View())
      ensures View().links == old(View().links)[l := links[l].View()]
    {
    }

    // A VERIFY from the other side: the link learns its peer and is registered
    // under the peer's id, unless both are passive or the id is seen to be
    // taken.
    method HandleVerify(l: LinkId, id: NodeId, peerMode: Spec.Mode, missed: bool) returns (ok: bool)
      requires Valid() && l in links
      modifies this`remoteNodes, links[l]
      ensures Valid()
      ensures View() == Spec.Verified(old(View()), l, id, peerMode, missed).0
      ensures (if ok then {(l, Spec.VerifyOK)} else {}) == Spec.Verified(old(View()), l, id, peerMode, missed).1
      ensures ok <==> !(peerMode == Spec.Passive && mode == Spec.Passive) && (missed || id !in old(remoteNodes))
    {
      ok := false;
      if !(peerMode == Spec.Passive && mode == Spec.Passive) {
        ok := EventVerifyRemoteNode(l, id, missed);
      }
      links[l].Introduce(id, peerMode, ok);
      OneLink(l);
    }

    // Registers a link under an id that is not seen to be taken.
    method EventVerifyRemoteNode(l: LinkId, id: NodeId, missed: bool) returns (ok: bool)
      requires Valid() && l in links
      modifies this`remoteNodes
      ensures Valid() && ok == (missed || id !in old(remoteNodes))
      ensures remoteNodes == if ok then old(remoteNodes)[id := l] else old(remoteNodes)
    {
      if id in remoteNodes && !missed {
        return false;
      }
      remoteNodes := remoteNodes[id := l];
      return true;
    }

    method Receive(l: LinkId, msg: Spec.Message)
      requires Valid() && l in links
      modifies links[l]
      ensures Valid() && View() == Spec.Receive(old(View()), l, msg)
    {
      links[l].QueueInboundMessage(msg);
      OneLink(l);
    }

    // A worker takes a queued request to its link.
    method SendRequest(l: LinkId, q: Spec.Request) returns (sent: Option<Spec.Message>)
      requires Valid() && l in links
      modifies links[l]
      ensures Valid() && View() == Spec.Asked(old(View()), l, q).0
      ensures (if sent.Some? then {(l, sent.value)} else {}) == Spec.Asked(old(View()), l, q).1
    {
      sent := links[l].GetData(q);
      OneLink(l);
    }

    // A GET response in its binary form, as every one on the wire decodes. Its
    // data reach the get only while that is listening.
    method HandleGetRsp(l: LinkId, body: seq<byte>) returns (reply: Option<(Spec.Request, seq<byte>)>)
      requires Valid() && l in links && KEY_SIZE_IN_BYTES <= |body| && ReadKey(body, 0).Some?
      modifies links[l], this`calls
      ensures Valid() && (View(), reply) == Spec.Resolved(old(View()), l, body)
    {
      var rspMsg := new GetRspMessage([], []);
      rspMsg.DeSerialize(WireMessage(MSG_GET_RSP, body));
      hide ReadKey, ReadValue;
      var origReq := links[l].HandleGetResponse(rspMsg.pendingKey, rspMsg.data);
      OneLink(l);
      assert rspMsg.pendingKey !in old(links[l].pendingGet) ==> View().links == old(View().links);
      reply := Deliver(origReq, rspMsg.data);
    }

    // A send on the get's channel that does not wait.
    method Deliver(origReq: Option<Spec.Request>, data: seq<byte>) returns (reply: Option<(Spec.Request, seq<byte>)>)
      requires Valid() && (origReq.Some? ==> |data| >= 1)
      modifies this`calls
      ensures Valid()
      ensures (View(), reply) == match origReq
                                 case None => (old(View()), None)
                                 case Some(q) => Spec.Replying(old(View()), q, data)
    {
      if origReq.Some? && origReq.value.serial in calls && calls[origReq.value.serial] == Spec.Listening {
        calls := calls[origReq.value.serial := Spec.Replied];
        assert View().links == old(View().links);
        return Some((origReq.value, data));
      }
      return None;
    }

    // Looks the key up and sends what was found, or no data.
    method HandleGetRequest(l: LinkId, key: Key, pendingKey: Key) returns (out: Spec.Out)
      requires Valid() && l in links
      ensures out == Spec.Answered(View(), hasher, l, key, pendingKey)
    {
      hide GetRspBytes;
      var found := Lookup(cache, key, hasher(key));
      var rsp := new GetRspMessage(pendingKey, if found.Ok? then found.value else []);
      var msg := rsp.Serialize();
      out := if links[l].state == Spec.Disconnected then {} else {(l, Spec.GetRsp(msg.data))};
    }

    // Stores a replicated entry under the receiver's clock.
    method HandlePut(body: seq<byte>, t: Spec.Seen)
      requires Valid() && Spec.Storable(body)
      modifies this`cache
      ensures Valid() && View() == Spec.Stored(old(View()), hasher, body, t)
    {
      var putMsg := new PutMessage([], 0, []);
      putMsg.DeSerialize(WireMessage(MSG_PUT, body));
      hide ReadKey, ReadValue, LE.Get, Received, RemoteNode.View;
      var expiry := Received(putMsg.expiry, t.clock);
      cache := cache[hasher(putMsg.key) := Entry(expiry, putMsg.key, putMsg.data)];
    }

    // Takes the next message of a link and does what its kind asks for.
    method HandleMessage(l: LinkId, t: Spec.Seen)
      returns (out: Spec.Out, reply: Option<(Spec.Request, seq<byte>)>)
      requires Valid() && l in links && links[l].inboundMsgQueue != []
      requires Spec.Handleable(links[l].inboundMsgQueue[0])
      modifies this`cache, this`remoteNodes, this`calls, links[l]
      ensures Valid()
      ensures Spec.Effect(View(), out, reply) == Spec.Handled(old(View()), hasher, l, t)
    {
      hide Spec.Dispatched, Spec.Handleable;
      var msg := links[l].inboundMsgQueue[0];
      links[l].inboundMsgQueue := links[l].inboundMsgQueue[1..];
      OneLink(l);
      assert View() == Spec.Dequeued(old(View()), l);
      out, reply := {}, None;
      if links[l].state == Spec.Disconnected {
        return;
      }
      out, reply := Dispatch(l, msg, t);
    }

    // Does what the kind of a message asks for.
    method Dispatch(l: LinkId, msg: Spec.Message, t: Spec.Seen)
      returns (out: Spec.Out, reply: Option<(Spec.Request, seq<byte>)>)
      requires Valid() && l in links && links[l].state != Spec.Disconnected && Spec.Handleable(msg)
      modifies this`cache, this`remoteNodes, this`calls, links[l]
      ensures Valid()
      ensures Spec.Effect(View(), out, reply) == Spec.Dispatched(old(View()), hasher, l, msg, t)
    {
      hide Spec.Verified, Spec.Stored, Spec.Answered, Spec.Resolved, Spec.Storable;
      out, reply := {}, None;
      match msg
      case Verify(peer, peerMode) =>
        var ok := HandleVerify(l, peer, peerMode, t.missed);
        if ok {
          out := {(l, Spec.VerifyOK)};
        }
      case Ping =>
        out := {(l, Spec.Pong)};
      case GetReq(key, pendingKey) =>
        out := HandleGetRequest(l, key, pendingKey);
      case GetRsp(body) =>
        reply := HandleGetRsp(l, body);
      case Put(body) =>
        HandlePut(body, t);
      case Del(key) =>
        cache := cache - {hasher(key)};
      case _ =>
    }

    // The connection of a link breaks.
    method Disconnect(l: LinkId)
      requires Valid() && l in links
      modifies links[l]
      ensures Valid() && View() == Spec.CutOff(old(View()), l)
    {
      links[l].state := Spec.Disconnected;
      OneLink(l);
    }

    method TearDown(l: LinkId)
      requires Valid() && l in links
      modifies this`remoteNodes, links[l]
      ensures Valid()
      ensures View() == Spec.TornDown(old(View()), l)
    {
      var r := links[l];
      r.state := Spec.Disconnected;
      if r.peer.Some? {
        remoteNodes := remoteNodes - {r.peer.value};
      }
      r.pendingGet := map[];
      r.handling := false;
      OneLink(l);
    }
  }

  // Peers depend on the links and the registry only.
  lemma SamePeers(a: Spec.Node, b: Spec.Node)
    requires a.links == b.links && a.remoteNodes == b.remoteNodes
    ensures Spec.ActivePeers(a) == Spec.ActivePeers(b)
  {
  }
}
