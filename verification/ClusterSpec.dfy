// One node of the cluster and its links as values, with what each handler of
// Cluster/remoteNode.go and each client call of Cluster/clusteredBigCache.go
// does to them.
module ClusterSpec {
  import opened KeyedBlob
  import opened Messages
  import opened Results
  import opened TtlSpec
  import opened ExpirySystem
  import opened ReplicatedExpiry
  import LE = LittleEndian

  type NodeId = nat
  type LinkId = nat

  datatype Mode = Active | Passive
  datatype LinkState = Connected | Disconnected | Handshake

  // A remote get in progress: its number and the key asked for.
  datatype Request = Request(serial: nat, key: Key, suffix: Key)

  // PUT and GETRsp travel in their binary form; the JSON messages are taken
  // as read. Sync stands for the two messages that spread peer addresses.
  datatype Message =
    | Verify(id: NodeId, mode: Mode) | VerifyOK | Ping | Pong | Sync
    | Put(body: seq<byte>) | Del(key: Key)
    | GetReq(key: Key, pendingKey: Key) | GetRsp(body: seq<byte>)

  // Length of the random suffix that makes a pending key.
  const SUFFIX_LENGTH := 8

  // Where a get that waits for its peers stands: still queuing its requests,
  // listening for the first reply, or over.
  datatype CallState = Queuing | Listening | Replied | TimedOut

  // What a handler reads while it works: the clock, and whether its look into
  // the registry misses an entry that is being stored at the same time.
  datatype Seen = Seen(clock: Reading, missed: bool)

  // remoteNode: one end of a connection. `peer` is the id that the link was
  // dialled for, until its peer gives its own; `verified` records that this end
  // has been registered with its node; `handling` that its handler still runs.
  datatype Link = Link(
    state: LinkState, peer: Option<NodeId>, mode: Mode, pending: map<Key, Request>,
    inbox: seq<Message>, verified: bool, handling: bool)

  datatype Node = Node(
    id: NodeId, mode: Mode, started: bool, cache: Store,
    links: map<LinkId, Link>, remoteNodes: map<NodeId, LinkId>,
    getQueue: set<(LinkId, Request)>, replication: set<(LinkId, Message)>,
    calls: map<nat, CallState>)  // by number of the request

  type Out = set<(LinkId, Message)>

  // ---- links ----

  const NEW_LINK := Link(Handshake, None, Active, map[], [], false, true)

  // A link dialled for a proposed peer starts with that peer's id.
  function NewLink(proposed: Option<NodeId>): Link {
    NEW_LINK.(peer := proposed)
  }

  // sendMessage: nothing leaves a disconnected link.
  function Send(n: Node, l: LinkId, m: Message): Out {
    if l in n.links && n.links[l].state != Disconnected then {(l, m)} else {}
  }

  // queueInboundMessage: a link in the handshake takes only VERIFY and
  // VERIFYOK.
  function Queued(link: Link, m: Message): Link {
    if link.state == Disconnected || (link.state == Handshake && !m.Verify? && !m.VerifyOK?) then link
    else link.(inbox := link.inbox + [m])
  }

  function Receive(n: Node, l: LinkId, m: Message): Node {
    if l in n.links then n.(links := n.links[l := Queued(n.links[l], m)]) else n
  }

  // handleVerify with eventVerifyRemoteNode, which looks for the id and stores
  // it in two steps: a look that misses an entry replaces it.
  function Verified(n: Node, l: LinkId, id: NodeId, mode: Mode, missed: bool): (r: (Node, Out))
    requires l in n.links
  {
    var link := n.links[l].(peer := Some(id), mode := mode);
    if (mode == Passive && n.mode == Passive) || (id in n.remoteNodes && !missed) then
      (n.(links := n.links[l := link.(handling := false)]), {})
    else
      var m := n.(links := n.links[l := link.(state := Connected, verified := true)],
                  remoteNodes := n.remoteNodes[id := l]);
      (m, Send(m, l, VerifyOK))
  }

  // The connection breaks; the link is torn down later.
  function CutOff(n: Node, l: LinkId): Node {
    if l !in n.links then n else n.(links := n.links[l := n.links[l].(state := Disconnected)])
  }

  // tearDown with eventRemoteNodeDisconneced: the entry under the peer's id
  // goes, whichever link it belongs to, and also when the peer has not given
  // its id yet but the link was dialled for it.
  function TornDown(n: Node, l: LinkId): Node {
    if l !in n.links then n
    else
      var link := n.links[l];
      n.(links := n.links[l := link.(state := Disconnected, pending := map[], handling := false)],
         remoteNodes := if link.peer.Some? then n.remoteNodes - {link.peer.value} else n.remoteNodes)
  }

  // ---- remote get ----

  // getData: the request waits under its key and suffix.
  function Asked(n: Node, l: LinkId, q: Request): (Node, Out) {
    if l !in n.links || n.links[l].state == Disconnected then (n, {})
    else
      var pk := q.key + q.suffix;
      (n.(links := n.links[l := n.links[l].(pending := n.links[l].pending[pk := q])]),
       {(l, GetReq(q.key, pk))})
  }

  // handleGetRequest: an unknown key is answered with no data.
  function Answered(n: Node, H: Hasher, l: LinkId, key: Key, pendingKey: Key): Out {
    var found := Lookup(n.cache, key, H(key));
    Send(n, l, GetRsp(GetRspBytes(pendingKey, if found.Ok? then found.value else [])))
  }

  // handleGetResponse: the request that waited under the pending key waits no
  // more, and its get takes the data if there is any and the get is listening.
  function Resolved(n: Node, l: LinkId, body: seq<byte>): (r: (Node, Option<(Request, seq<byte>)>)) {
    if l !in n.links || |body| < KEY_SIZE_IN_BYTES || ReadKey(body, 0) == None then (n, None)
    else
      var pk, data := ReadKey(body, 0).value, ReadValue(body, 0).value;
      var link := n.links[l];
      if pk !in link.pending then (n, None)
      else
        Replying(n.(links := n.links[l := link.(pending := link.pending - {pk})]), link.pending[pk], data)
  }

  function Replying(n: Node, q: Request, data: seq<byte>): (r: (Node, Option<(Request, seq<byte>)>)) {
    if |data| < 1 || !Listens(n, q.serial) then (n, None)
    else (n.(calls := n.calls[q.serial := Replied]), Some((q, data)))
  }

  predicate Listens(n: Node, serial: nat) {
    serial in n.calls && n.calls[serial] == Listening
  }

  // ---- replication ----

  // handlePut. Bodies too short or with a key that runs past them do not come
  // from an honest peer.
  function Stored(n: Node, H: Hasher, body: seq<byte>, t: Seen): Node {
    if |body| < EXPIRY_SIZE + KEY_SIZE_IN_BYTES || ReadKey(body, EXPIRY_SIZE) == None then n
    else
      var expiry := LE.Get(body[..EXPIRY_SIZE]);
      var key, data := ReadKey(body, EXPIRY_SIZE).value, ReadValue(body, EXPIRY_SIZE).value;
      n.(cache := n.cache[H(key) := Entry(Received(expiry, t.clock), key, data)])
  }

  // A body that Go can slice.
  ghost predicate Storable(body: seq<byte>) {
    EXPIRY_SIZE + KEY_SIZE_IN_BYTES <= |body| && ReadKey(body, EXPIRY_SIZE).Some?
  }

  // ---- dispatch ----

  // What handleMessage can take without slicing past a body.
  ghost predicate Handleable(m: Message) {
    && (m.Put? ==> Storable(m.body))
    && (m.GetRsp? ==> KEY_SIZE_IN_BYTES <= |m.body| && ReadKey(m.body, 0).Some?)
  }

  datatype Effect = Effect(node: Node, out: Out, reply: Option<(Request, seq<byte>)>)

  function Dequeued(n: Node, l: LinkId): Node
    requires l in n.links && n.links[l].inbox != []
  {
    n.(links := n.links[l := n.links[l].(inbox := n.links[l].inbox[1..])])
  }

  // What a message on a link does, by its kind.
  function Dispatched(n: Node, H: Hasher, l: LinkId, msg: Message, t: Seen): Effect
    requires l in n.links
  {
    match msg
    case Verify(id, mode) => var (r, out) := Verified(n, l, id, mode, t.missed); Effect(r, out, None)
    case Ping => Effect(n, Send(n, l, Pong), None)
    case GetReq(key, pk) => Effect(n, Answered(n, H, l, key, pk), None)
    case GetRsp(body) => var (r, reply) := Resolved(n, l, body); Effect(r, {}, reply)
    case Put(body) => Effect(Stored(n, H, body, t), {}, None)
    case Del(key) => Effect(n.(cache := n.cache - {H(key)}), {}, None)
    case _ => Effect(n, {}, None)
  }

  // handleMessage takes the next message of a link; a disconnected link drains
  // its queue without effect.
  function Handled(n: Node, H: Hasher, l: LinkId, t: Seen): Effect
    requires l in n.links && n.links[l].inbox != []
  {
    if n.links[l].state == Disconnected then Effect(Dequeued(n, l), {}, None)
    else Dispatched(Dequeued(n, l), H, l, n.links[l].inbox[0], t)
  }

  // ---- client calls ----

  // Links of registered peers that are not passive.
  function ActivePeers(n: Node): set<LinkId> {
    set id | id in n.remoteNodes && n.remoteNodes[id] in n.links && n.links[n.remoteNodes[id]].mode != Passive
      :: n.remoteNodes[id]
  }

  function PutCall(n: Node, H: Hasher, key: Key, data: seq<byte>, duration: nat, now: Time): Node {
    var expiry := Expiry(now, duration);
    if !n.started then n
    else n.(cache := if n.mode == Active then n.cache[H(key) := Entry(expiry, key, data)] else n.cache,
            replication := n.replication + set l | l in ActivePeers(n) :: (l, Message.Put(PutBytes(key, expiry, data))))
  }

  function DeleteCall(n: Node, H: Hasher, key: Key): Node {
    if !n.started then n
    else n.(cache := if n.mode == Active then n.cache - {H(key)} else n.cache,
            replication := n.replication + set l | l in ActivePeers(n) :: (l, Message.Del(key)))
  }

  datatype GetStart = NotStarted | Local(data: seq<byte>) | NoPeers | Waiting

  function GetOutcome(n: Node, H: Hasher, key: Key): GetStart {
    if !n.started then NotStarted
    else if n.mode == Active && Lookup(n.cache, key, H(key)).Ok? then Local(Lookup(n.cache, key, H(key)).value)
    else if n.remoteNodes.Keys == {} then NoPeers
    else Waiting
  }

  function GetCall(n: Node, H: Hasher, q: Request): Node {
    if GetOutcome(n, H, q.key) != Waiting then n
    else n.(getQueue := n.getQueue + (set l | l in ActivePeers(n) :: (l, q)), calls := n.calls[q.serial := Queuing])
  }

  // A get has queued all its requests and begins to listen.
  function Awaited(n: Node, serial: nat): Node {
    if serial in n.calls && n.calls[serial] == Queuing then n.(calls := n.calls[serial := Listening]) else n
  }

  // A get that listens runs into its timeout.
  function GivenUp(n: Node, serial: nat): Node {
    if Listens(n, serial) then n.(calls := n.calls[serial := TimedOut]) else n
  }
}
