/**
 The bounded store-and-forward relay and its control lane, one call at a time on values.

 Both lanes are the same step system with different limits; the control lane additionally only
 carries frames from devices to edges. A `Submission` is a frame together with what library code
 found out about it (schema, base64 and digest checks); receipts are told apart by the digest of a
 frame's canonical JSON text. Times count microseconds.
 */
module Relay {

  datatype Lane = Ordinary | Control

  datatype Role = DeviceRole | EdgeRole

  datatype Endpoint = Endpoint(endpointId: string, organizationId: string, role: Role, enabled: bool)

  datatype Peer = Peer(endpointId: string, organizationId: string, role: Role, authenticated: bool)

  /** A decoded frame together with its canonical JSON text; different texts can decode alike. */
  datatype Frame = Frame(
    json: string,
    frameId: string,
    organizationId: string,
    source: string,
    destination: string,
    sessionId: string,
    sequence: int,
    declaredLength: int,
    payload: seq<bv8>,
    createdAt: int,
    expiresAt: int)

  datatype Submission = Submission(frame: Frame, schemaValid: bool, base64Valid: bool, digestMatches: bool)

  datatype Reason =
    | PeerUnauthenticated
    | EndpointUnavailable
    | PeerBindingMismatch
    | SourceRoleDenied
    | FrameTooLarge
    | SchemaInvalid
    | Base64Invalid
    | LengthInvalid
    | DigestInvalid
    | TimeInvalid
    | SourceBindingMismatch
    | DestinationUnavailable
    | CrossOrganizationDenied
    | RouteRoleDenied
    | FrameIdReused
    | SequenceReplayed
    | QueueFull
    | BytesFull
    | PullRoleDenied
    | PullLimitInvalid
    | AcknowledgeRoleDenied
    | NotQueuedForPeer

  datatype Outcome<+T> = Ok(value: T) | Rejected(reason: Reason)

  datatype Receipt = Receipt(frameId: string, acknowledged: bool, destination: string)

  type ReceiptKey = (string, string)
  type SequenceKey = (string, string)

  datatype Config = Config(lane: Lane, endpoints: map<string, Endpoint>, digest: string -> string)

  datatype State = State(
    queues: map<string, seq<Frame>>,
    queuedBytes: map<string, int>,
    receipts: map<ReceiptKey, (string, Receipt)>,
    receiptOrder: seq<ReceiptKey>,
    lastSequences: map<SequenceKey, int>)

  const EMPTY := State(map[], map[], map[], [], map[])

  // ---- Limits ----------------------------------------------------------------------------------

  const SECOND := 1_000_000

  function MaximumFrameBytes(lane: Lane): nat { if lane == Ordinary then 65_536 else 8_192 }
  function MaximumPayloadBytes(lane: Lane): nat { if lane == Ordinary then 32_768 else 2_048 }
  function MaximumTtl(lane: Lane): nat { if lane == Ordinary then 120 * SECOND else 30 * SECOND }
  function MaximumSkew(lane: Lane): nat { 30 * SECOND }
  function MaximumQueuedFrames(lane: Lane): nat { if lane == Ordinary then 64 else 16 }
  function MaximumQueuedBytes(lane: Lane): nat { if lane == Ordinary then 262_144 else 32_768 }
  function MaximumPull(lane: Lane): nat { if lane == Ordinary then 16 else 8 }
  function MaximumReceipts(lane: Lane): nat { if lane == Ordinary then 1_024 else 512 }

  // ---- Guards ----------------------------------------------------------------------------------

  function RequirePeer(c: Config, peer: Peer): Outcome<Endpoint> {
    if !peer.authenticated then Rejected(PeerUnauthenticated)
    else if peer.endpointId !in c.endpoints || !c.endpoints[peer.endpointId].enabled then Rejected(EndpointUnavailable)
    else
      var endpoint := c.endpoints[peer.endpointId];
      if peer.organizationId != endpoint.organizationId || peer.role != endpoint.role then Rejected(PeerBindingMismatch)
      else Ok(endpoint)
  }

  function Validate(lane: Lane, sub: Submission, now: int): Outcome<()> {
    var f := sub.frame;
    if |f.json| > MaximumFrameBytes(lane) then Rejected(FrameTooLarge)
    else if !sub.schemaValid then Rejected(SchemaInvalid)
    else if !sub.base64Valid then Rejected(Base64Invalid)
    else if |f.payload| != f.declaredLength || |f.payload| > MaximumPayloadBytes(lane) then Rejected(LengthInvalid)
    else if !sub.digestMatches then Rejected(DigestInvalid)
    else if f.expiresAt <= f.createdAt || f.expiresAt - f.createdAt > MaximumTtl(lane)
            || f.createdAt > now + MaximumSkew(lane) || now >= f.expiresAt then Rejected(TimeInvalid)
    else Ok(())
  }

  function CheckRoute(c: Config, f: Frame, source: Endpoint): Outcome<()> {
    if f.source != source.endpointId || f.organizationId != source.organizationId then Rejected(SourceBindingMismatch)
    else if f.destination !in c.endpoints || !c.endpoints[f.destination].enabled then Rejected(DestinationUnavailable)
    else
      var destination := c.endpoints[f.destination];
      if destination.organizationId != source.organizationId then Rejected(CrossOrganizationDenied)
      else if (match c.lane case Ordinary => destination.role == source.role case Control => destination.role != EdgeRole)
      then Rejected(RouteRoleDenied)
      else Ok(())
  }

  /** Everything `publish` checks before it looks at the mutable state. */
  function Admit(c: Config, sub: Submission, peer: Peer, now: int): Outcome<()> {
    match RequirePeer(c, peer)
    case Rejected(reason) => Rejected(reason)
    case Ok(source) =>
      if c.lane == Control && source.role != DeviceRole then Rejected(SourceRoleDenied)
      else
        match Validate(c.lane, sub, now)
        case Rejected(reason) => Rejected(reason)
        case Ok(_) => CheckRoute(c, sub.frame, source)
  }

  // ---- Queues ----------------------------------------------------------------------------------

  function QueueOf(s: State, d: string): seq<Frame> {
    if d in s.queues then s.queues[d] else []
  }

  function BytesOf(s: State, d: string): int {
    if d in s.queuedBytes then s.queuedBytes[d] else 0
  }

  function TotalBytes(q: seq<Frame>): nat {
    if q == [] then 0 else TotalBytes(q[..|q| - 1]) + |q[|q| - 1].payload|
  }

  function Unexpired(q: seq<Frame>, now: int): seq<Frame> {
    if q == [] then []
    else Unexpired(q[..|q| - 1], now) + (if now < q[|q| - 1].expiresAt then [q[|q| - 1]] else [])
  }

  function IndexOfId(q: seq<Frame>, frameId: string, from: nat): (i: nat)
    requires from <= |q|
    ensures from <= i <= |q|
    ensures i < |q| ==> q[i].frameId == frameId
    ensures forall k :: from <= k < i ==> q[k].frameId != frameId
    decreases |q| - from
  {
    if from == |q| || q[from].frameId == frameId then from else IndexOfId(q, frameId, from + 1)
  }

  /** `deque.remove`: the first equal element goes. */
  function RemoveFirst(q: seq<Frame>, f: Frame): seq<Frame> {
    if q == [] then [] else if q[0] == f then q[1..] else [q[0]] + RemoveFirst(q[1..], f)
  }

  function LastSequence(s: State, key: SequenceKey): int {
    if key in s.lastSequences then s.lastSequences[key] else 0
  }

  function KeyOf(f: Frame): SequenceKey { (f.source, f.sessionId) }

  function ReceiptKeyOf(f: Frame): ReceiptKey { (f.organizationId, f.frameId) }

  // ---- Steps -----------------------------------------------------------------------------------

  function Remember(c: Config, s: State, key: ReceiptKey, digest: string, receipt: Receipt): State {
    var evicts := |s.receiptOrder| >= MaximumReceipts(c.lane);
    assert MaximumReceipts(c.lane) > 0;
    var order := if evicts then s.receiptOrder[1..] else s.receiptOrder;
    var receipts := if evicts then s.receipts - {s.receiptOrder[0]} else s.receipts;
    s.(receipts := receipts[key := (digest, receipt)], receiptOrder := order + [key])
  }

  function Enqueue(c: Config, s: State, f: Frame): State {
    var d := f.destination;
    var queued := s.(
      queues := s.queues[d := QueueOf(s, d) + [f]],
      queuedBytes := s.queuedBytes[d := BytesOf(s, d) + |f.payload|],
      lastSequences := s.lastSequences[KeyOf(f) := f.sequence]);
    Remember(c, queued, ReceiptKeyOf(f), c.digest(f.json), Receipt(f.frameId, false, d))
  }

  /** `publish` once the frame is admitted. A remembered identical frame gets its receipt again. */
  function PublishAdmitted(c: Config, s: State, f: Frame): (State, Outcome<Receipt>) {
    var d := f.destination;
    if ReceiptKeyOf(f) in s.receipts then
      var (digest, receipt) := s.receipts[ReceiptKeyOf(f)];
      (s, if digest != c.digest(f.json) then Rejected(FrameIdReused) else Ok(receipt))
    else if f.sequence <= LastSequence(s, KeyOf(f)) then (s, Rejected(SequenceReplayed))
    else
      var touched := s.(queues := s.queues[d := QueueOf(s, d)]);
      if |QueueOf(s, d)| >= MaximumQueuedFrames(c.lane) then (touched, Rejected(QueueFull))
      else if BytesOf(s, d) + |f.payload| > MaximumQueuedBytes(c.lane) then (touched, Rejected(BytesFull))
      else (Enqueue(c, s, f), Ok(Receipt(f.frameId, false, d)))
  }

  function Publish(c: Config, s: State, sub: Submission, peer: Peer, now: int): (State, Outcome<Receipt>) {
    match Admit(c, sub, peer, now)
    case Rejected(reason) => (s, Rejected(reason))
    case Ok(_) => PublishAdmitted(c, s, sub.frame)
  }

  /** Whether this call put its frame into a queue. */
  predicate Accepts(c: Config, s: State, sub: Submission, peer: Peer, now: int) {
    && Admit(c, sub, peer, now).Ok?
    && ReceiptKeyOf(sub.frame) !in s.receipts
    && sub.frame.sequence > LastSequence(s, KeyOf(sub.frame))
    && |QueueOf(s, sub.frame.destination)| < MaximumQueuedFrames(c.lane)
    && BytesOf(s, sub.frame.destination) + |sub.frame.payload| <= MaximumQueuedBytes(c.lane)
  }

  function DiscardExpired(s: State, d: string, now: int): State {
    var q := QueueOf(s, d);
    var retained := Unexpired(q, now);
    if |retained| == |q| then s.(queues := s.queues[d := q])
    else s.(queues := s.queues[d := retained], queuedBytes := s.queuedBytes[d := TotalBytes(retained)])
  }

  function Pull(c: Config, s: State, peer: Peer, now: int, limit: int): (State, Outcome<seq<Frame>>) {
    match RequirePeer(c, peer)
    case Rejected(reason) => (s, Rejected(reason))
    case Ok(endpoint) =>
      if c.lane == Control && endpoint.role != EdgeRole then (s, Rejected(PullRoleDenied))
      else if !(1 <= limit <= MaximumPull(c.lane)) then (s, Rejected(PullLimitInvalid))
      else
        var after := DiscardExpired(s, endpoint.endpointId, now);
        var q := QueueOf(after, endpoint.endpointId);
        (after, Ok(if limit <= |q| then q[..limit] else q))
  }

  function Acknowledge(c: Config, s: State, frameId: string, peer: Peer, now: int): (State, Outcome<Receipt>) {
    match RequirePeer(c, peer)
    case Rejected(reason) => (s, Rejected(reason))
    case Ok(endpoint) =>
      if c.lane == Control && endpoint.role != EdgeRole then (s, Rejected(AcknowledgeRoleDenied))
      else
        var d := endpoint.endpointId;
        var after := DiscardExpired(s, d, now);
        var q := QueueOf(after, d);
        var i := IndexOfId(q, frameId, 0);
        if i == |q| then (after, Rejected(NotQueuedForPeer))
        else
          var receipt := Receipt(frameId, true, d);
          (Settle(after, d, q[i], (endpoint.organizationId, frameId), receipt), Ok(receipt))
  }

  function Settle(s: State, d: string, f: Frame, key: ReceiptKey, receipt: Receipt): State {
    s.(queues := s.queues[d := RemoveFirst(QueueOf(s, d), f)],
       queuedBytes := s.queuedBytes[d := BytesOf(s, d) - |f.payload|],
       receipts := if key in s.receipts then s.receipts[key := (s.receipts[key].0, receipt)] else s.receipts)
  }
}
