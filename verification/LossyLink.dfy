/**
 * The two directions of the serial link as lossy FIFO queues between the host's
 * requests and the device.
 *
 * A request is identified by its index in `requests`; copies of it travel in
 * `toDevice` as that index. Each handled copy is recorded in `log`, and the reply
 * travels in `toHost` as the index of that record. Endpoints never see these
 * indices: the device gets the packet, the host gets the reply and compares its
 * sequence number.
 */
module LossyLink {
  import opened Bytes
  import opened Esp
  import opened Frame
  import opened HmacSha
  import opened Sealing
  import opened DeviceMachine
  import T = DispatchTheory

  const SEQUENCES: nat := 0x1_0000

  /** The sequence number under which the host's counter appears on the wire. */
  function SequenceOf(number: nat): uint16 { number % SEQUENCES }

  /** A request; `number` is the host's counter before it is reduced to 16 bits. */
  datatype Request = Request(number: nat, packet: Packet)

  datatype Exchange = Exchange(id: nat, outcome: Outcome, before: Device, reply: Packet, after: Device)

  datatype Link = Link(
    requests: seq<Request>,
    toDevice: seq<nat>,
    log: seq<Exchange>,
    toHost: seq<nat>,
    floor: nat,
    device: Device)

  /** Nothing is in flight. */
  predicate Idle(l: Link) { l.toDevice == [] && l.toHost == [] }

  /** The index of the request under way. */
  function Current(l: Link): nat
    requires l.requests != []
  {
    |l.requests| - 1
  }

  // ---- The inductive invariant over both endpoints and both queues ----

  /** Copies are handled and answered in the order of their requests, none older than `floor`. */
  predicate Ordered(l: Link)
  {
    && (if l.requests == [] then l.floor == 0 else l.floor < |l.requests|)
    && (forall i | 0 <= i < |l.toDevice| :: l.floor <= l.toDevice[i] < |l.requests|)
    && (forall i, j | 0 <= i < j < |l.toDevice| :: l.toDevice[i] <= l.toDevice[j])
    && (forall k | 0 <= k < |l.log| :: l.log[k].id < |l.requests|)
    && (forall j, k | 0 <= j < k < |l.log| :: l.log[j].id <= l.log[k].id)
    && (forall k, i | 0 <= k < |l.log| && 0 <= i < |l.toDevice| :: l.log[k].id <= l.toDevice[i])
    && (forall i | 0 <= i < |l.toHost| :: l.toHost[i] < |l.log| && l.floor <= l.log[l.toHost[i]].id)
    && (forall i, j | 0 <= i < j < |l.toHost| :: l.toHost[i] < l.toHost[j])
  }

  /** Sequence numbers are the counter modulo 2^16, and fewer than 2^16 were used since `floor`. */
  predicate Numbered(requests: seq<Request>, floor: nat)
  {
    && (forall i | 0 <= i < |requests| :: requests[i].packet.sequence == SequenceOf(requests[i].number))
    && (forall i, j | 0 <= i < j < |requests| :: requests[i].number < requests[j].number)
    && (requests != [] && floor < |requests| ==> requests[|requests| - 1].number - requests[floor].number < SEQUENCES)
  }

  /** The platform may answer this device so. */
  predicate Possible(o: Outcome, d: Device) { Plausible(o, d.ota.flash) }

  /** The record is what the device does. */
  predicate Genuine(h: Hash, requests: seq<Request>, x: Exchange)
  {
    && x.id < |requests| && T.Shaped(x.before) && Possible(x.outcome, x.before)
    && Handle(h, x.before, requests[x.id].packet, x.outcome) == Handled(x.after, x.reply)
  }

  predicate Recorded(h: Hash, l: Link)
  {
    && (forall k | 0 <= k < |l.log| :: Genuine(h, l.requests, l.log[k]))
    && (forall j, k | 0 <= j < |l.log| && 0 <= k < |l.log| && k == j + 1 :: l.log[k].before == l.log[j].after)
    && (l.log != [] ==> l.log[|l.log| - 1].after == l.device)
    && T.Shaped(l.device)
  }

  predicate Inv(h: Hash, l: Link) { Ordered(l) && Numbered(l.requests, l.floor) && Recorded(h, l) }

  // ---- Steps ----

  /** The host starts a new request. */
  function Issue(l: Link, number: nat, p: Packet): Link { l.(requests := l.requests + [Request(number, p)]) }

  /** The host writes a copy of its current request. */
  function Transmit(l: Link): Link
    requires l.requests != []
  {
    l.(toDevice := l.toDevice + [Current(l)])
  }

  function Without(s: seq<nat>, i: nat): seq<nat>
    requires i < |s|
  {
    s[..i] + s[i + 1..]
  }

  function LoseRequest(l: Link, i: nat): Link
    requires i < |l.toDevice|
  {
    l.(toDevice := Without(l.toDevice, i))
  }

  function LoseReply(l: Link, i: nat): Link
    requires i < |l.toHost|
  {
    l.(toHost := Without(l.toHost, i))
  }

  /** The device handles the oldest copy. */
  function Deliver(h: Hash, l: Link, o: Outcome): Link
    requires l.toDevice != [] && l.toDevice[0] < |l.requests| && T.Shaped(l.device)
  {
    var id := l.toDevice[0];
    var r := Handle(h, l.device, l.requests[id].packet, o);
    l.(toDevice := l.toDevice[1..],
       log := l.log + [Exchange(id, o, l.device, r.reply, r.device)],
       toHost := l.toHost + [|l.log|],
       device := r.device)
  }

  /** The host accepts the oldest reply: its request is complete. */
  function CompleteCall(l: Link): Link
    requires l.toHost != [] && l.requests != []
  {
    l.(toHost := l.toHost[1..], floor := Current(l))
  }

  /** A new request keeps the numbering when its number is new and the window is open. */
  predicate MayIssue(l: Link, number: nat, p: Packet)
  {
    && p.sequence == SequenceOf(number)
    && (l.requests != [] ==> l.requests[Current(l)].number < number)
    && (l.requests != [] && l.floor < |l.requests| ==> number - l.requests[l.floor].number < SEQUENCES)
  }

  lemma IssueKeepsInv(h: Hash, l: Link, number: nat, p: Packet)
    requires Inv(h, l) && MayIssue(l, number, p)
    ensures Inv(h, Issue(l, number, p))
  {
    hide Recorded, Numbered, MayIssue;
    IssueKeepsNumbers(l, number, p);
    IssueKeepsRecord(h, l, number, p);
    hide Ordered;
    IssueKeepsOrder(l, number, p);
  }

  lemma IssueKeepsOrder(l: Link, number: nat, p: Packet)
    requires Ordered(l)
    ensures Ordered(Issue(l, number, p))
  {
  }

  lemma IssueKeepsNumbers(l: Link, number: nat, p: Packet)
    requires Ordered(l) && Numbered(l.requests, l.floor) && MayIssue(l, number, p)
    ensures Numbered(Issue(l, number, p).requests, l.floor)
  {
    hide Ordered;
    if l.requests == [] { EmptyFloor(l); }
    var m := Issue(l, number, p).requests;
    assert forall i | 0 <= i < |l.requests| :: m[i] == l.requests[i];
  }

  lemma EmptyFloor(l: Link)
    requires Ordered(l) && l.requests == []
    ensures l.floor == 0
  {
  }

  lemma IssueKeepsRecord(h: Hash, l: Link, number: nat, p: Packet)
    requires Recorded(h, l)
    ensures Recorded(h, Issue(l, number, p))
  {
    hide Handle, T.Shaped, Genuine;
    var m := Issue(l, number, p);
    forall k | 0 <= k < |l.log|
      ensures Genuine(h, m.requests, m.log[k])
    {
      GenuineStable(h, l.requests, m.requests, l.log[k]);
    }
  }

  lemma GenuineStable(h: Hash, requests: seq<Request>, more: seq<Request>, x: Exchange)
    requires Genuine(h, requests, x) && requests <= more
    ensures Genuine(h, more, x)
  {
    hide Handle, T.Shaped;
  }

  lemma TransmitKeepsInv(h: Hash, l: Link)
    requires Inv(h, l) && l.requests != []
    ensures Inv(h, Transmit(l))
  {
    hide Recorded, Numbered;
    RecordedStable(h, l, Transmit(l));
  }

  lemma RecordedStable(h: Hash, l: Link, m: Link)
    requires Recorded(h, l) && m.requests == l.requests && m.log == l.log && m.device == l.device
    ensures Recorded(h, m)
  {
    hide Genuine, T.Shaped;
  }

  lemma LoseRequestKeepsInv(h: Hash, l: Link, i: nat)
    requires Inv(h, l) && i < |l.toDevice|
    ensures Inv(h, LoseRequest(l, i))
  {
    hide Recorded, Numbered;
    RecordedStable(h, l, LoseRequest(l, i));
  }

  lemma LoseReplyKeepsInv(h: Hash, l: Link, i: nat)
    requires Inv(h, l) && i < |l.toHost|
    ensures Inv(h, LoseReply(l, i))
  {
    hide Recorded, Numbered;
    RecordedStable(h, l, LoseReply(l, i));
  }

  lemma DeliverKeepsOrder(h: Hash, l: Link, o: Outcome)
    requires Ordered(l) && l.toDevice != [] && T.Shaped(l.device)
    ensures Ordered(Deliver(h, l, o))
  {
    hide Handle, T.Shaped;
  }

  lemma RecordPush(h: Hash, l: Link, m: Link, x: Exchange)
    requires Recorded(h, l) && Genuine(h, l.requests, x) && x.before == l.device && T.Shaped(x.after)
    requires m.requests == l.requests && m.log == l.log + [x] && m.device == x.after
    ensures Recorded(h, m)
  {
    hide Genuine, T.Shaped;
  }

  lemma DeliverKeepsRecord(h: Hash, l: Link, o: Outcome)
    requires Recorded(h, l) && l.toDevice != [] && l.toDevice[0] < |l.requests| && Possible(o, l.device)
    ensures T.Shaped(l.device) && Recorded(h, Deliver(h, l, o))
  {
    DeliveredIsGenuine(h, l, o);
    hide Handle, Recorded, Genuine;
    RecordPush(h, l, Deliver(h, l, o), Deliver(h, l, o).log[|l.log|]);
  }

  lemma DeliveredIsGenuine(h: Hash, l: Link, o: Outcome)
    requires Recorded(h, l) && l.toDevice != [] && l.toDevice[0] < |l.requests| && Possible(o, l.device)
    ensures T.Shaped(l.device)
    ensures var m := Deliver(h, l, o); Genuine(h, l.requests, m.log[|l.log|]) && T.Shaped(m.device)
  {
    T.HandleKeepsShape(h, l.device, l.requests[l.toDevice[0]].packet, o);
    hide Handle;
  }

  lemma DeliverKeepsInv(h: Hash, l: Link, o: Outcome)
    requires Inv(h, l) && l.toDevice != [] && Possible(o, l.device)
    ensures l.toDevice[0] < |l.requests| && T.Shaped(l.device) && Inv(h, Deliver(h, l, o))
  {
    DeliverKeepsOrder(h, l, o);
    DeliverKeepsRecord(h, l, o);
    hide Ordered, Recorded, Handle;
  }

  // ---- The sequence filter is sound ----

  lemma EchoesSequence(h: Hash, d: Device, p: Packet, o: Outcome)
    requires RingShape(d.auth)
    ensures Handle(h, d, p, o).reply.sequence == p.sequence
  {
    hide Unwrap, Execute, FindEntry, RequestDigest, ResponseTag, ProofAccepted, SessionKey, DeviceProof, Configure;
  }

  /** Within the window a sequence number belongs to one request. */
  lemma SequenceIdentifies(l: Link, id: nat)
    requires Numbered(l.requests, l.floor) && l.floor <= id < |l.requests|
    requires l.requests[id].packet.sequence == l.requests[Current(l)].packet.sequence
    ensures id == Current(l)
  {
    var a, b := l.requests[id].number, l.requests[Current(l)].number;
    if id < Current(l) {
      assert l.floor < id ==> l.requests[l.floor].number < a;
      assert 0 < b - a < SEQUENCES;
      SameResidue(a, b);
    }
  }

  lemma SameResidue(a: nat, b: nat)
    requires a < b < a + SEQUENCES
    ensures SequenceOf(a) != SequenceOf(b)
  {
  }

  /**
   * The reply the host accepts by its sequence number answers a copy of the current
   * request; from that record on the device saw nothing but such copies, and
   * nothing else is in flight.
   */
  lemma AcceptedIsCurrent(h: Hash, l: Link)
    requires Inv(h, l) && l.toHost != [] && l.requests != []
    requires l.toHost[0] < |l.log| ==>
      l.log[l.toHost[0]].reply.sequence == l.requests[Current(l)].packet.sequence
    ensures l.toHost[0] < |l.log|
    ensures forall j | l.toHost[0] <= j < |l.log| :: l.log[j].id == Current(l)
    ensures forall i | 0 <= i < |l.toDevice| :: l.toDevice[i] == Current(l)
    ensures Inv(h, CompleteCall(l))
  {
    hide Ordered, Recorded, Numbered;
    var k := l.toHost[0];
    HeadIsLogged(l);
    LoggedEchoes(h, l, k);
    SequenceIdentifies(l, l.log[k].id);
    CompleteKeepsOrder(l);
    CompleteKeepsNumbers(l);
    RecordedStable(h, l, CompleteCall(l));
  }

  /** The link before anything was sent. */
  function Unused(d: Device): Link { Link([], [], [], [], 0, d) }

  /** One request handled and its reply still in flight when the next request is issued under this number. */
  function LateReply(h: Hash, d: Device, n: nat, p: Packet, o: Outcome, number: nat, q: Packet): Link
    requires T.Shaped(d)
  {
    Issue(Deliver(h, Transmit(Issue(Unused(d), n, p)), o), number, q)
  }

  /**
   * The window is as wide as it can be: a reply kept in flight until the counter has
   * advanced by exactly 2^16 passes the filter for another request.
   */
  lemma WindowIsTight(h: Hash, d: Device, n: nat, p: Packet, q: Packet, o: Outcome)
    requires T.Shaped(d) && Possible(o, d) && p.sequence == SequenceOf(n) && q.sequence == SequenceOf(n + SEQUENCES)
    ensures MayIssue(Unused(d), n, p)
    ensures var l := LateReply(h, d, n, p, o, n + SEQUENCES, q);
      && Ordered(l) && Recorded(h, l) && l.toHost == [0] && |l.log| == 1 && l.requests != []
      && l.log[0].id != Current(l) && l.log[0].reply.sequence == l.requests[Current(l)].packet.sequence
  {
    hide Handle, RingShape, Ordered, Recorded, Possible;
    T.HandleKeepsShape(h, d, p, o);
    EchoesSequence(h, d, p, o);
    OneReplyInFlight(h, LateReply(h, d, n, p, o, n + SEQUENCES, q));
  }

  lemma OneReplyInFlight(h: Hash, l: Link)
    requires |l.requests| == 2 && l.toDevice == [] && l.toHost == [0] && l.floor == 0 && |l.log| == 1
    requires l.log[0].id == 0
    requires l.log[0].after == l.device && T.Shaped(l.device) && Genuine(h, l.requests, l.log[0])
    ensures Ordered(l) && Recorded(h, l)
  {
    hide Genuine, T.Shaped;
  }

  lemma HeadIsLogged(l: Link)
    requires Ordered(l) && l.toHost != []
    ensures l.toHost[0] < |l.log| && l.floor <= l.log[l.toHost[0]].id
  {
  }

  lemma LoggedEchoes(h: Hash, l: Link, k: nat)
    requires Recorded(h, l) && k < |l.log|
    ensures l.log[k].id < |l.requests| && l.log[k].reply.sequence == l.requests[l.log[k].id].packet.sequence
  {
    var x := l.log[k];
    assert Genuine(h, l.requests, x);
    EchoesSequence(h, x.before, l.requests[x.id].packet, x.outcome);
    hide Handle, Recorded;
  }

  lemma CompleteKeepsNumbers(l: Link)
    requires Numbered(l.requests, l.floor) && l.toHost != [] && l.requests != []
    ensures Numbered(CompleteCall(l).requests, CompleteCall(l).floor)
  {
  }

  lemma CompleteKeepsOrder(l: Link)
    requires Ordered(l) && l.toHost != [] && l.requests != []
    requires l.toHost[0] < |l.log| && l.log[l.toHost[0]].id == Current(l)
    ensures Ordered(CompleteCall(l))
    ensures forall j | l.toHost[0] <= j < |l.log| :: l.log[j].id == Current(l)
    ensures forall i | 0 <= i < |l.toDevice| :: l.toDevice[i] == Current(l)
  {
  }
}
