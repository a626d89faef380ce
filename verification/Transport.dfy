/**
 * `SerialTransport.request` over the lossy link: write the request, then read
 * replies until one carries its sequence number or the time is up.
 */
module Transport {
  import opened Bytes
  import opened Esp
  import opened Frame
  import opened HmacSha
  import opened DeviceMachine
  import opened LossyLink
  import opened RemoteCall
  import opened CopyCount
  import T = DispatchTheory

  /** What link and device do on their own. */
  datatype Event = LosesRequest(i: nat) | LosesReply(i: nat) | Delivers(outcome: Outcome)

  predicate Happens(l: Link, e: Event)
  {
    match e
    case LosesRequest(i) => i < |l.toDevice|
    case LosesReply(i) => i < |l.toHost|
    case Delivers(o) => l.toDevice != [] && l.toDevice[0] < |l.requests| && T.Shaped(l.device) && Possible(o, l.device)
  }

  function Happen(h: Hash, l: Link, e: Event): Link
    requires Happens(l, e)
  {
    match e
    case LosesRequest(i) => LoseRequest(l, i)
    case LosesReply(i) => LoseReply(l, i)
    case Delivers(o) => Deliver(h, l, o)
  }

  /** The link some steps later, with no request issued and none completed. */
  predicate Waited(h: Hash, a: Link, b: Link)
  {
    Inv(h, b) && Grew(a, b) && b.requests == a.requests && b.floor == a.floor
  }

  /** The link after the host accepted the reply of record `k` to its current request. */
  predicate Received(h: Hash, a: Link, b: Link, k: nat)
  {
    && Inv(h, b) && Grew(a, b) && b.requests == a.requests && b.floor == |a.requests| - 1
    && k < |b.log| && forall j | k <= j < |b.log| :: b.log[j].id == |a.requests| - 1
  }

  lemma HappenWaits(h: Hash, l: Link, e: Event)
    requires Inv(h, l) && Happens(l, e)
    ensures Waited(h, l, Happen(h, l, e))
  {
    hide Inv, T.Shaped;
    match e {
      case LosesRequest(i) => LoseRequestKeepsInv(h, l, i);
      case LosesReply(i) => LoseReplyKeepsInv(h, l, i);
      case Delivers(o) => DeliverWaits(h, l, o);
    }
  }

  lemma HappenCopies(h: Hash, l: Link, e: Event)
    requires Happens(l, e)
    ensures Outstanding(Happen(h, l, e)) <= Outstanding(l)
  {
    hide HandledCopies, Count, T.Shaped, Handle, Possible;
    if l.requests != [] {
      match e {
        case LosesRequest(i) => CountWithout(l.toDevice, i, Current(l));
        case LosesReply(_) =>
        case Delivers(o) => DeliverCopies(h, l, o, Current(l));
      }
    }
  }

  lemma SameCopies(a: Link, b: Link)
    requires b.requests == a.requests && b.log == a.log && b.toDevice == a.toDevice
    ensures Outstanding(b) == Outstanding(a)
  {
    hide HandledCopies, Count;
  }

  lemma DeliverWaits(h: Hash, l: Link, o: Outcome)
    requires Inv(h, l) && l.toDevice != [] && l.toDevice[0] < |l.requests| && T.Shaped(l.device)
    requires Possible(o, l.device)
    ensures Waited(h, l, Deliver(h, l, o))
  {
    hide Ordered, Numbered, Recorded, T.Shaped, Handle, Possible;
    DeliverKeepsInv(h, l, o);
    DeliverGrows(h, l, o);
    hide Grew;
  }

  lemma WaitedAgain(h: Hash, a: Link, b: Link, c: Link)
    requires Waited(h, a, b) && Waited(h, b, c)
    ensures Waited(h, a, c)
  {
    hide Inv, Grew;
    GrewTransitive(a, b, c);
  }

  lemma StillWaits(h: Hash, l: Link)
    requires Inv(h, l)
    ensures Waited(h, l, l)
  {
    FloorBelow(h, l);
    hide Inv;
  }

  lemma FloorBelow(h: Hash, l: Link)
    requires Inv(h, l)
    ensures Grew(l, l)
  {
  }

  lemma WaitedThenReceived(h: Hash, a: Link, b: Link, c: Link, k: nat)
    requires Waited(h, a, b) && Received(h, b, c, k)
    ensures Received(h, a, c, k)
  {
    hide Inv, Grew;
    GrewTransitive(a, b, c);
  }

  lemma ReceivedThenWaited(h: Hash, a: Link, b: Link, c: Link, k: nat)
    requires Received(h, a, b, k) && Waited(h, b, c) && c.log == b.log
    ensures Received(h, a, c, k)
  {
    hide Inv, Grew;
    GrewTransitive(a, b, c);
  }

  lemma TransmitWaits(h: Hash, l: Link)
    requires Inv(h, l) && l.requests != []
    ensures Waited(h, l, Transmit(l))
  {
    hide Inv;
    TransmitKeepsInv(h, l);
  }

  lemma CompleteReceives(h: Hash, l: Link)
    requires Inv(h, l) && l.toHost != [] && l.requests != []
    requires l.toHost[0] < |l.log| && l.log[l.toHost[0]].reply.sequence == l.requests[Current(l)].packet.sequence
    ensures Received(h, l, CompleteCall(l), l.toHost[0])
  {
    AcceptedIsCurrent(h, l);
    FloorIsOld(h, l);
    hide Inv;
  }

  lemma FloorIsOld(h: Hash, l: Link)
    requires Inv(h, l) && l.requests != []
    ensures l.floor <= Current(l)
  {
    hide Recorded, Numbered;
  }

  lemma HeadLogged(h: Hash, l: Link)
    requires Inv(h, l) && l.toHost != []
    ensures l.toHost[0] < |l.log|
  {
    hide Recorded, Numbered;
  }

  /** Replies have been taken from the link's front, the last one as the answer to the current request, or none. */
  predicate Taken(h: Hash, a: Link, b: Link, reply: Option<Packet>, k: nat)
  {
    && b.log == a.log && b.toDevice == a.toDevice
    && match reply
       case None => Waited(h, a, b)
       case Some(r) => Received(h, a, b, k) && b.log[k].reply == r
  }

  lemma NothingTaken(h: Hash, l: Link)
    requires Inv(h, l)
    ensures Taken(h, l, l, None, 0)
  {
    hide Inv, Grew;
    StillWaits(h, l);
  }

  /** While none was taken the call goes on as it was. */
  lemma TakenNone(h: Hash, a: Link, b: Link)
    requires Taken(h, a, b, None, 0)
    ensures Inv(h, b) && b.requests == a.requests && b.log == a.log
    ensures b.requests != [] ==> Current(b) == Current(a)
  {
    hide Inv, Grew;
  }

  lemma TakenNext(h: Hash, a: Link, b: Link, c: Link, reply: Option<Packet>, k: nat)
    requires Taken(h, a, b, None, 0) && Taken(h, b, c, reply, k)
    ensures Taken(h, a, c, reply, if reply.Some? then k else 0)
  {
    hide Inv, Grew, Waited, Received;
    match reply {
      case None => WaitedAgain(h, a, b, c);
      case Some(r) => ReceivedParts(h, b, c, k); WaitedThenReceived(h, a, b, c, k);
    }
  }

  lemma ReceivedParts(h: Hash, a: Link, b: Link, k: nat)
    requires Received(h, a, b, k)
    ensures k < |b.log|
  {
    hide Inv, Grew;
  }

  lemma TakenReceives(h: Hash, a: Link, b: Link, c: Link, reply: Option<Packet>, k: nat)
    requires Waited(h, a, b) && Taken(h, b, c, reply, k)
    ensures Outstanding(c) == Outstanding(b)
    ensures match reply
      case None => Waited(h, a, c)
      case Some(r) => Received(h, a, c, k) && k < |c.log| && c.log[k].reply == r
  {
    hide Inv, Grew, Outstanding;
    match reply {
      case None =>
        WaitedAgain(h, a, b, c);
      case Some(r) =>
        ReceivedParts(h, b, c, k);
        WaitedThenReceived(h, a, b, c, k);
    }
    SameRequests(h, b, c, reply, k);
    SameCopies(b, c);
  }

  lemma SameRequests(h: Hash, a: Link, b: Link, reply: Option<Packet>, k: nat)
    requires Taken(h, a, b, reply, k)
    ensures b.requests == a.requests
  {
    hide Inv, Grew;
  }

  // ---- Which reply is taken ----

  /** The `i`th reply on its way to the host carries this sequence number. */
  predicate Carries(l: Link, i: nat, sequence: uint16)
  {
    i < |l.toHost| && l.toHost[i] < |l.log| && l.log[l.toHost[i]].reply.sequence == sequence
  }

  /** The first reply that carries the number. */
  predicate FirstCarrier(l: Link, i: nat, sequence: uint16)
  {
    Carries(l, i, sequence) && forall j | 0 <= j < i :: !Carries(l, j, sequence)
  }

  /** What is left behind the first `n`, if there are so many. */
  function Beyond(queue: seq<nat>, n: nat): seq<nat> { if n < |queue| then queue[n..] else [] }

  /**
   * The next `arrived` replies are gone, and the first of them with the number has
   * been taken; or none of them has it.
   */
  predicate Sifted(l: Link, m: Link, sequence: uint16, arrived: nat, reply: Option<Packet>, k: nat)
  {
    && m.toHost == Beyond(l.toHost, arrived)
    && (reply.None? ==> forall i | 0 <= i < arrived :: !Carries(l, i, sequence))
    && (reply.Some? ==> exists i | 0 <= i < arrived :: FirstCarrier(l, i, sequence) && l.toHost[i] == k)
  }

  /** The first `n` replies on their way have been dropped, and nothing else happened. */
  predicate Skipped(h: Hash, l: Link, m: Link, n: nat)
  {
    && Waited(h, l, m) && m.log == l.log && m.toDevice == l.toDevice && m.device == l.device
    && n <= |l.toHost| && m.toHost == l.toHost[n..]
  }

  lemma SkipNone(h: Hash, l: Link)
    requires Inv(h, l)
    ensures Skipped(h, l, l, 0)
  {
    hide Inv, Grew;
    StillWaits(h, l);
  }

  lemma SkipOne(h: Hash, l: Link, m: Link, n: nat)
    requires Skipped(h, l, m, n) && m.toHost != []
    ensures Skipped(h, l, LoseReply(m, 0), n + 1)
  {
    hide Inv, Grew;
    HappenWaits(h, m, LosesReply(0));
    WaitedAgain(h, l, m, LoseReply(m, 0));
  }

  lemma SkippedParts(h: Hash, l: Link, m: Link, n: nat)
    requires Skipped(h, l, m, n)
    ensures Inv(h, m) && Waited(h, l, m) && m.log == l.log && m.toDevice == l.toDevice && m.device == l.device
    ensures n <= |l.toHost| && m.toHost == l.toHost[n..] && |m.toHost| == |l.toHost| - n
  {
    hide Inv, Grew;
  }

  lemma SiftedOut(l: Link, m: Link, sequence: uint16, arrived: nat, n: nat)
    requires n <= arrived && n <= |l.toHost| && m.toHost == l.toHost[n..] && (n == arrived || n == |l.toHost|)
    requires forall i | 0 <= i < n :: !Carries(l, i, sequence)
    ensures Sifted(l, m, sequence, arrived, None, 0)
  {
  }

  lemma SiftedFound(l: Link, b: Link, m: Link, sequence: uint16, arrived: nat, i: nat, reply: Packet)
    requires i < arrived && i < |l.toHost| && forall j | 0 <= j < i :: !Carries(l, j, sequence)
    requires b.toHost == l.toHost[i..] && Carries(l, i, sequence)
    requires m.toHost == Beyond(b.toHost, arrived - i)
    ensures Sifted(l, m, sequence, arrived, Some(reply), l.toHost[i])
  {
    hide Carries;
    assert FirstCarrier(l, i, sequence);
  }

  lemma NextCarries(l: Link, b: Link, i: nat, sequence: uint16)
    requires i < |l.toHost| && b.toHost == l.toHost[i..] && b.log == l.log
    ensures Carries(b, 0, sequence) <==> Carries(l, i, sequence)
  {
  }

  // ---- Calm surroundings ----

  /** The oldest copy has been handled, and the platform granted what it was asked. */
  predicate HandledNext(h: Hash, g: Platform, l: Link, m: Link)
  {
    && l.toDevice != [] && l.toDevice[0] < |l.requests| && T.Shaped(l.device) && |m.log| == |l.log| + 1
    && var o := m.log[|l.log|].outcome; Possible(o, l.device) && Grants(g, o) && m == Deliver(h, l, o)
  }

  /** What the host has heard since: the reply of record `k` to its current request, or nothing. */
  predicate Heard(h: Hash, l: Link, m: Link, reply: Option<Packet>, k: nat)
  {
    match reply
    case None => Waited(h, l, m)
    case Some(r) => Received(h, l, m, k) && k < |m.log| && m.log[k].reply == r
  }

  /** One copy was sent and handled, the platform granted what it was asked, and the reply is the host's. */
  predicate Smooth(h: Hash, g: Platform, l: Link, m: Link, p: Packet)
  {
    && T.Shaped(l.device) && |m.log| == |l.log| + 1 && Idle(m)
    && var x := m.log[|l.log|];
       Possible(x.outcome, l.device) && Grants(g, x.outcome) &&
       Handle(h, l.device, p, x.outcome) == Handled(m.device, x.reply)
  }

  predicate HeardSmoothly(h: Hash, g: Platform, l: Link, m: Link, reply: Option<Packet>, k: nat)
  {
    l.requests != [] && reply.Some? && k == |l.log| && Smooth(h, g, l, m, l.requests[Current(l)].packet)
  }

  class SerialTransport {
    const hash: Hash
    /** What the surroundings can be relied on for: nothing, or no losses, enough time and a platform that grants. */
    const calm: Option<Platform>
    var link: Link
    /** The packets written to the port, in order. */
    ghost var written: seq<Packet>

    constructor (h: Hash, g: Option<Platform>, d: Device)
      requires T.Shaped(d)
      ensures hash == h && calm == g && link == LossyLink.Unused(d) && Inv(hash, link) && written == []
    {
      hash, calm := h, g;
      link := LossyLink.Unused(d);
      written := [];
    }

    /** What a granting platform answers, beside that anything. */
    method Granted(g: Platform) returns (o: Outcome)
      ensures Possible(o, link.device) && Grants(g, o)
    {
      var handle := UnusedHandle(link.device.ota.flash.writers.Keys + link.device.ota.flash.retired);
      var slot: nat := *;
      o := *;
      o := o.(partition := Some(Partition(slot, g.room)), beginOk := true, handle := handle, writeOk := true,
              endOk := true, abortOk := true, sha := Some(g.digest), bootOk := true,
              nonce := if |o.nonce| == 16 then o.nonce else ZeroBytes(16),
              info := if |o.info| <= 1024 then o.info else []);
      assert handle !in link.device.ota.flash.writers;
    }

    /** Time passes: copies and replies are lost or delivered as they may; if it is calm the next is delivered. */
    method Wander()
      requires Inv(hash, link)
      modifies this`link
      ensures Waited(hash, old(link), link) && Outstanding(link) <= Outstanding(old(link))
      ensures calm.Some? && old(link).toDevice != [] ==> HandledNext(hash, calm.value, old(link), link)
    {
      hide Inv, Happen, Happens, Grew, Outstanding, HandledNext;
      StillWaits(hash, link);
      if calm.Some? {
        if link.toDevice != [] { DeliverNext(calm.value); }
        return;
      }
      var events: nat := *;
      while events > 0
        invariant Waited(hash, old(link), link) && Outstanding(link) <= Outstanding(old(link))
      {
        var e: Event := *;
        if Happens(link, e) {
          HappenWaits(hash, link, e);
          HappenCopies(hash, link, e);
          WaitedAgain(hash, old(link), link, Happen(hash, link, e));
          link := Happen(hash, link, e);
        }
        events := events - 1;
      }
    }

    /** The device handles the oldest copy, and the platform grants what it is asked. */
    method DeliverNext(g: Platform)
      requires Inv(hash, link) && link.toDevice != []
      modifies this`link
      ensures Waited(hash, old(link), link) && Outstanding(link) <= Outstanding(old(link))
      ensures HandledNext(hash, g, old(link), link)
    {
      hide Inv, Grew, Outstanding, Handle, T.Shaped, Possible, Waited, Grants;
      var o := Granted(g);
      QueueHead(hash, link);
      HappenWaits(hash, link, Delivers(o));
      HappenCopies(hash, link, Delivers(o));
      link := Deliver(hash, link, o);
    }

    /** Drops what else the accepted packet's chunk contained. */
    method Discard(count: nat)
      requires Inv(hash, link)
      modifies this`link
      ensures Waited(hash, old(link), link) && link.log == old(link.log) && link.toDevice == old(link.toDevice)
      ensures link.toHost == Beyond(old(link).toHost, count) && link.device == old(link).device
    {
      hide Inv, Waited, Skipped;
      var n: nat := 0;
      SkipNone(hash, link);
      SkippedParts(hash, link, link, 0);
      while n < count && link.toHost != []
        invariant n <= count && Skipped(hash, old(link), link, n) && (link.toHost == [] <==> n == |old(link).toHost|)
      {
        SkipOne(hash, old(link), link, n);
        link := LoseReply(link, 0);
        n := n + 1;
        SkippedParts(hash, old(link), link, n);
      }
      SkippedParts(hash, old(link), link, n);
    }

    /** The reply in front is accepted, and what else its chunk contained is dropped. */
    method Accept(count: nat) returns (reply: Packet, ghost k: nat)
      requires Inv(hash, link) && link.requests != [] && link.toHost != [] && link.toHost[0] < |link.log|
      requires link.log[link.toHost[0]].reply.sequence == link.requests[Current(link)].packet.sequence
      modifies this`link
      ensures Taken(hash, old(link), link, Some(reply), k) && k == old(link).toHost[0]
      ensures link.toHost == Beyond(old(link).toHost, 1 + count)
    {
      hide Inv, Grew;
      k := link.toHost[0];
      reply := link.log[link.toHost[0]].reply;
      CompleteReceives(hash, link);
      link := CompleteCall(link);
      ghost var accepted := link;
      Discard(count);
      ReceivedThenWaited(hash, old(link), accepted, link, k);
    }

    /** The reply in front does not carry the sequence number and is dropped. */
    method Drop()
      requires Inv(hash, link) && link.toHost != []
      modifies this`link
      ensures Taken(hash, old(link), link, None, 0) && link.toHost == Beyond(old(link).toHost, 1)
    {
      hide Inv, Grew;
      HappenWaits(hash, link, LosesReply(0));
      link := LoseReply(link, 0);
    }

    /**
     * The next parsed packet, with `count` more behind it in its chunk: it is the
     * answer if and only if it carries the sequence number.
     */
    method Pop(sequence: uint16, count: nat) returns (reply: Option<Packet>, ghost k: nat)
      requires Inv(hash, link) && link.requests != [] && link.requests[Current(link)].packet.sequence == sequence
      requires link.toHost != []
      modifies this`link
      ensures Taken(hash, old(link), link, reply, k)
      ensures reply.Some? <==> Carries(old(link), 0, sequence)
      ensures reply.Some? ==> k == old(link).toHost[0]
      ensures link.toHost == Beyond(old(link).toHost, if reply.Some? then 1 + count else 1)
    {
      hide Inv, Taken, Current;
      HeadLogged(hash, link);
      if link.log[link.toHost[0]].reply.sequence == sequence {
        var accepted: Packet;
        accepted, k := Accept(count);
        reply := Some(accepted);
      } else {
        Drop();
        reply, k := None, 0;
      }
    }

    /** The next chunk is fed to the parser: of its packets the first with the sequence number is the answer. */
    method Read(sequence: uint16, arrived: nat) returns (reply: Option<Packet>, ghost k: nat)
      requires Inv(hash, link) && link.requests != [] && link.requests[Current(link)].packet.sequence == sequence
      modifies this`link
      ensures Taken(hash, old(link), link, reply, k)
      ensures Sifted(old(link), link, sequence, arrived, reply, k)
    {
      hide Inv, Taken, Current, Sifted, Carries;
      NothingTaken(hash, link);
      reply, k := None, 0;
      var i: nat := 0;
      while i < arrived && link.toHost != []
        invariant reply.None? && k == 0 && i <= arrived && Taken(hash, old(link), link, None, 0)
        invariant i <= |old(link).toHost| && link.toHost == old(link).toHost[i..]
        invariant forall j | 0 <= j < i :: !Carries(old(link), j, sequence)
        decreases arrived - i
      {
        ghost var before := link;
        TakenNone(hash, old(link), link);
        NextCarries(old(link), link, i, sequence);
        reply, k := Pop(sequence, arrived - i - 1);
        TakenNext(hash, old(link), before, link, reply, k);
        if reply.Some? {
          SiftedFound(old(link), before, link, sequence, arrived, i, reply.value);
          return;
        }
        k := 0;
        i := i + 1;
      }
      SiftedOut(old(link), link, sequence, arrived, i);
    }

    /** One turn of the loop of `request`: time passes, and what has arrived is read up to the answer. */
    method Turn(sequence: uint16) returns (reply: Option<Packet>, ghost k: nat)
      requires Inv(hash, link) && link.requests != [] && link.requests[Current(link)].packet.sequence == sequence
      modifies this`link
      ensures Heard(hash, old(link), link, reply, k)
      ensures Outstanding(link) <= Outstanding(old(link))
      ensures calm.Some? && OneSent(old(link)) ==> HeardSmoothly(hash, calm.value, old(link), link, reply, k)
    {
      hide Inv, Grew, Outstanding, Smooth, HandledNext, Sifted, Taken, Waited, Received, OneSent;
      Wander();
      ghost var before := link;
      WaitedParts(hash, old(link), before);
      var arrived: nat := *;
      if calm.Some? && arrived < |link.toHost| { arrived := |link.toHost|; }
      reply, k := Read(sequence, arrived);
      TakenReceives(hash, old(link), before, link, reply, k);
      if calm.Some? && OneSent(old(link)) {
        FirstIsTaken(hash, calm.value, old(link), before, link, arrived, reply, k);
      }
    }

    /** One copy is written; what arrives until the time is up is read, up to the answer. */
    method Request(sequence: uint16) returns (reply: Option<Packet>, ghost k: nat)
      requires Inv(hash, link) && link.requests != [] && link.requests[Current(link)].packet.sequence == sequence
      modifies this
      ensures Heard(hash, old(link), link, reply, k)
      ensures Outstanding(link) <= Outstanding(old(link)) + 1
      ensures written == old(written) + [old(link).requests[Current(old(link))].packet]
      ensures calm.Some? && Idle(old(link)) ==> HeardSmoothly(hash, calm.value, old(link), link, reply, k)
    {
      hide Inv, Outstanding, Waited, Heard, HeardSmoothly, Idle, OneSent;
      TransmitWaits(hash, link);
      TransmitOutstanding(link);
      SentOne(hash, link);
      written := written + [link.requests[Current(link)].packet];
      link := Transmit(link);
      ghost var sent := link;
      reply, k := None, 0;
      NothingHeard(hash, old(link), link, k);
      var patience: nat := *;
      if calm.Some? && patience < 1 { patience := 1; }
      while patience > 0
        modifies `link
        invariant reply.None? && Waited(hash, old(link), link) && Heard(hash, old(link), link, reply, k)
        invariant Outstanding(link) <= Outstanding(old(link)) + 1
        invariant calm.Some? && Idle(old(link)) ==> patience > 0 && link == sent
      {
        patience := patience - 1;
        ghost var before := link;
        WaitedParts(hash, old(link), before);
        reply, k := Turn(sequence);
        HeardLater(hash, old(link), before, link, reply, k);
        if calm.Some? && Idle(old(link)) { SmoothSent(hash, calm.value, old(link), link, reply, k); }
        if reply.Some? {
          return;
        }
      }
    }

    /** The loop of `_request_packet`: the same bytes again after every timeout. */
    method Retry(sequence: uint16, retries: nat) returns (reply: Option<Packet>, ghost k: nat)
      requires Inv(hash, link) && link.requests != [] && link.requests[Current(link)].packet.sequence == sequence
      modifies this
      ensures Heard(hash, old(link), link, reply, k)
      ensures Outstanding(link) <= Outstanding(old(link)) + retries
      ensures WrittenOver(old(written), written, old(link).requests[Current(old(link))].packet, retries, reply.Some?)
      ensures calm.Some? && Idle(old(link)) && retries > 0 ==>
        HeardSmoothly(hash, calm.value, old(link), link, reply, k)
    {
      hide Inv, Outstanding, Waited, Heard, HeardSmoothly, Idle;
      StillWaits(hash, link);
      reply, k := None, 0;
      NothingHeard(hash, link, link, k);
      ghost var p := link.requests[Current(link)].packet;
      for attempt := 0 to retries
        invariant reply.None? && Waited(hash, old(link), link) && Heard(hash, old(link), link, reply, k)
        invariant Outstanding(link) <= Outstanding(old(link)) + attempt
        invariant written == old(written) + Again(p, attempt)
        invariant calm.Some? && Idle(old(link)) ==> attempt == 0 && link == old(link)
      {
        ghost var before := link;
        WaitedParts(hash, old(link), before);
        reply, k := Request(sequence);
        HeardLater(hash, old(link), before, link, reply, k);
        assert Again(p, attempt) + [p] == Again(p, attempt + 1);
        if calm.Some? && Idle(old(link)) { SmoothIsSome(hash, calm.value, old(link), link, reply, k); }
        if reply.Some? {
          return;
        }
      }
    }
  }

  method UnusedHandle(used: set<nat>) returns (handle: nat)
    ensures handle !in used
  {
    handle := 0;
    var rest := used;
    while rest != {}
      invariant rest <= used && forall n | n in used && n !in rest :: n < handle
      decreases |rest|
    {
      var n :| n in rest;
      if handle <= n { handle := n + 1; }
      rest := rest - {n};
    }
  }

  function Again(p: Packet, times: nat): seq<Packet> { seq(times, _ => p) }

  /** The packet has been written again and again: as often as allowed if it was never answered. */
  predicate WrittenOver(before: seq<Packet>, after: seq<Packet>, p: Packet, retries: nat, answered: bool)
  {
    exists n | 0 <= n <= retries :: after == before + Again(p, n) && (answered || n == retries)
  }

  lemma QueueHead(h: Hash, l: Link)
    requires Inv(h, l) && l.toDevice != []
    ensures l.toDevice[0] < |l.requests| && T.Shaped(l.device)
  {
    hide Numbered;
  }

  /** The current request is all that is in flight. */
  predicate OneSent(l: Link) { l.requests != [] && l.toDevice == [Current(l)] && l.toHost == [] }

  lemma SentOne(h: Hash, l: Link)
    requires Inv(h, l) && l.requests != []
    ensures Idle(l) ==> OneSent(Transmit(l))
  {
    hide Inv;
  }

  lemma TransmitOutstanding(l: Link)
    requires l.requests != []
    ensures Outstanding(Transmit(l)) == Outstanding(l) + 1
  {
    hide Copies;
    TransmitCopies(l, Current(l));
  }

  lemma WaitedParts(h: Hash, l: Link, m: Link)
    requires Waited(h, l, m)
    ensures Inv(h, m) && m.requests == l.requests
  {
    hide Inv, Grew;
  }

  lemma SmoothSent(h: Hash, g: Platform, l: Link, m: Link, reply: Option<Packet>, k: nat)
    requires l.requests != [] && HeardSmoothly(h, g, Transmit(l), m, reply, k)
    ensures HeardSmoothly(h, g, l, m, reply, k) && reply.Some?
  {
    hide Handle, Grants, Possible;
  }

  lemma SmoothIsSome(h: Hash, g: Platform, l: Link, m: Link, reply: Option<Packet>, k: nat)
    requires HeardSmoothly(h, g, l, m, reply, k)
    ensures reply.Some?
  {
    hide Smooth;
  }

  lemma NothingHeard(h: Hash, l: Link, m: Link, k: nat)
    requires Waited(h, l, m)
    ensures Heard(h, l, m, None, k)
  {
    hide Waited;
  }

  lemma HeardLater(h: Hash, a: Link, b: Link, c: Link, reply: Option<Packet>, k: nat)
    requires Waited(h, a, b) && Heard(h, b, c, reply, k)
    ensures Heard(h, a, c, reply, k)
    ensures reply.None? ==> Waited(h, a, c)
  {
    hide Waited, Received;
    if reply.Some? { WaitedThenReceived(h, a, b, c, k); } else { WaitedAgain(h, a, b, c); }
  }

  /** In calm surroundings the first thing that arrives is the reply to the one copy sent. */
  lemma FirstIsTaken(
    h: Hash, g: Platform, l: Link, b: Link, m: Link, arrived: nat, reply: Option<Packet>, k: nat)
    requires OneSent(l) && (l.toDevice != [] ==> HandledNext(h, g, l, b)) && |b.toHost| <= arrived
    requires Taken(h, b, m, reply, k)
    requires Sifted(b, m, l.requests[Current(l)].packet.sequence, arrived, reply, k)
    ensures HeardSmoothly(h, g, l, m, reply, k)
  {
    hide Inv, Grew, Handle, Possible, Grants, Taken, Waited, Received, RingShape, Current;
    var p := l.requests[Current(l)].packet;
    EchoesSequence(h, l.device, p, b.log[|l.log|].outcome);
    OneReply(h, l, b, p);
    TakenLog(h, b, m, reply, k);
  }

  lemma OneReply(h: Hash, l: Link, b: Link, p: Packet)
    requires l.toHost == [] && |b.log| == |l.log| + 1
    requires b.toHost == l.toHost + [|l.log|] && b.log[|l.log|].reply.sequence == p.sequence
    ensures Carries(b, 0, p.sequence) && |b.toHost| == 1 && b.toHost[0] == |l.log|
  {
  }

  lemma TakenLog(h: Hash, a: Link, b: Link, reply: Option<Packet>, k: nat)
    requires Taken(h, a, b, reply, k)
    ensures b.log == a.log && b.toDevice == a.toDevice && b.device == a.device
  {
    hide Inv;
  }
}
