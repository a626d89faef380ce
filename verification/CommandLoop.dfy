/** The firmware's command loop: bytes in, packets to the dispatcher, one reply each. */
module CommandLoop {
  import opened Bytes
  import opened Esp
  import opened Frame
  import opened HmacSha
  import opened AuthSession
  import opened Dispatcher
  import P = DeviceParser
  import D = DeviceMachine
  import T = DispatchTheory
  import LossyLink

  function PacketsOf(arrivals: seq<T.Arrival>): seq<Packet>
  {
    if arrivals == [] then [] else PacketsOf(arrivals[..|arrivals| - 1]) + [arrivals[|arrivals| - 1].packet]
  }

  lemma PacketsPush(arrivals: seq<T.Arrival>, x: T.Arrival)
    ensures PacketsOf(arrivals + [x]) == PacketsOf(arrivals) + [x.packet]
  {
    assert (arrivals + [x])[..|arrivals|] == arrivals;
  }

  lemma {:induction false} RunPush(h: Hash, d: D.Device, arrivals: seq<T.Arrival>, x: T.Arrival)
    requires T.Shaped(d)
    ensures T.Run(h, d, arrivals + [x]) == D.Handle(h, T.Run(h, d, arrivals), x.packet, x.outcome).device
    decreases |arrivals|
  {
    hide D.Handle, D.RingShape;
    if arrivals == [] {
      assert ([] + [x])[0] == x && ([] + [x])[1..] == [];
      T.HandleKeepsShape(h, d, x.packet, x.outcome);
    } else {
      var a := arrivals[0];
      T.HandleKeepsShape(h, d, a.packet, a.outcome);
      assert (arrivals + [x])[0] == a && (arrivals + [x])[1..] == arrivals[1..] + [x];
      RunPush(h, D.Handle(h, d, a.packet, a.outcome).device, arrivals[1..], x);
    }
  }

  lemma RunByte(buffer: seq<byte>, bytes: seq<byte>, i: nat)
    requires P.Partial(buffer) && i < |bytes|
    ensures var before := P.Run(buffer, bytes[..i]); var fed := P.Step(before.buffer, bytes[i]);
      P.Run(buffer, bytes[..i + 1]) == P.Fed(fed.buffer, before.packets + fed.packets)
  {
    hide P.Step, P.Partial;
    assert bytes[..i + 1] == bytes[..i] + [bytes[i]];
    P.RunConcat(buffer, bytes[..i], [bytes[i]]);
    assert [bytes[i]][1..] == [];
    OneByte(P.Run(buffer, bytes[..i]).buffer, bytes[i]);
  }

  lemma OneByte(buffer: seq<byte>, b: byte)
    requires P.Partial(buffer)
    ensures P.Run(buffer, [b]) == P.Step(buffer, b)
  {
    hide P.Step, P.Partial;
    assert [b][1..] == [];
  }

  lemma StepIsSendable(buffer: seq<byte>, b: byte)
    requires P.Partial(buffer)
    ensures forall p | p in P.Step(buffer, b).packets :: Sendable(p)
  {
    hide P.Partial;
  }

  /** Since `before`, one packet was sent for each arrival, under its sequence number. */
  predicate Echoed(before: seq<Packet>, sent: seq<Packet>, arrivals: seq<T.Arrival>)
  {
    && |sent| == |before| + |arrivals|
    && forall i | 0 <= i < |arrivals| :: sent[|before| + i].sequence == arrivals[i].packet.sequence
  }

  lemma EchoedPush(
    h: Hash, before: seq<Packet>, sent: seq<Packet>, arrivals: seq<T.Arrival>, d: D.Device, x: T.Arrival)
    requires T.Shaped(d) && Echoed(before, sent, arrivals)
    ensures Echoed(before, sent + [D.Handle(h, d, x.packet, x.outcome).reply], arrivals + [x])
  {
    hide D.Handle;
    LossyLink.EchoesSequence(h, d, x.packet, x.outcome);
  }

  lemma LoopStart(h: Hash, d: D.Device, buffer: seq<byte>, bytes: seq<byte>)
    requires P.Partial(buffer) && D.RingShape(d.auth)
    ensures T.Shaped(d) && T.Run(h, d, []) == d
    ensures P.Run(buffer, bytes[..0]) == P.Fed(buffer, PacketsOf([]))
  {
    hide P.Partial;
  }

  lemma LoopStep(
    h: Hash, d: D.Device, buffer: seq<byte>, bytes: seq<byte>, i: nat, arrivals: seq<T.Arrival>,
    arrived: seq<T.Arrival>, o: Outcome)
    requires P.Partial(buffer) && T.Shaped(d) && i < |bytes|
    requires P.Run(buffer, bytes[..i]).packets == PacketsOf(arrivals)
    requires var fed := P.Step(P.Run(buffer, bytes[..i]).buffer, bytes[i]);
      arrived == if fed.packets == [] then [] else [T.Arrival(fed.packets[0], o)]
    ensures P.Run(buffer, bytes[..i + 1]) ==
      P.Fed(P.Step(P.Run(buffer, bytes[..i]).buffer, bytes[i]).buffer, PacketsOf(arrivals + arrived))
    ensures T.Run(h, d, arrivals + arrived) ==
      if arrived == [] then T.Run(h, d, arrivals) else D.Handle(h, T.Run(h, d, arrivals), arrived[0].packet, o).device
  {
    hide P.Partial, P.Step, P.Run, PacketsOf, T.Run, D.Handle;
    RunByte(buffer, bytes, i);
    if arrived == [] {
      assert arrivals + [] == arrivals;
    } else {
      PacketsPush(arrivals, arrived[0]);
      RunPush(h, d, arrivals, arrived[0]);
    }
  }

  class Loop {
    const parser: P.Parser
    const commands: Commands

    ghost predicate Valid()
      reads this, parser, parser.buffer, commands, commands.auth, commands.ota
    {
      parser.Valid() && commands.Valid() && parser.buffer != commands.ota.lastChunkData
    }

    constructor (p: P.Parser, c: Commands)
      requires p.Valid() && c.Valid() && p.buffer != c.ota.lastChunkData
      ensures Valid() && parser == p && commands == c
    {
      parser, commands := p, c;
    }

    /** One turn of the loop: a byte that completes a packet hands it to the dispatcher. */
    method FeedByte(b: byte, o: Outcome) returns (ghost arrived: seq<T.Arrival>)
      requires Valid() && |o.nonce| == 16
      modifies parser, parser.buffer, commands, commands.auth, commands.auth.replayCache
      modifies commands.ota, commands.ota.lastChunkData, commands.uart
      ensures Valid() && T.Shaped(old(commands.Device()))
      ensures var fed := P.Step(old(parser.Contents()), b);
        && parser.Contents() == fed.buffer
        && arrived == (if fed.packets == [] then [] else [T.Arrival(fed.packets[0], o)])
      ensures if arrived == []
        then commands.Device() == old(commands.Device()) && commands.uart.sent == old(commands.uart.sent)
        else commands.Answered(D.Handle(commands.auth.hash, old(commands.Device()), arrived[0].packet, o),
                               old(commands.uart.sent))
    {
      hide P.Step, P.Partial, D.Handle;
      commands.Shape();
      StepIsSendable(parser.Contents(), b);
      var complete, p := parser.Feed(b);
      arrived := [];
      if complete {
        assert p in P.Step(old(parser.Contents()), b).packets;
        commands.HandlePacket(p, o);
        arrived := [T.Arrival(p, o)];
      }
    }

    /**
     * Whatever bytes arrive, in whatever portions: the device is in the state after
     * the packets they contain, and has answered each of them once, in order, under
     * its own sequence number.
     */
    method Receive(bytes: seq<byte>, outcomes: seq<Outcome>) returns (ghost arrivals: seq<T.Arrival>)
      requires Valid() && |outcomes| == |bytes| && forall i | 0 <= i < |outcomes| :: |outcomes[i].nonce| == 16
      modifies parser, parser.buffer, commands, commands.auth, commands.auth.replayCache
      modifies commands.ota, commands.ota.lastChunkData, commands.uart
      ensures Valid() && T.Shaped(old(commands.Device()))
      ensures P.Run(old(parser.Contents()), bytes) == P.Fed(parser.Contents(), PacketsOf(arrivals))
      ensures commands.Device() == T.Run(commands.auth.hash, old(commands.Device()), arrivals)
      ensures |commands.uart.sent| == |old(commands.uart.sent)| + |arrivals|
      ensures forall i | 0 <= i < |arrivals| ::
        commands.uart.sent[|old(commands.uart.sent)| + i].sequence == arrivals[i].packet.sequence
    {
      hide P.Step, P.Partial, D.Handle, P.Run, PacketsOf, T.Run, T.Shaped;
      ghost var buffer, device, sent := parser.Contents(), commands.Device(), commands.uart.sent;
      LoopStart(commands.auth.hash, device, buffer, bytes);
      arrivals := [];
      for i := 0 to |bytes|
        invariant Valid()
        invariant P.Run(buffer, bytes[..i]) == P.Fed(parser.Contents(), PacketsOf(arrivals))
        invariant T.Shaped(device) && commands.Device() == T.Run(commands.auth.hash, device, arrivals)
        invariant Echoed(sent, commands.uart.sent, arrivals)
      {
        ghost var before := commands.uart.sent;
        var arrived := FeedByte(bytes[i], outcomes[i]);
        LoopStep(commands.auth.hash, device, buffer, bytes, i, arrivals, arrived, outcomes[i]);
        if arrived != [] {
          EchoedPush(commands.auth.hash, sent, before, arrivals, T.Run(commands.auth.hash, device, arrivals),
            arrived[0]);
        }
        arrivals := arrivals + arrived;
      }
      assert bytes[..|bytes|] == bytes;
    }
  }
}
