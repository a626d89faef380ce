/** Tagging, framing, parsing and unwrapping undo each other, in both directions. */
module SealedFrames {
  import opened Bytes
  import Codes
  import opened Esp
  import opened Frame
  import opened HmacSha
  import opened Sealing
  import opened DeviceMachine
  import opened Payloads
  import CallTheory
  import opened FramedStream
  import P = DeviceParser
  import HP = HostParser
  import S = SessionTheory

  /** The device accepts just what was sealed with its session key, and takes from it just what was sealed. */
  lemma UnwrapExactly(h: Hash, a: Auth, p: Packet, payload: seq<byte>)
    requires a.required && a.authenticated && Codes.IsProtected(p.command)
    ensures Unwrap(h, a, p) == Unwrapped.Payload(payload) <==>
      p.payload == payload + RequestTag(h, a.sessionKey, p.command, p.sequence, payload)
  {
    hide RequestTag;
    if |p.payload| >= TAG_SIZE { PartsTagged(p.payload); }
    TaggedParts(payload, RequestTag(h, a.sessionKey, p.command, p.sequence, payload));
  }

  /** The host accepts just what was signed with its session key for this very request. */
  lemma VerifiedExactly(h: Hash, sessionKey: seq<byte>, command: byte, sequence: uint16, p: Packet, q: Packet)
    ensures Verified(h, sessionKey, command, sequence, p) == Some(q) <==>
      p == q.(payload := q.payload + ResponseTag(h, sessionKey, command, q.command, sequence, q.payload))
  {
    hide ResponseTag;
    if |p.payload| >= TAG_SIZE { PartsTagged(p.payload); }
    TaggedParts(q.payload, ResponseTag(h, sessionKey, command, q.command, sequence, q.payload));
  }

  /** A sealed request sent through noise reaches the command handler with its own payload. */
  lemma RequestRoundTrip(
    h: Hash, a: Auth, command: byte, sequence: uint16, payload: seq<byte>, noise: seq<byte>, tail: seq<byte>)
    requires a.required && a.authenticated && Codes.IsProtected(command) && |payload| + TAG_SIZE <= MAX_PAYLOAD
    requires Noise(noise) && Noise(tail)
    ensures var tag := RequestTag(h, a.sessionKey, command, sequence, payload);
      var p := CallTheory.Sealed(command, sequence, payload, tag);
      && P.Run([], noise + Encode(p) + tail).packets == [p]
      && Unwrap(h, a, p) == Unwrapped.Payload(payload)
  {
    hide RequestTag, HP.FindMagic, Encode, P.Run;
    var p := CallTheory.Sealed(command, sequence, payload, RequestTag(h, a.sessionKey, command, sequence, payload));
    UnwrapExactly(h, a, p, payload);
    OneFrame(p, noise, tail);
    DeviceDecodesStream([Item(noise, p)], tail);
  }

  lemma OneFrame(p: Packet, noise: seq<byte>, tail: seq<byte>)
    requires Noise(noise) && Sendable(p)
    ensures Legal([Item(noise, p)]) && Stream([Item(noise, p)], tail) == noise + Encode(p) + tail
    ensures Packets([Item(noise, p)]) == [p]
  {
    hide HP.FindMagic, Encode;
    assert [Item(noise, p)][1..] == [];
  }

  /** A signed response sent through noise reaches the caller as the device meant it. */
  lemma ResponseRoundTrip(
    h: Hash, a: Auth, p: Packet, command: byte, payload: seq<byte>, noise: seq<byte>, tail: seq<byte>)
    requires RingShape(a) && S.SessionOn(a, p) && |payload| + TAG_SIZE <= MAX_PAYLOAD && Noise(noise) && Noise(tail)
    ensures var r := Respond(h, a, p, command, payload).reply;
      && Sendable(r) && HP.Scan(noise + Encode(r) + tail).packets == [r]
      && Verified(h, a.sessionKey, p.command, p.sequence, r) == Some(Reply(p, command, payload))
  {
    hide ResponseTag, RequestDigest, HP.FindMagic, Encode, HP.Scan;
    var r := Respond(h, a, p, command, payload).reply;
    VerifiedExactly(h, a.sessionKey, p.command, p.sequence, r, Reply(p, command, payload));
    OneFrame(r, noise, tail);
    HostDecodesStream([Item(noise, r)], tail);
  }
}
