/** A request while it is under way: how far the client has come, and what it has sent since. */
module RequestMoments {
  import opened Bytes
  import opened Codes
  import opened Esp
  import opened Frame
  import opened HmacSha
  import opened Sealing
  import opened LossyLink
  import opened RemoteCall
  import opened CopyCount
  import opened CallTheory
  import opened HandshakeTheory
  import opened Payloads
  import opened RequestTrace

  // ---- The link a few packets later ----

  /** At most this one packet has been sent since, whatever became of it. */
  predicate OneMore(h: Hash, l: Link, m: Link, number: nat, p: Packet)
  {
    Inv(h, m) && Grew(l, m) && (m == l || m.requests == l.requests + [Request.Request(number, p)])
  }

  /** The client has used the numbers from `counter` to `later`. */
  predicate Advanced(h: Hash, l: Link, counter: nat, m: Link, later: nat)
  {
    && Inv(h, m) && Grew(l, m) && counter <= later
    && forall i | |l.requests| <= i < |m.requests| :: counter < m.requests[i].number <= later
  }

  lemma OneMoreAdvances(h: Hash, l: Link, counter: nat, m: Link, p: Packet)
    requires OneMore(h, l, m, counter + 1, p)
    ensures Advanced(h, l, counter, m, counter + 1)
  {
    hide Inv, Grew;
  }

  lemma NothingAdvances(h: Hash, l: Link, counter: nat)
    requires Inv(h, l)
    ensures Advanced(h, l, counter, l, counter)
  {
    GrewSelf(h, l);
    hide Inv;
  }

  lemma GrewSelf(h: Hash, l: Link)
    requires Inv(h, l)
    ensures Grew(l, l)
  {
  }

  lemma AdvancedFurther(h: Hash, a: Link, counter: nat, b: Link, later: nat, c: Link, latest: nat)
    requires Advanced(h, a, counter, b, later) && Advanced(h, b, later, c, latest)
    ensures Advanced(h, a, counter, c, latest)
  {
    hide Inv, Grew;
    GrewTransitive(a, b, c);
    RequestsKept(b, c);
    forall i | |a.requests| <= i < |c.requests|
      ensures counter < c.requests[i].number <= latest
    {
      assert i < |b.requests| ==> c.requests[i] == b.requests[i];
    }
  }

  lemma RequestsKept(l: Link, m: Link)
    requires Grew(l, m)
    ensures l.requests <= m.requests && l.floor <= m.floor
  {
  }

  /** The room in the number window shrinks by the numbers used, at most: so a caller can tell beforehand. */
  lemma WindowAfter(h: Hash, l: Link, counter: nat, m: Link, later: nat, room: nat)
    requires Advanced(h, l, counter, m, later) && NumbersUpTo(l, counter)
    requires WindowOpen(l, counter, later - counter + room) && later - counter + room < SEQUENCES
    ensures WindowOpen(m, later, room) && NumbersUpTo(m, later)
  {
    hide Inv, Grew;
    RequestsKept(l, m);
    if |l.requests| == |m.requests| { assert l.requests == m.requests; }
    if m.floor < |l.requests| {
      OlderNumber(h, m, l.floor, m.floor);
      assert m.requests[l.floor] == l.requests[l.floor];
    }
  }

  lemma OlderNumber(h: Hash, m: Link, i: nat, j: nat)
    requires Inv(h, m) && i <= j < |m.requests|
    ensures m.requests[i].number <= m.requests[j].number
  {
    hide Ordered, Recorded;
  }

  lemma OneMoreAuth(h: Hash, l: Link, m: Link, number: nat, p: Packet)
    requires OneMore(h, l, m, number, p) && IsAuth(p)
    ensures OnlyAuth(l, m)
  {
    hide Inv, Grew;
  }

  lemma OnlyAuthFurther(a: Link, b: Link, c: Link)
    requires OnlyAuth(a, b) && OnlyAuth(b, c)
    ensures OnlyAuth(a, c)
  {
    forall i | |a.requests| <= i < |c.requests|
      ensures IsAuth(c.requests[i].packet)
    {
      assert i < |b.requests| ==> c.requests[i] == b.requests[i];
    }
  }

  // ---- How far a protected request has come ----

  /** How far a protected request has come: before its first pass, or after a renewed handshake. */
  datatype Progress = Fresh(opening: Option<Shake>) | Renewed(opening: Option<Shake>, first: Pass, shake: Shake)

  predicate Underway(
    h: Hash, key: seq<byte>, retries: nat, s: Standing, command: byte, payload: seq<byte>, g: Progress, now: Standing)
  {
    && Opens(h, key, retries, s, g.opening)
    && var b := Opened(h, key, s, g.opening);
       match g
       case Fresh(_) => now == b
       case Renewed(_, first, shake) =>
         && SealedPass(h, retries, b, command, payload, first) && DecideOn(h, b, command, first, false) == Renew
         && Opens(h, key, retries, Dropped(first), Some(shake)) && now == Opened(h, key, Dropped(first), Some(shake))
  }

  /** The trace of a request whose last pass is `x`. */
  function Traced(g: Progress, x: Pass): Trace
  {
    match g
    case Fresh(opening) => Trace(opening, x, None)
    case Renewed(opening, first, shake) => Trace(opening, first, Some(Again(shake, x)))
  }

  lemma UnderwayCompletes(
    h: Hash, key: seq<byte>, retries: nat, s: Standing, command: byte, payload: seq<byte>, g: Progress, now: Standing,
    x: Pass, result: Packet)
    requires Underway(h, key, retries, s, command, payload, g, now)
    requires SealedPass(h, retries, now, command, payload, x)
    requires DecideOn(h, now, command, x, g.Renewed?) == Return(result)
    ensures Completes(h, key, retries, s, command, payload, Traced(g, x), result, x.after)
  {
    hide SealedPass, Shaken, DecideOn, SessionKey;
  }

  /** Where a protected request is: in its first handshake, in a pass, or renewing its session. */
  datatype Phase = Starting | Passing(g: Progress) | Renewing(opening: Option<Shake>, first: Pass)

  /** The client stands at `now` when this phase of its request begins. */
  predicate Reaches(
    h: Hash, key: seq<byte>, retries: nat, s: Standing, command: byte, payload: seq<byte>, phase: Phase, now: Standing)
  {
    match phase
    case Starting => now == s
    case Passing(g) => Underway(h, key, retries, s, command, payload, g, now)
    case Renewing(opening, first) =>
      && Opens(h, key, retries, s, opening)
      && SealedPass(h, retries, Opened(h, key, s, opening), command, payload, first)
      && DecideOn(h, Opened(h, key, s, opening), command, first, false) == Renew && now == Dropped(first)
  }

  /** What the packet of the pass that begins here carries: a protected command's tag comes last. */
  function OutgoingPayload(h: Hash, s: Standing, command: byte, payload: seq<byte>): seq<byte>
  {
    if s.sessionKey.Some? && IsProtected(command) then
      payload + RequestTag(h, s.sessionKey.value, command, SequenceOf(s.counter + 1), payload)
    else payload
  }

  function Outgoing(h: Hash, s: Standing, command: byte, payload: seq<byte>): Packet
  {
    Packet(VERSION, command, SequenceOf(s.counter + 1), OutgoingPayload(h, s, command, payload))
  }

  /** A moment of this phase: only its own packets have been sent since. */
  predicate During(h: Hash, command: byte, payload: seq<byte>, phase: Phase, now: Standing, m: Link)
  {
    if phase.Passing? then
      now.sessionKey.Some? && OneMore(h, now.link, m, now.counter + 1, Outgoing(h, now, command, payload))
    else Inv(h, m) && Grew(now.link, m) && OnlyAuth(now.link, m)
  }

  /** Where a request stood when it ended, one way or the other. */
  datatype Stop = Stop(phase: Phase, now: Standing)

  /** The request ended at a moment of one of its phases, at most six numbers on. */
  predicate Ended(
    h: Hash, key: seq<byte>, retries: nat, s: Standing, command: byte, payload: seq<byte>, stop: Stop, m: Link,
    later: nat)
  {
    && Reaches(h, key, retries, s, command, payload, stop.phase, stop.now)
    && During(h, command, payload, stop.phase, stop.now, m)
    && Advanced(h, s.link, s.counter, m, later) && later <= s.counter + 6
  }

  /** The client's request, protected or not, ended so. */
  predicate Stopped(
    h: Hash, authKey: Option<seq<byte>>, retries: nat, s: Standing, command: byte, payload: seq<byte>, stop: Stop,
    m: Link, later: nat)
  {
    if authKey.Some? && IsProtected(command) then Ended(h, authKey.value, retries, s, command, payload, stop, m, later)
    else
      && later == s.counter + 1 && OneMore(h, s.link, m, later, Outgoing(h, s, command, payload))
      && (authKey.None? ==> s.sessionKey.None?)
  }

  /** What a completed request of the client did on the link. */
  predicate Conducted(
    h: Hash, authKey: Option<seq<byte>>, retries: nat, s: Standing, command: byte, payload: seq<byte>, t: Trace,
    result: Packet, m: Link)
  {
    if authKey.Some? && IsProtected(command) then
      Completes(h, authKey.value, retries, s, command, payload, t, result, m)
    else
      && PlainPass(h, retries, s, command, payload, t.first) && t.again.None?
      && t.first.after == m && t.first.reply == result
  }

  // ---- Why a request fails ----

  datatype HostError = TimeoutError | TooLargeError | SystemExit

  datatype Response = Delivered(packet: Packet) | Raised(error: HostError)

  /** The challenge of this handshake was answered. */
  predicate Challenged(h: Hash, retries: nat, s: Standing, k: Shake)
  {
    && Passed(h, retries, k.challenge) && k.challenge.before == s.link && k.challenge.number == s.counter + 1
    && k.challenge.packet == ChallengePacket(SequenceOf(s.counter + 1), k.client)
  }

  /** Its answer was accepted, and the proof was answered. */
  predicate Proved(h: Hash, key: seq<byte>, retries: nat, s: Standing, k: Shake)
  {
    && Challenged(h, retries, s, k) && ChallengePasses(h, key, k.client, k.challenge.reply)
    && Passed(h, retries, k.proof)
    && k.server == k.challenge.reply.payload[1..1 + NONCE_SIZE]
    && k.proof.before == k.challenge.after && k.proof.number == s.counter + 2
    && k.proof.packet == ProofPacket(h, key, SequenceOf(s.counter + 2), k.client, k.server)
  }

  /** The client was left without an answer to the handshake's first or second packet. */
  predicate ShakeUnanswered(h: Hash, key: seq<byte>, retries: nat, s: Standing, k: Shake, m: Link, later: nat)
  {
    if later == s.counter + 1 then
      Unanswered(h, s.link, m, later, ChallengePacket(SequenceOf(later), k.client))
    else
      && Challenged(h, retries, s, k) && ChallengePasses(h, key, k.client, k.challenge.reply)
      && k.server == k.challenge.reply.payload[1..1 + NONCE_SIZE] && later == s.counter + 2
      && Unanswered(h, k.challenge.after, m, later, ProofPacket(h, key, SequenceOf(later), k.client, k.server))
  }

  /** The device's answer to the challenge does not prove that it holds the key, or it did not accept the proof. */
  predicate ShakeRejected(h: Hash, key: seq<byte>, retries: nat, s: Standing, k: Shake, m: Link, later: nat)
  {
    if later == s.counter + 1 then
      Challenged(h, retries, s, k) && !ChallengePasses(h, key, k.client, k.challenge.reply) && m == k.challenge.after
    else
      Proved(h, key, retries, s, k) && !EnsureAck(k.proof.reply) && later == s.counter + 2 && m == k.proof.after
  }

  /** Why `authenticate` raises this error. */
  predicate ShakeFailed(
    h: Hash, key: seq<byte>, retries: nat, s: Standing, k: Shake, m: Link, later: nat, error: HostError)
  {
    && s.sessionKey.None? && |k.client| == NONCE_SIZE
    && match error
       case TimeoutError => ShakeUnanswered(h, key, retries, s, k, m, later)
       case SystemExit => ShakeRejected(h, key, retries, s, k, m, later)
       case TooLargeError => false
  }

  /** The pass got no answer, or its packet was too long to be built. */
  predicate PassFailed(
    h: Hash, s: Standing, command: byte, payload: seq<byte>, m: Link, later: nat, error: HostError)
  {
    && later == s.counter + 1
    && match error
       case TimeoutError => Unanswered(h, s.link, m, later, Outgoing(h, s, command, payload))
       case TooLargeError => |OutgoingPayload(h, s, command, payload)| > MAX_PAYLOAD && m == s.link
       case SystemExit => false
  }

  /** Its answer can be neither verified nor acted on. */
  predicate PassRejected(
    h: Hash, retries: nat, s: Standing, command: byte, payload: seq<byte>, x: Pass, retried: bool, m: Link, later: nat)
  {
    && SealedPass(h, retries, s, command, payload, x) && DecideOn(h, s, command, x, retried) == Exit
    && m == x.after && later == x.number
  }

  /** Why a protected request with a key raises this error, where it stopped. */
  ghost predicate SealedFailed(
    h: Hash, key: seq<byte>, retries: nat, command: byte, payload: seq<byte>, stop: Stop, m: Link, later: nat,
    error: HostError)
  {
    match stop.phase
    case Passing(g) =>
      PassFailed(h, stop.now, command, payload, m, later, error) ||
      (error == SystemExit
       && exists x :: PassRejected(h, retries, stop.now, command, payload, x, g.Renewed?, m, later))
    case _ => exists k :: ShakeFailed(h, key, retries, stop.now, k, m, later, error)
  }

  /** Why the client's request raises this error. */
  ghost predicate RequestFailed(
    h: Hash, authKey: Option<seq<byte>>, retries: nat, s: Standing, command: byte, payload: seq<byte>, stop: Stop,
    m: Link, later: nat, error: HostError)
  {
    if authKey.Some? && IsProtected(command)
    then SealedFailed(h, authKey.value, retries, command, payload, stop, m, later, error)
    else PassFailed(h, s, command, payload, m, later, error)
  }

  /** A REBOOT or ROLLBACK that was acknowledged ends the client's session. */
  function Kept(command: byte, result: Packet, sessionKey: Option<seq<byte>>): Option<seq<byte>>
  {
    if (command == CMD_REBOOT || command == CMD_ROLLBACK) && result.command == CMD_ACK then None else sessionKey
  }

  /** The session the client is left with. */
  function SessionLeft(
    h: Hash, authKey: Option<seq<byte>>, s: Standing, command: byte, t: Trace, stop: Stop, response: Response)
    : Option<seq<byte>>
  {
    if !(authKey.Some? && IsProtected(command)) then
      if response.Delivered? then Kept(command, response.packet, s.sessionKey) else s.sessionKey
    else if response.Delivered? then Kept(command, response.packet, Origin(h, authKey.value, s, t).sessionKey)
    else if stop.phase.Passing? then stop.now.sessionKey
    else None
  }

  // ---- Bookkeeping of the client's methods ----

  /** Nothing but at most two packets of a handshake has been sent. */
  predicate ShookOnly(h: Hash, l: Link, counter: nat, m: Link, later: nat)
  {
    Advanced(h, l, counter, m, later) && OnlyAuth(l, m) && later <= counter + 2
  }

  lemma NoShake(h: Hash, l: Link, counter: nat)
    requires Inv(h, l)
    ensures ShookOnly(h, l, counter, l, counter)
  {
    hide Inv, Advanced;
    NothingAdvances(h, l, counter);
  }

  lemma OneShake(h: Hash, l: Link, counter: nat, m: Link, p: Packet)
    requires OneMore(h, l, m, counter + 1, p) && IsAuth(p)
    ensures ShookOnly(h, l, counter, m, counter + 1)
  {
    hide OneMore, Advanced, OnlyAuth;
    OneMoreAdvances(h, l, counter, m, p);
    OneMoreAuth(h, l, m, counter + 1, p);
  }

  lemma TwoShakes(h: Hash, l: Link, counter: nat, c: Link, m: Link, p: Packet)
    requires ShookOnly(h, l, counter, c, counter + 1) && OneMore(h, c, m, counter + 2, p) && IsAuth(p)
    ensures ShookOnly(h, l, counter, m, counter + 2)
  {
    hide OneMore, Advanced, OnlyAuth;
    OneShake(h, c, counter + 1, m, p);
    AdvancedFurther(h, l, counter, c, counter + 1, m, counter + 2);
    OnlyAuthFurther(l, c, m);
  }

  /** Before a pass: how far the request has come, and how many numbers it has used. */
  predicate Ongoing(
    h: Hash, key: seq<byte>, retries: nat, s: Standing, command: byte, payload: seq<byte>, g: Progress, now: Standing)
  {
    && Underway(h, key, retries, s, command, payload, g, now) && now.sessionKey.Some?
    && Advanced(h, s.link, s.counter, now.link, now.counter)
    && now.counter <= s.counter + if g.Renewed? then 5 else 2
  }

  lemma EndedOpening(
    h: Hash, key: seq<byte>, retries: nat, s: Standing, command: byte, payload: seq<byte>, m: Link, later: nat)
    requires ShookOnly(h, s.link, s.counter, m, later)
    ensures Ended(h, key, retries, s, command, payload, Stop(Starting, s), m, later)
  {
    hide Inv, Grew, OnlyAuth;
  }

  lemma OpenedOngoing(
    h: Hash, key: seq<byte>, retries: nat, s: Standing, command: byte, payload: seq<byte>, opening: Option<Shake>,
    now: Standing)
    requires Opens(h, key, retries, s, opening) && now == Opened(h, key, s, opening)
    requires ShookOnly(h, s.link, s.counter, now.link, now.counter)
    ensures Ongoing(h, key, retries, s, command, payload, Fresh(opening), now)
  {
    hide Shaken, SessionKey, Advanced, OnlyAuth;
  }

  lemma EndedPassing(
    h: Hash, key: seq<byte>, retries: nat, s: Standing, command: byte, payload: seq<byte>, g: Progress, now: Standing,
    m: Link)
    requires Ongoing(h, key, retries, s, command, payload, g, now)
    requires OneMore(h, now.link, m, now.counter + 1, Outgoing(h, now, command, payload))
    ensures Ended(h, key, retries, s, command, payload, Stop(Passing(g), now), m, now.counter + 1)
  {
    hide OneMore, Underway, Outgoing, Advanced;
    OneMoreAdvances(h, now.link, now.counter, m, Outgoing(h, now, command, payload));
    AdvancedFurther(h, s.link, s.counter, now.link, now.counter, m, now.counter + 1);
  }

  /** While it renews its session a request has used at most three numbers before. */
  predicate Renewal(
    h: Hash, key: seq<byte>, retries: nat, s: Standing, command: byte, payload: seq<byte>, g: Progress, now: Standing,
    x: Pass)
  {
    && Ongoing(h, key, retries, s, command, payload, g, now) && g.Fresh?
    && SealedPass(h, retries, now, command, payload, x) && DecideOn(h, now, command, x, false) == Renew
  }

  lemma RenewalAdvances(
    h: Hash, key: seq<byte>, retries: nat, s: Standing, command: byte, payload: seq<byte>, g: Progress, now: Standing,
    x: Pass)
    requires Renewal(h, key, retries, s, command, payload, g, now, x)
    ensures Advanced(h, s.link, s.counter, x.after, x.number) && x.number <= s.counter + 3
  {
    hide Underway, Advanced, DecideOn, RequestTag, Sealed, SequenceOf;
    PassAdvances(h, retries, x, now.counter);
    AdvancedFurther(h, s.link, s.counter, now.link, now.counter, x.after, x.number);
  }

  lemma PassAdvances(h: Hash, retries: nat, x: Pass, counter: nat)
    requires Passed(h, retries, x) && x.number == counter + 1
    ensures Advanced(h, x.before, counter, x.after, x.number)
  {
    hide Inv, Grew, Outstanding;
  }

  lemma EndedRenewing(
    h: Hash, key: seq<byte>, retries: nat, s: Standing, command: byte, payload: seq<byte>, g: Progress, now: Standing,
    x: Pass, m: Link, later: nat)
    requires Renewal(h, key, retries, s, command, payload, g, now, x)
    requires ShookOnly(h, x.after, x.number, m, later)
    ensures Ended(h, key, retries, s, command, payload, Stop(Renewing(g.opening, x), Dropped(x)), m, later)
  {
    hide Inv, Grew, Renewal, Reaches, Advanced, OnlyAuth;
    RenewalAdvances(h, key, retries, s, command, payload, g, now, x);
    AdvancedFurther(h, s.link, s.counter, x.after, x.number, m, later);
    RenewalReaches(h, key, retries, s, command, payload, g, now, x);
    AdvancedGrew(h, x.after, x.number, m, later);
  }

  lemma RenewalReaches(
    h: Hash, key: seq<byte>, retries: nat, s: Standing, command: byte, payload: seq<byte>, g: Progress, now: Standing,
    x: Pass)
    requires Renewal(h, key, retries, s, command, payload, g, now, x)
    ensures Reaches(h, key, retries, s, command, payload, Renewing(g.opening, x), Dropped(x))
  {
    hide SealedPass, Shaken, SessionKey, DecideOn, Advanced;
  }

  lemma AdvancedGrew(h: Hash, l: Link, counter: nat, m: Link, later: nat)
    requires Advanced(h, l, counter, m, later)
    ensures Inv(h, m) && Grew(l, m)
  {
    hide Inv, Grew;
  }

  lemma RenewedOngoing(
    h: Hash, key: seq<byte>, retries: nat, s: Standing, command: byte, payload: seq<byte>, g: Progress, now: Standing,
    x: Pass, shake: Option<Shake>, next: Standing)
    requires Renewal(h, key, retries, s, command, payload, g, now, x)
    requires Opens(h, key, retries, Dropped(x), shake) && next == Opened(h, key, Dropped(x), shake)
    requires ShookOnly(h, x.after, x.number, next.link, next.counter)
    ensures shake.Some? && Ongoing(h, key, retries, s, command, payload, Renewed(g.opening, x, shake.value), next)
  {
    hide SealedPass, Shaken, SessionKey, DecideOn, Advanced, OnlyAuth;
    RenewalAdvances(h, key, retries, s, command, payload, g, now, x);
    AdvancedFurther(h, s.link, s.counter, x.after, x.number, next.link, next.counter);
  }
}
