/** `auth.c` and `commands.c` as functions: session, reply cache and dispatcher. */
module DeviceMachine {
  import opened Bytes
  import opened Codes
  import opened Esp
  import opened Frame
  import opened HmacSha
  import opened Sealing
  import M = OtaMachine

  const CACHE_SIZE: nat := 8
  const KEY_MAX_SIZE: nat := 64

  /** A cached response; `digest` identifies the exact request. */
  datatype Entry = Entry(
    command: byte, sequence: uint16, digest: seq<byte>, responseCommand: byte, response: seq<byte>)

  /** The session state. `ring` is the reply cache, `nextEntry` the place written next. */
  datatype Auth = Auth(
    required: bool,
    pending: bool,
    authenticated: bool, key: seq<byte>,
    clientNonce: seq<byte>,
    serverNonce: seq<byte>,
    sessionKey: seq<byte>,
    ring: seq<Option<Entry>>,
    nextEntry: nat)

  function EmptyRing(): (r: seq<Option<Entry>>)
    ensures |r| == CACHE_SIZE
  {
    [None, None, None, None, None, None, None, None]
  }

  /** `auth_configure`, run at start-up and so after every restart. */
  function Configure(key: seq<byte>, required: bool): Auth
  {
    var usable := 0 < |key| <= KEY_MAX_SIZE;
    Auth(usable && required, false, false, if usable then key else [], ZeroBytes(NONCE_SIZE),
         ZeroBytes(NONCE_SIZE), ZeroBytes(SHA256_SIZE), EmptyRing(), 0)
  }

  function Reply(request: Packet, command: byte, payload: seq<byte>): Packet
  {
    Packet(VERSION, command, request.sequence, payload)
  }

  function Nack(request: Packet, error: byte): Packet { Reply(request, CMD_NACK, [error]) }

  // ---- Session ----

  /** The new state and either the packet that was sent or the error to report. */
  datatype AuthResult = Sent(auth: Auth, reply: Packet) | Failed(auth: Auth, error: byte)

  function Challenge(h: Hash, a: Auth, p: Packet, nonce: seq<byte>): AuthResult
  {
    var next := a.(clientNonce := p.payload, serverNonce := nonce,
                   sessionKey := SessionKey(h, a.key, p.payload, nonce),
                   pending := true, authenticated := false, ring := EmptyRing(), nextEntry := 0);
    Sent(next, Reply(p, CMD_ACK, [ERR_OK] + nonce + DeviceProof(h, a.key, p.payload, nonce)))
  }

  predicate ProofAccepted(h: Hash, a: Auth, payload: seq<byte>)
    requires |payload| == NONCE_SIZE + TAG_SIZE
  {
    && (a.pending || a.authenticated)
    && payload[..NONCE_SIZE] == a.clientNonce
    && payload[NONCE_SIZE..] == Proof(h, a.key, a.clientNonce, a.serverNonce)
  }

  function HandleAuth(h: Hash, a: Auth, p: Packet, nonce: seq<byte>): AuthResult
  {
    if !a.required then Failed(a, ERR_UNKNOWN_COMMAND)
    else if |p.payload| == NONCE_SIZE then Challenge(h, a, p, nonce)
    else if |p.payload| == NONCE_SIZE + TAG_SIZE then
      if ProofAccepted(h, a, p.payload)
      then Sent(a.(pending := false, authenticated := true), Reply(p, CMD_ACK, [ERR_OK]))
      else Failed(a, ERR_AUTH_REQUIRED)
    else Failed(a, ERR_INVALID_LENGTH)
  }

  // ---- Reply cache ----

  function RequestDigest(h: Hash, p: Packet): seq<byte>
  {
    h(RequestInput(p.command, p.sequence, p.payload))
  }

  predicate SamePair(e: Option<Entry>, p: Packet)
  {
    e.Some? && e.value.command == p.command && e.value.sequence == p.sequence
  }

  /** The lowest index whose entry carries the request's command and sequence, or -1. */
  function FindEntry(ring: seq<Option<Entry>>, p: Packet): (i: int)
    ensures -1 <= i < |ring|
    ensures i >= 0 ==> SamePair(ring[i], p) && forall j | 0 <= j < i :: !SamePair(ring[j], p)
    ensures i < 0 ==> forall j | 0 <= j < |ring| :: !SamePair(ring[j], p)
  {
    if ring == [] then -1
    else if SamePair(ring[0], p) then 0
    else var k := FindEntry(ring[1..], p); if k < 0 then -1 else k + 1
  }

  datatype Verdict = New | Replayed(reply: Packet) | Refused(error: byte)

  function CheckReplay(h: Hash, a: Auth, p: Packet): Verdict
  {
    if !a.required || !IsProtected(p.command) then New
    else if !a.authenticated then Refused(ERR_AUTH_REQUIRED)
    else
      var i := FindEntry(a.ring, p);
      if i < 0 then New
      else if a.ring[i].value.digest != RequestDigest(h, p) then Refused(ERR_AUTH_REQUIRED)
      else Replayed(Reply(p, a.ring[i].value.responseCommand, a.ring[i].value.response))
  }

  // ---- Tags ----

  datatype Unwrapped = Payload(payload: seq<byte>) | Denied(error: byte)

  function Unwrap(h: Hash, a: Auth, p: Packet): Unwrapped
  {
    if !a.required || !IsProtected(p.command) then Payload(p.payload)
    else if !a.authenticated || |p.payload| < TAG_SIZE then Denied(ERR_AUTH_REQUIRED)
    else if TagOf(p.payload) != RequestTag(h, a.sessionKey, p.command, p.sequence, Untagged(p.payload)) then
      Denied(ERR_AUTH_REQUIRED)
    else Payload(Untagged(p.payload))
  }

  datatype Responded = Responded(auth: Auth, reply: Packet)

  /** `auth_send_response`: sign and cache while a session is on, else send as is. */
  function Respond(h: Hash, a: Auth, p: Packet, command: byte, payload: seq<byte>): Responded
    requires |a.ring| == CACHE_SIZE && a.nextEntry < CACHE_SIZE
  {
    if !(a.required && a.authenticated && IsProtected(p.command)) then
      Responded(a, Reply(p, command, payload))
    else if |payload| + TAG_SIZE > MAX_PAYLOAD then
      Responded(a, Nack(p, ERR_INVALID_LENGTH))
    else
      var response := payload + ResponseTag(h, a.sessionKey, p.command, command, p.sequence, payload);
      var entry := Entry(p.command, p.sequence, RequestDigest(h, p), command, response);
      Responded(a.(ring := a.ring[a.nextEntry := Some(entry)], nextEntry := (a.nextEntry + 1) % CACHE_SIZE),
                Reply(p, command, response))
  }

  function RespondStatus(h: Hash, a: Auth, p: Packet, error: byte): Responded
    requires |a.ring| == CACHE_SIZE && a.nextEntry < CACHE_SIZE
  {
    Respond(h, a, p, if error == ERR_OK then CMD_ACK else CMD_NACK, [error])
  }

  // ---- Commands ----

  /** What a protected command does once admitted. */
  datatype Executed = Executed(ota: M.State, error: byte, restart: bool)

  function FromOta(r: M.Result): Executed { Executed(r.state, r.error, false) }

  function Execute(ota: M.State, command: byte, payload: seq<byte>, o: Outcome): Executed
    requires IsProtected(command)
  {
    if command == CMD_OTA_BEGIN then FromOta(M.Begin(ota, payload, o))
    else if command == CMD_OTA_DATA then FromOta(M.Write(ota, payload, o))
    else if payload != [] then Executed(ota, ERR_INVALID_LENGTH, false)
    else if command == CMD_OTA_END then FromOta(M.End(ota, o))
    else if command == CMD_OTA_ABORT then FromOta(M.Abort(ota, o))
    else if ota.active then Executed(ota, ERR_BUSY, false)
    else if command == CMD_REBOOT then Executed(M.Cleared(Restarted(ota.flash)), ERR_OK, true)
    else if !o.rollbackPossible then Executed(ota, ERR_ROLLBACK_NOT_AVAILABLE, false)
    else if o.rollbackSlot.None? then Executed(ota, ERR_OK, false)
    else Executed(M.Cleared(SetBoot(Restarted(ota.flash), o.rollbackSlot.value)), ERR_OK, true)
  }

  datatype Device = Device(auth: Auth, ota: M.State, restarts: nat)

  datatype Handled = Handled(device: Device, reply: Packet)

  predicate RingShape(a: Auth) { |a.ring| == CACHE_SIZE && a.nextEntry < CACHE_SIZE }

  function Refuse(h: Hash, d: Device, p: Packet, error: byte): Handled
    requires RingShape(d.auth)
  {
    var r := RespondStatus(h, d.auth, p, error);
    Handled(d.(auth := r.auth), r.reply)
  }

  function HandleProtected(h: Hash, d: Device, p: Packet, o: Outcome): Handled
    requires RingShape(d.auth) && IsProtected(p.command)
  {
    match CheckReplay(h, d.auth, p)
    case Refused(error) => Refuse(h, d, p, error)
    case Replayed(reply) => Handled(d, reply)
    case New =>
      match Unwrap(h, d.auth, p)
      case Denied(error) => Refuse(h, d, p, error)
      case Payload(payload) =>
        var x := Execute(d.ota, p.command, payload, o);
        var r := RespondStatus(h, d.auth, p, x.error);
        if x.restart then Handled(Device(Configure(d.auth.key, d.auth.required), x.ota, d.restarts + 1), r.reply)
        else Handled(Device(r.auth, x.ota, d.restarts), r.reply)
  }

  /** `commands_handle_packet`. */
  function Handle(h: Hash, d: Device, p: Packet, o: Outcome): Handled
    requires RingShape(d.auth)
  {
    if p.version != VERSION then Handled(d, Nack(p, ERR_INVALID_PACKET))
    else if p.command == CMD_PING then Handled(d, Reply(p, CMD_ACK, [ERR_OK]))
    else if p.command == CMD_GET_INFO then
      Handled(d, if o.info == [] then Nack(p, ERR_INVALID_LENGTH) else Reply(p, CMD_INFO, o.info))
    else if p.command == CMD_AUTH then
      (match HandleAuth(h, d.auth, p, o.nonce)
       case Sent(auth, reply) => Handled(d.(auth := auth), reply)
       case Failed(auth, error) => Handled(d.(auth := auth), Nack(p, error)))
    else if IsProtected(p.command) then HandleProtected(h, d, p, o)
    else Handled(d, Nack(p, ERR_UNKNOWN_COMMAND))
  }
}
