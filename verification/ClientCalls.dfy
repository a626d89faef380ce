/** Requests made one after the other, and what came of each. */
module ClientCalls {
  import opened Bytes
  import opened Esp
  import opened Frame
  import opened HmacSha
  import opened Sealing
  import opened LossyLink
  import opened Payloads
  import opened RequestTrace
  import opened RequestMoments
  import opened ClientSteps

  /** A request the host means to make: its payload may turn out not to be buildable. */
  datatype Command = Command(code: byte, payload: Payloads.Built)

  /** A request that was made, how it ended, and where it left the client. */
  datatype Call = Call(
    command: Command, before: Standing, response: Response, trace: Trace, stop: Stop, after: Standing)

  /** The client conducted it so: it delivered what its trace tells, or raised an error for a reason. */
  ghost predicate Called(h: Hash, authKey: Option<seq<byte>>, calm: Option<Platform>, retries: nat, c: Call)
  {
    && c.command.payload.Payload?
    && var command, payload, r := c.command.code, c.command.payload.bytes, c.after;
    && Stopped(h, authKey, retries, c.before, command, payload, c.stop, r.link, r.counter)
    && (c.response.Delivered? ==>
          && Conducted(h, authKey, retries, c.before, command, payload, c.trace, c.response.packet, r.link)
          && r.counter == Last(c.trace).number)
    && (c.response.Raised? ==>
          RequestFailed(h, authKey, retries, c.before, command, payload, c.stop, r.link, r.counter, c.response.error))
    && r.sessionKey == SessionLeft(h, authKey, c.before, command, c.trace, c.stop, c.response)
    && RequestedCalmly(h, authKey, calm, retries, c.before, command, payload, c.response, r)
  }

  lemma IsCalled(h: Hash, authKey: Option<seq<byte>>, calm: Option<Platform>, retries: nat, c: Call)
    requires c.command.payload.Payload?
    requires Stopped(h, authKey, retries, c.before, c.command.code, c.command.payload.bytes, c.stop, c.after.link,
                     c.after.counter)
    requires c.response.Delivered? ==>
      && Conducted(h, authKey, retries, c.before, c.command.code, c.command.payload.bytes, c.trace, c.response.packet,
                   c.after.link)
      && c.after.counter == Last(c.trace).number
    requires c.response.Raised? ==>
      RequestFailed(h, authKey, retries, c.before, c.command.code, c.command.payload.bytes, c.stop, c.after.link,
             c.after.counter, c.response.error)
    requires c.after.sessionKey ==
      SessionLeft(h, authKey, c.before, c.command.code, c.trace, c.stop, c.response)
    requires RequestedCalmly(h, authKey, calm, retries, c.before, c.command.code, c.command.payload.bytes, c.response,
                             c.after)
    ensures Called(h, authKey, calm, retries, c)
  {
    hide Stopped, Conducted, RequestFailed, SessionLeft, RequestedCalmly, Last;
  }

  /** It was delivered and acknowledged. */
  predicate Acknowledged(c: Call) { c.response.Delivered? && EnsureAck(c.response.packet) }

  /**
   * From `s` the client made these requests one after the other, up to the first that
   * could not be built or was not acknowledged; `ok` says that there was none.
   */
  ghost predicate Made(
    h: Hash, authKey: Option<seq<byte>>, calm: Option<Platform>, retries: nat, s: Standing, commands: seq<Command>,
    calls: seq<Call>, r: Standing, ok: bool)
    decreases |commands|
  {
    if commands == [] || !commands[0].payload.Payload? then calls == [] && r == s && ok == (commands == [])
    else
      && calls != [] && calls[0].command == commands[0] && calls[0].before == s
      && Called(h, authKey, calm, retries, calls[0])
      && if Acknowledged(calls[0]) then
           Made(h, authKey, calm, retries, calls[0].after, commands[1..], calls[1..], r, ok)
         else |calls| == 1 && r == calls[0].after && !ok
  }

  lemma MadeOne(
    h: Hash, authKey: Option<seq<byte>>, calm: Option<Platform>, retries: nat, c: Call)
    requires Called(h, authKey, calm, retries, c) && c.command.payload.Payload?
    ensures Made(h, authKey, calm, retries, c.before, [c.command], [c], c.after, Acknowledged(c))
  {
    hide Called, Acknowledged;
    assert [c][1..] == [] && [c.command][1..] == [];
  }

  lemma MadeNone(
    h: Hash, authKey: Option<seq<byte>>, calm: Option<Platform>, retries: nat, s: Standing, command: Command)
    requires !command.payload.Payload?
    ensures Made(h, authKey, calm, retries, s, [command], [], s, false)
    ensures Made(h, authKey, calm, retries, s, [], [], s, true)
  {
    hide Called;
  }

  lemma FirstOf<T>(a: seq<T>, b: seq<T>)
    requires a != []
    ensures a + b != [] && (a + b)[0] == a[0] && (a + b)[1..] == a[1..] + b
  {
  }

  lemma MadeFirst(
    h: Hash, authKey: Option<seq<byte>>, calm: Option<Platform>, retries: nat, s: Standing, commands: seq<Command>,
    calls: seq<Call>, r: Standing, ok: bool)
    requires commands != [] && commands[0].payload.Payload?
    ensures Made(h, authKey, calm, retries, s, commands, calls, r, ok) <==>
      && calls != [] && calls[0].command == commands[0] && calls[0].before == s
      && Called(h, authKey, calm, retries, calls[0])
      && if Acknowledged(calls[0]) then
           Made(h, authKey, calm, retries, calls[0].after, commands[1..], calls[1..], r, ok)
         else |calls| == 1 && r == calls[0].after && !ok
  {
    hide Called, Acknowledged;
  }

  /** What is made after requests that were all acknowledged, or never if one was not. */
  lemma {:induction false} MadeMore(
    h: Hash, authKey: Option<seq<byte>>, calm: Option<Platform>, retries: nat, s: Standing, first: seq<Command>,
    calls: seq<Call>, b: Standing, ok: bool, rest: seq<Command>, more: seq<Call>, r: Standing, all: bool)
    requires Made(h, authKey, calm, retries, s, first, calls, b, ok)
    requires if ok then Made(h, authKey, calm, retries, b, rest, more, r, all) else more == [] && r == b && !all
    ensures Made(h, authKey, calm, retries, s, first + rest, calls + more, r, all)
    decreases |first|
  {
    hide Called, Acknowledged;
    if first == [] {
      assert first + rest == rest && calls + more == more;
    } else {
      FirstOf(first, rest);
      if first[0].payload.Payload? {
        MadeFirst(h, authKey, calm, retries, s, first, calls, b, ok);
        MadeFirst(h, authKey, calm, retries, s, first + rest, calls + more, r, all);
        FirstOf(calls, more);
        if Acknowledged(calls[0]) {
          MadeMore(h, authKey, calm, retries, calls[0].after, first[1..], calls[1..], b, ok, rest, more, r, all);
        }
      } else {
        assert calls + more == [];
      }
    }
  }

  function CommandsOf(calls: seq<Call>): seq<Command> { seq(|calls|, i requires 0 <= i < |calls| => calls[i].command) }

  /** The requests made are the first of those meant; all but perhaps the last were acknowledged, and `ok` says all. */
  lemma {:induction false} MadeExactly(
    h: Hash, authKey: Option<seq<byte>>, calm: Option<Platform>, retries: nat, s: Standing, commands: seq<Command>,
    calls: seq<Call>, r: Standing, ok: bool)
    requires Made(h, authKey, calm, retries, s, commands, calls, r, ok)
    ensures CommandsOf(calls) <= commands
    ensures forall i | 0 <= i < |calls| - 1 :: Acknowledged(calls[i])
    ensures ok <==> |calls| == |commands| && forall i | 0 <= i < |calls| :: Acknowledged(calls[i])
    ensures !ok ==>
      (calls != [] && !Acknowledged(calls[|calls| - 1])) ||
      (|calls| < |commands| && !commands[|calls|].payload.Payload?)
    decreases |commands|
  {
    hide Called, Acknowledged;
    if calls != [] && Acknowledged(calls[0]) {
      MadeExactly(h, authKey, calm, retries, calls[0].after, commands[1..], calls[1..], r, ok);
      var rest := calls[1..];
      assert forall i | 0 < i < |calls| :: calls[i] == rest[i - 1];
      assert CommandsOf(calls) == [commands[0]] + CommandsOf(rest);
      assert commands == [commands[0]] + commands[1..];
    }
  }

  /** What fits a frame is never too large to be sent. */
  lemma NotTooLarge(h: Hash, authKey: Option<seq<byte>>, calm: Option<Platform>, retries: nat, c: Call)
    requires Called(h, authKey, calm, retries, c) && FitsFrame(authKey, c.command.payload.bytes)
    ensures c.response != Raised(TooLargeError)
  {
    hide Conducted, Reaches, During, Advanced, OneMore, RequestTag, SessionLeft, RequestedCalmly, ShakeUnanswered;
    hide ShakeRejected, Unanswered, PassRejected, SequenceOf;
  }

  /** Nor is any of a list of requests that fit. */
  lemma {:induction false} NoneTooLarge(
    h: Hash, authKey: Option<seq<byte>>, calm: Option<Platform>, retries: nat, s: Standing, commands: seq<Command>,
    calls: seq<Call>, r: Standing, ok: bool)
    requires Made(h, authKey, calm, retries, s, commands, calls, r, ok)
    requires forall i | 0 <= i < |commands| && commands[i].payload.Payload? ::
      FitsFrame(authKey, commands[i].payload.bytes)
    ensures forall i | 0 <= i < |calls| :: calls[i].response != Raised(TooLargeError)
    decreases |commands|
  {
    hide Called, Acknowledged, FitsFrame;
    if calls != [] {
      NotTooLarge(h, authKey, calm, retries, calls[0]);
      if Acknowledged(calls[0]) {
        NoneTooLarge(h, authKey, calm, retries, calls[0].after, commands[1..], calls[1..], r, ok);
        assert forall i | 0 < i < |calls| :: calls[i] == calls[1..][i - 1];
      }
    }
  }
}
