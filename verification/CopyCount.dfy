/** How many copies of a request exist, and what follows when there was only one. */
module CopyCount {
  import opened Esp
  import opened Frame
  import opened HmacSha
  import opened DeviceMachine
  import opened LossyLink
  import opened RemoteCall
  import T = DispatchTheory

  function Count(s: seq<nat>, id: nat): nat
  {
    if s == [] then 0 else Count(s[..|s| - 1], id) + if s[|s| - 1] == id then 1 else 0
  }

  /** The copies of a request that the device has handled. */
  function HandledCopies(log: seq<Exchange>, id: nat): nat
  {
    if log == [] then 0 else HandledCopies(log[..|log| - 1], id) + if log[|log| - 1].id == id then 1 else 0
  }

  /** The copies of a request that are on their way or have been handled. */
  function Copies(l: Link, id: nat): nat { HandledCopies(l.log, id) + Count(l.toDevice, id) }

  lemma {:induction false} CountConcat(a: seq<nat>, b: seq<nat>, id: nat)
    ensures Count(a + b, id) == Count(a, id) + Count(b, id)
    decreases |b|
  {
    if b == [] {
      assert a + b == a;
    } else {
      assert (a + b)[..|a + b| - 1] == a + b[..|b| - 1];
      CountConcat(a, b[..|b| - 1], id);
    }
  }

  lemma CountWithout(s: seq<nat>, i: nat, id: nat)
    requires i < |s|
    ensures Count(Without(s, i), id) <= Count(s, id)
  {
    assert s == s[..i] + ([s[i]] + s[i + 1..]);
    CountConcat(s[..i], [s[i]] + s[i + 1..], id);
    CountConcat([s[i]], s[i + 1..], id);
    CountConcat(s[..i], s[i + 1..], id);
  }

  lemma CountHead(s: seq<nat>, id: nat)
    requires s != []
    ensures Count(s, id) == Count(s[1..], id) + if s[0] == id then 1 else 0
  {
    assert s == [s[0]] + s[1..];
    CountConcat([s[0]], s[1..], id);
  }

  lemma HandledPush(log: seq<Exchange>, x: Exchange, id: nat)
    ensures HandledCopies(log + [x], id) == HandledCopies(log, id) + if x.id == id then 1 else 0
  {
    assert (log + [x])[..|log|] == log;
  }

  lemma {:induction false} NewIdHasNoCopies(l: Link)
    requires Ordered(l)
    ensures Copies(l, |l.requests|) == 0
  {
    NoneQueued(l.toDevice, |l.requests|);
    NoneHandled(l.log, |l.requests|);
  }

  lemma {:induction false} NoneQueued(s: seq<nat>, id: nat)
    requires forall i | 0 <= i < |s| :: s[i] < id
    ensures Count(s, id) == 0
    decreases |s|
  {
    if s != [] { NoneQueued(s[..|s| - 1], id); }
  }

  lemma {:induction false} NoneHandled(log: seq<Exchange>, id: nat)
    requires forall i | 0 <= i < |log| :: log[i].id < id
    ensures HandledCopies(log, id) == 0
    decreases |log|
  {
    if log != [] { NoneHandled(log[..|log| - 1], id); }
  }

  lemma TransmitCopies(l: Link, id: nat)
    requires l.requests != []
    ensures Copies(Transmit(l), id) == Copies(l, id) + if id == Current(l) then 1 else 0
  {
    assert (l.toDevice + [Current(l)])[..|l.toDevice|] == l.toDevice;
  }

  lemma DeliverCopies(h: Hash, l: Link, o: Outcome, id: nat)
    requires l.toDevice != [] && l.toDevice[0] < |l.requests| && T.Shaped(l.device)
    ensures Copies(Deliver(h, l, o), id) == Copies(l, id)
  {
    hide Handle, T.Shaped;
    CountHead(l.toDevice, id);
    HandledPush(l.log, Deliver(h, l, o).log[|l.log|], id);
  }

  /** The copies of the current request. */
  function Outstanding(l: Link): nat { if l.requests == [] then 0 else Copies(l, Current(l)) }

  lemma IssueOutstanding(l: Link, number: nat, p: Packet)
    requires Ordered(l)
    ensures Outstanding(Issue(l, number, p)) == 0
  {
    hide Ordered;
    NewIdHasNoCopies(l);
  }

  // ---- One copy ----

  lemma {:induction false} HandledAmong(log: seq<Exchange>, j: nat, id: nat)
    requires j < |log| && log[j].id == id
    ensures HandledCopies(log, id) >= 1
    ensures HandledCopies(log, id) == 1 ==> forall k | 0 <= k < |log| && log[k].id == id :: k == j
    decreases |log|
  {
    var most := log[..|log| - 1];
    if j < |most| {
      HandledAmong(most, j, id);
      assert forall k | 0 <= k < |most| :: most[k] == log[k];
    } else {
      forall k | 0 <= k < |most| && log[k].id == id
        ensures HandledCopies(log, id) >= 2
      {
        HandledAmong(most, k, id);
      }
    }
  }

  /** From a settled link the host has issued `p`. */
  ghost predicate Issued(h: Hash, l: Link, m: Link, number: nat, p: Packet)
  {
    && T.Shaped(l.device) && Settled(h, l) && m.requests == l.requests + [Request.Request(number, p)]
    && Inv(h, m) && Grew(l, m)
  }

  lemma IssuedStart(h: Hash, l: Link, m: Link, number: nat, p: Packet)
    requires Issued(h, l, m, number, p)
    ensures |l.log| <= |m.log| && StateAt(m, |l.log|) == l.device
  {
    hide Inv, T.Shaped, Settled;
  }

  lemma StaleRecord(h: Hash, l: Link, m: Link, number: nat, p: Packet, j: nat)
    requires Issued(h, l, m, number, p) && |l.log| < j <= |m.log|
    requires StateAt(m, j - 1) == l.device && m.log[j - 1].id != |l.requests|
    ensures StateAt(m, j) == l.device
  {
    hide Inv, T.Shaped, After, Answer, Inert;
    RecordStep(h, m, j - 1);
    var x := m.log[j - 1];
    assert m.requests[x.id] == l.requests[x.id];
    StaleStep(h, l.device, l.requests[x.id].packet, x.outcome);
  }

  /** Until a copy of the current request arrives, copies of earlier ones leave a settled device alone. */
  lemma {:induction false} StaleCopiesOnly(h: Hash, l: Link, m: Link, number: nat, p: Packet, j: nat)
    requires Issued(h, l, m, number, p) && |l.log| <= j <= |m.log|
    requires forall i | |l.log| <= i < j :: m.log[i].id != |l.requests|
    ensures StateAt(m, j) == l.device
    decreases j
  {
    hide Issued, StateAt;
    if j == |l.log| {
      IssuedStart(h, l, m, number, p);
    } else {
      StaleCopiesOnly(h, l, m, number, p, j - 1);
      StaleRecord(h, l, m, number, p, j);
    }
  }

  lemma StaleStep(h: Hash, d: Device, p: Packet, o: Outcome)
    requires T.Shaped(d) && Inert(h, d, p) && Usable(o)
    ensures After(h, d, p, o) == d
  {
    hide After;
  }

  /**
   * If only one copy of the request was handled, the accepted reply and the device
   * left behind are exactly those of that handling, whatever the request is.
   */
  lemma SingleCall(h: Hash, l: Link, m: Link, number: nat, p: Packet, k: nat)
    requires T.Shaped(l.device) && Settled(h, l) && Answered(h, l, m, number, p, k)
    requires HandledCopies(m.log, |l.requests|) <= 1
    ensures var o := m.log[k].outcome;
      && Possible(o, l.device) && Usable(o)
      && m.device == After(h, l.device, p, o) && m.log[k].reply == Answer(h, l.device, p, o)
  {
    hide Inv, T.Shaped, After, Answer, Settled, Grew, HandledCopies;
    HandledAmong(m.log, k, |l.requests|);
    OnlyRecord(m, k, |l.requests|);
    StaleCopiesOnly(h, l, m, number, p, k);
    RecordStep(h, m, k);
  }

  lemma OnlyRecord(m: Link, k: nat, id: nat)
    requires k < |m.log| && forall j | k <= j < |m.log| :: m.log[j].id == id
    requires forall j | 0 <= j < |m.log| && m.log[j].id == id :: j == k
    ensures k + 1 == |m.log|
  {
    assert m.log[|m.log| - 1].id == id;
  }
}
