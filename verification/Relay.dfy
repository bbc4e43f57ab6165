/**
 Relays that pump a stream through a bounded channel and share one lock-free peak counter, as a
 protocol: producers, consumers and the counter's compare-and-swap loops interleave step by step.

 Relaxed loads and failed exchanges may return any value the counter has ever held; an exchange may
 fail although the counter holds the expected value.
 */
module Relay {
  const DEFAULT_CAPACITY: nat := 4

  /** What flows: a batch, an error of the input, or the relay's own cancellation. */
  datatype BatchResult = Batch(id: nat) | Failure(code: nat) | Cancelled

  /** Where the producer task stands. */
  datatype Pc =
    | Pulling
    | Deciding(item: BatchResult)
    | Sending(item: BatchResult)
    | SendingCancel
    | Sampling
    | Loading(depth: nat)
    | Swapping(depth: nat, current: nat)
    | Done

  /** `sent` items and, if `cancelSent`, a cancellation have gone into the channel. */
  datatype Relay = Relay(
    input: seq<BatchResult>,
    capacity: nat,
    stats: bool,
    pulled: nat,
    pc: Pc,
    queue: seq<BatchResult>,
    received: seq<BatchResult>,
    closed: bool,
    sent: nat,
    cancelSent: bool)

  /** The counter, every value it has held, and every depth a call was made with. */
  datatype Counter = Counter(peak: nat, past: set<nat>, depths: set<nat>)

  datatype System = System(relays: seq<Relay>, counter: Counter)

  datatype Act =
    | Pull
    | InputEnds
    | Decide(cancelled: bool)
    | Send
    | SendFails
    | Sample
    | Load(seen: nat)
    | Exchange
    | ExchangeFails(seen: nat)
    | Receive
    | Close

  function Bound(capacity: nat): nat {
    if capacity == 0 then DEFAULT_CAPACITY else capacity
  }

  // ---------------------------------------------------------------- steps

  predicate Can(r: Relay, c: Counter, a: Act) {
    match a
    case Pull => r.pc == Pulling && r.pulled < |r.input|
    case InputEnds => r.pc == Pulling && r.pulled == |r.input|
    case Decide(_) => r.pc.Deciding?
    case Send => (r.pc.Sending? || r.pc.SendingCancel?) && !r.closed && |r.queue| < Bound(r.capacity)
    case SendFails => (r.pc.Sending? || r.pc.SendingCancel?) && r.closed
    case Sample => r.pc.Sampling?
    case Load(v) => r.pc.Loading? && v in c.past
    case Exchange => r.pc.Swapping? && c.peak == r.pc.current
    case ExchangeFails(v) => r.pc.Swapping? && v in c.past
    case Receive => !r.closed && r.queue != []
    case Close => !r.closed
  }

  /** The loop test of `record_depth`. */
  function Retry(depth: nat, seen: nat): Pc {
    if depth > seen then Swapping(depth, seen) else Pulling
  }

  function Next(r: Relay, a: Act): Relay
    requires a.Pull? ==> r.pulled < |r.input|
    requires a.Decide? ==> r.pc.Deciding?
    requires a.Send? ==> r.pc.Sending? || r.pc.SendingCancel?
    requires a.Load? ==> r.pc.Loading?
    requires a.ExchangeFails? ==> r.pc.Swapping?
    requires a.Receive? ==> r.queue != []
  {
    match a
    case Pull => r.(pulled := r.pulled + 1, pc := Deciding(r.input[r.pulled]))
    case InputEnds => r.(pc := Done)
    case Decide(cancelled) => r.(pc := if cancelled then SendingCancel else Sending(r.pc.item))
    case Send =>
      if r.pc.SendingCancel? then r.(queue := r.queue + [Cancelled], cancelSent := true, pc := Done)
      else r.(queue := r.queue + [r.pc.item], sent := r.sent + 1, pc := if r.stats then Sampling else Pulling)
    case SendFails => r.(pc := Done)
    case Sample => r.(pc := Loading(|r.queue|))
    case Load(v) => r.(pc := Retry(r.pc.depth, v))
    case Exchange => r.(pc := Pulling)
    case ExchangeFails(v) => r.(pc := Retry(r.pc.depth, v))
    case Receive => r.(queue := r.queue[1..], received := r.received + [r.queue[0]])
    case Close => r.(closed := true, queue := [])
  }

  function Count(r: Relay, c: Counter, a: Act): Counter
    requires a.Exchange? ==> r.pc.Swapping?
  {
    match a
    case Sample => c.(depths := c.depths + {|r.queue|})
    case Exchange => c.(peak := r.pc.depth, past := c.past + {r.pc.depth})
    case _ => c
  }

  datatype Step = Step(relay: nat, act: Act)
  datatype Run = Run(steps: seq<Step>, states: seq<System>)

  function Start(input: seq<BatchResult>, capacity: nat, stats: bool): Relay {
    Relay(input, capacity, stats, 0, Pulling, [], [], false, 0, false)
  }

  predicate Initial(s: System) {
    && (forall i :: 0 <= i < |s.relays| ==>
          s.relays[i] == Start(s.relays[i].input, s.relays[i].capacity, s.relays[i].stats))
    && s.counter == Counter(0, {0}, {})
  }

  predicate StepTo(s: System, st: Step, t: System) {
    && st.relay < |s.relays|
    && Can(s.relays[st.relay], s.counter, st.act)
    && t == System(s.relays[st.relay := Next(s.relays[st.relay], st.act)], Count(s.relays[st.relay], s.counter, st.act))
  }

  predicate Legal(r: Run) {
    && |r.states| == |r.steps| + 1
    && Initial(r.states[0])
    && forall i :: 0 <= i < |r.steps| ==> StepTo(r.states[i], r.steps[i], r.states[i+1])
  }

  // ---------------------------------------------------------------- invariants

  /** Everything sent so far: a prefix of the input and perhaps a cancellation. */
  function Stream(r: Relay): seq<BatchResult>
    requires r.sent <= |r.input|
  {
    r.input[..r.sent] + if r.cancelSent then [Cancelled] else []
  }

  /** Items taken from the input and not sent. */
  function InHand(pc: Pc): nat {
    if pc.Deciding? || pc.Sending? || pc.SendingCancel? then 1 else 0
  }

  ghost predicate ChannelOk(r: Relay) {
    && r.pulled <= |r.input| && r.sent <= r.pulled
    && |r.queue| <= Bound(r.capacity)
    && (!r.closed ==> r.received + r.queue == Stream(r))
    && r.received <= Stream(r)
    && (r.closed ==> r.queue == [])
  }

  ghost predicate ProducerOk(r: Relay) {
    && r.pulled <= |r.input|
    && (r.pc != Done ==> !r.cancelSent && r.pulled == r.sent + InHand(r.pc))
    && (r.pc.Deciding? ==> r.pulled > 0 && r.pc.item == r.input[r.pulled-1])
    && (r.pc.Sending? ==> r.pulled > 0 && r.pc.item == r.input[r.pulled-1])
    && (r.pc == Done && !r.closed ==> r.cancelSent || r.sent == |r.input|)
  }

  ghost predicate CallOk(r: Relay, c: Counter) {
    && (r.pc.Loading? ==> r.pc.depth in c.depths)
    && (r.pc.Swapping? ==> r.pc.depth in c.depths && r.pc.current in c.past && r.pc.current < r.pc.depth)
  }

  ghost predicate RelayOk(r: Relay, c: Counter) {
    ChannelOk(r) && ProducerOk(r) && CallOk(r, c)
  }

  ghost predicate CounterOk(c: Counter) {
    && c.peak in c.past
    && (forall v :: v in c.past ==> v <= c.peak)
    && (c.peak == 0 || c.peak in c.depths)
  }

  /** Sending appends to what was sent, and to the queue. */
  lemma SendStep(r: Relay, c: Counter)
    requires ChannelOk(r) && ProducerOk(r) && Can(r, c, Send)
    ensures ChannelOk(Next(r, Send))
  {
    var t := Next(r, Send);
    var item := if r.pc.Sending? then r.pc.item else Cancelled;
    assert r.pc.Sending? ==> r.input[..r.sent + 1] == r.input[..r.sent] + [item];
    assert t.received + t.queue == (r.received + r.queue) + [item];
    assert Stream(t) == Stream(r) + [item];
  }

  lemma ChannelStep(r: Relay, c: Counter, a: Act)
    requires ChannelOk(r) && ProducerOk(r) && Can(r, c, a)
    ensures ChannelOk(Next(r, a))
  {
    match a
    case Send => SendStep(r, c);
    case Receive => assert Next(r, a).received + Next(r, a).queue == r.received + r.queue;
    case Close => assert r.received <= r.received + r.queue;
    case _ =>
  }

  lemma ProducerStep(r: Relay, c: Counter, a: Act)
    requires ChannelOk(r) && ProducerOk(r) && Can(r, c, a)
    ensures ProducerOk(Next(r, a))
  {
  }

  lemma CounterStep(r: Relay, c: Counter, a: Act)
    requires CounterOk(c) && CallOk(r, c) && Can(r, c, a)
    ensures CounterOk(Count(r, c, a)) && CallOk(Next(r, a), Count(r, c, a))
    ensures c.past <= Count(r, c, a).past && c.depths <= Count(r, c, a).depths
    ensures c.peak <= Count(r, c, a).peak
  {
  }

  /** The counter has not yet reached `d`, and the call that recorded it is still running. */
  ghost predicate Pending(s: System, d: nat) {
    exists i :: 0 <= i < |s.relays| && IsRecording(s.relays[i].pc, d)
  }

  predicate IsRecording(pc: Pc, d: nat) {
    (pc.Loading? && pc.depth == d) || (pc.Swapping? && pc.depth == d)
  }

  ghost predicate Accounted(s: System, d: nat) {
    && (d <= s.counter.peak || Pending(s, d))
    && exists i :: 0 <= i < |s.relays| && d <= Bound(s.relays[i].capacity)
  }

  ghost predicate SystemOk(s: System) {
    && (forall i :: 0 <= i < |s.relays| ==> RelayOk(s.relays[i], s.counter))
    && CounterOk(s.counter)
    && (forall d :: d in s.counter.depths ==> Accounted(s, d))
  }

  // ---------------------------------------------------------------- every run

  lemma OthersStayOk(r: Relay, c: Counter, d: Counter)
    requires RelayOk(r, c) && c.past <= d.past && c.depths <= d.depths
    ensures RelayOk(r, d)
  {
  }

  lemma DepthsStep(s: System, st: Step, t: System)
    requires SystemOk(s) && StepTo(s, st, t)
    ensures forall d :: d in t.counter.depths ==> Accounted(t, d)
  {
    var r, r' := s.relays[st.relay], t.relays[st.relay];
    assert RelayOk(r, s.counter);
    CounterStep(r, s.counter, st.act);
    forall d | d in t.counter.depths ensures Accounted(t, d) {
      if d in s.counter.depths {
        assert Accounted(s, d);
        var k :| 0 <= k < |s.relays| && d <= Bound(s.relays[k].capacity);
        assert d <= Bound(t.relays[k].capacity);
        if d > t.counter.peak {
          var i :| 0 <= i < |s.relays| && IsRecording(s.relays[i].pc, d);
          StillRecording(s, st, t, i, d);
        }
      } else {
        assert st.act.Sample? && d == |r.queue|;
        assert IsRecording(r'.pc, d) && d <= Bound(r'.capacity);
      }
    }
  }

  /** A call goes on until the counter has reached its depth. */
  lemma StillRecording(s: System, st: Step, t: System, i: nat, d: nat)
    requires SystemOk(s) && StepTo(s, st, t) && i < |s.relays| && IsRecording(s.relays[i].pc, d)
    requires d > t.counter.peak
    ensures IsRecording(t.relays[i].pc, d)
  {
    assert RelayOk(s.relays[i], s.counter) && CounterOk(s.counter);
  }

  lemma SystemStep(s: System, st: Step, t: System)
    requires SystemOk(s) && StepTo(s, st, t)
    ensures SystemOk(t) && s.counter.peak <= t.counter.peak
  {
    var r := s.relays[st.relay];
    assert RelayOk(r, s.counter);
    ChannelStep(r, s.counter, st.act);
    ProducerStep(r, s.counter, st.act);
    CounterStep(r, s.counter, st.act);
    DepthsStep(s, st, t);
    forall i | 0 <= i < |t.relays| ensures RelayOk(t.relays[i], t.counter) {
      if i != st.relay { OthersStayOk(s.relays[i], s.counter, t.counter); }
    }
  }

  lemma {:induction false} AlwaysOk(r: Run, n: nat)
    requires Legal(r) && n < |r.states|
    ensures SystemOk(r.states[n])
  {
    if n == 0 {
      assert Initial(r.states[0]);
    } else {
      AlwaysOk(r, n - 1);
      assert StepTo(r.states[n-1], r.steps[n-1], r.states[n]);
      SystemStep(r.states[n-1], r.steps[n-1], r.states[n]);
    }
  }

  /**
   In every interleaving a consumer has received a prefix of its input, perhaps followed by one
   cancellation and nothing after it, and the queue is within its capacity.
   */
  lemma ConsumerSeesPrefix(r: Run, n: nat, i: nat)
    requires Legal(r) && n < |r.states| && i < |r.states[n].relays|
    ensures var x := r.states[n].relays[i];
            && x.sent <= |x.input|
            && (x.received <= x.input[..x.sent] || (x.cancelSent && x.received == x.input[..x.sent] + [Cancelled]))
            && |x.queue| <= if x.capacity == 0 then 4 else x.capacity
  {
    AlwaysOk(r, n);
    var x := r.states[n].relays[i];
    assert RelayOk(x, r.states[n].counter);
    if x.cancelSent && |x.received| <= x.sent {
      assert x.received <= x.input[..x.sent] by {
        assert forall k :: 0 <= k < |x.received| ==> x.received[k] == Stream(x)[k];
      }
    }
  }

  /** The relay decided to cancel at step `m`. */
  predicate CancelledAt(r: Run, m: nat, i: nat) {
    m < |r.steps| && r.steps[m] == Step(i, Decide(true))
  }

  /**
   Once a relay has decided to cancel it sends no more of its input; it is sending the cancellation or done, and
   if it is done while its consumer listens it has sent it.
   */
  lemma {:induction false} CancelIsSent(r: Run, m: nat, n: nat, i: nat)
    requires Legal(r) && m < n < |r.states| && CancelledAt(r, m, i)
    ensures i < |r.states[m].relays| && |r.states[n].relays| == |r.states[m].relays|
    ensures var x := r.states[n].relays[i];
      && x.sent == r.states[m].relays[i].sent
      && (x.pc == SendingCancel || x.pc == Done)
      && (x.pc == Done ==> x.cancelSent || x.closed)
  {
    assert StepTo(r.states[n-1], r.steps[n-1], r.states[n]);
    if m < n - 1 { CancelIsSent(r, m, n - 1, i); }
  }

  /** A cancellation is sent only by a relay that decided to cancel. */
  lemma {:induction false} OnlyCancelledSendIt(r: Run, n: nat, i: nat)
    requires Legal(r) && n < |r.states| && i < |r.states[n].relays|
    requires r.states[n].relays[i].cancelSent || r.states[n].relays[i].pc == SendingCancel
    ensures exists m :: 0 <= m < n && CancelledAt(r, m, i)
  {
    if n > 0 {
      assert StepTo(r.states[n-1], r.steps[n-1], r.states[n]);
      var x := r.states[n-1].relays[i];
      if x.cancelSent || x.pc == SendingCancel {
        OnlyCancelledSendIt(r, n - 1, i);
      } else {
        assert CancelledAt(r, n - 1, i);
      }
    }
  }

  /** Nobody waits for ever: a relay can go on, or its consumer can take something, unless the relay is done. */
  lemma NeverStuck(r: Run, n: nat, i: nat) returns (a: Act)
    requires Legal(r) && n < |r.states| && i < |r.states[n].relays| && r.states[n].relays[i].pc != Done
    ensures Can(r.states[n].relays[i], r.states[n].counter, a) && a != Close
    ensures a == Receive ==> r.states[n].relays[i].pc.Sending? || r.states[n].relays[i].pc.SendingCancel?
  {
    AlwaysOk(r, n);
    var x, c := r.states[n].relays[i], r.states[n].counter;
    assert RelayOk(x, c) && CounterOk(c);
    match x.pc
    case Pulling => a := if x.pulled < |x.input| then Pull else InputEnds;
    case Deciding(_) => a := Decide(false);
    case Sending(_) => a := if x.closed then SendFails else if |x.queue| < Bound(x.capacity) then Send else Receive;
    case SendingCancel => a := if x.closed then SendFails else if |x.queue| < Bound(x.capacity) then Send else Receive;
    case Sampling => a := Sample;
    case Loading(_) => a := Load(c.peak);
    case Swapping(_, _) => a := ExchangeFails(c.peak);
  }

  /** A stream that ends with its consumer listening has lost nothing, unless it was cancelled. */
  lemma NothingLost(r: Run, n: nat, i: nat)
    requires Legal(r) && n < |r.states| && i < |r.states[n].relays|
    requires var x := r.states[n].relays[i]; x.pc == Done && !x.closed && x.queue == []
    ensures var x := r.states[n].relays[i];
            if x.cancelSent then x.sent <= |x.input| && x.received == x.input[..x.sent] + [Cancelled]
            else x.received == x.input
  {
    AlwaysOk(r, n);
    var x := r.states[n].relays[i];
    assert RelayOk(x, r.states[n].counter);
    assert x.received + x.queue == x.received;
    assert x.input[..|x.input|] == x.input;
  }

  lemma PeakStep(s: System, st: Step, t: System)
    requires StepTo(s, st, t) && SystemOk(s)
    ensures s.counter.peak <= t.counter.peak
  {
    CounterStep(s.relays[st.relay], s.counter, st.act);
  }

  /** The counter never goes down. */
  lemma {:induction false} PeakIsMonotone(r: Run, m: nat, n: nat)
    requires Legal(r) && m <= n < |r.states|
    ensures r.states[m].counter.peak <= r.states[n].counter.peak
  {
    if m < n {
      PeakIsMonotone(r, m, n - 1);
      AlwaysOk(r, n - 1);
      PeakStep(r.states[n-1], r.steps[n-1], r.states[n]);
    }
  }

  /** At step `m` some relay sampled its queue and found `d` items. */
  ghost predicate SampledAt(r: Run, m: nat, d: nat)
    requires |r.states| == |r.steps| + 1
  {
    && m < |r.steps| && r.steps[m].act == Sample && r.steps[m].relay < |r.states[m].relays|
    && |r.states[m].relays[r.steps[m].relay].queue| == d
  }

  /** The depths on record are exactly the lengths of queues sampled so far. */
  lemma {:induction false} DepthsAreSampled(r: Run, n: nat, d: nat)
    requires Legal(r) && n < |r.states|
    ensures d in r.states[n].counter.depths <==> exists m :: 0 <= m < n && SampledAt(r, m, d)
  {
    if n > 0 {
      DepthsAreSampled(r, n - 1, d);
      assert StepTo(r.states[n-1], r.steps[n-1], r.states[n]);
      assert d in r.states[n].counter.depths <==> d in r.states[n-1].counter.depths || SampledAt(r, n - 1, d);
    }
  }

  /** With a counter, whatever was sent is followed by a sample before the relay takes up anything else. */
  lemma SendsAreSampled(r: Run, m: nat)
    requires Legal(r) && m < |r.steps| && r.steps[m].act == Send
    ensures var i := r.steps[m].relay;
      && i < |r.states[m].relays| && i < |r.states[m+1].relays|
      && var x, y := r.states[m].relays[i], r.states[m+1].relays[i];
      && (x.pc.Sending? ==> y.pc == if x.stats then Sampling else Pulling)
      && (x.pc.Sending? ==> y.sent == x.sent + 1 && y.queue == x.queue + [x.pc.item])
      && (x.pc.SendingCancel? ==> y.pc == Done && y.cancelSent && y.queue == x.queue + [Cancelled])
  {
    assert StepTo(r.states[m], r.steps[m], r.states[m+1]);
  }

  ghost predicate IsMaximum(peak: nat, depths: set<nat>) {
    (peak in depths || peak == 0) && forall d :: d in depths ==> d <= peak
  }

  /**
   The counter never exceeds the largest capacity, and once every call has returned it is the largest
   depth that was recorded.
   */
  lemma PeakIsMaximum(r: Run, n: nat)
    requires Legal(r) && n < |r.states|
    ensures var s := r.states[n];
            && (s.counter.peak == 0 || exists i :: 0 <= i < |s.relays| && s.counter.peak <= Bound(s.relays[i].capacity))
            && ((forall d :: !Pending(s, d)) ==> IsMaximum(s.counter.peak, s.counter.depths))
  {
    AlwaysOk(r, n);
    var s := r.states[n];
    if s.counter.peak != 0 { assert Accounted(s, s.counter.peak); }
    if forall d :: !Pending(s, d) {
      forall d | d in s.counter.depths ensures d <= s.counter.peak { assert Accounted(s, d); }
    }
  }

  // ---------------------------------------------------------------- delivery

  /** Some run comes to this state. */
  ghost predicate Reaches(s: System) {
    exists r :: Legal(r) && r.states[|r.steps|] == s
  }

  lemma ReachesNext(s: System, st: Step, t: System)
    requires Reaches(s) && StepTo(s, st, t)
    ensures Reaches(t)
  {
    var r :| Legal(r) && r.states[|r.steps|] == s;
    var x := Run(r.steps + [st], r.states + [t]);
    forall i | 0 <= i < |x.steps| ensures StepTo(x.states[i], x.steps[i], x.states[i+1]) {
      if i < |r.steps| { assert StepTo(r.states[i], r.steps[i], r.states[i+1]); }
    }
    assert Legal(x) && x.states[|x.steps|] == t;
  }

  /** One relay, without a counter to record to, whose consumer has taken the first `n` items. */
  function Delivered(input: seq<BatchResult>, capacity: nat, n: nat, pc: Pc): System
    requires n <= |input|
  {
    System([Relay(input, capacity, false, n, pc, [], input[..n], false, n, false)], Counter(0, {0}, {}))
  }

  lemma DeliverOne(input: seq<BatchResult>, capacity: nat, n: nat)
    requires n < |input| && Reaches(Delivered(input, capacity, n, Pulling))
    ensures Reaches(Delivered(input, capacity, n + 1, Pulling))
  {
    var c := Counter(0, {0}, {});
    var got, item := input[..n], input[n];
    var s0 := Delivered(input, capacity, n, Pulling);
    var s1 := System([Relay(input, capacity, false, n + 1, Deciding(item), [], got, false, n, false)], c);
    var s2 := System([Relay(input, capacity, false, n + 1, Sending(item), [], got, false, n, false)], c);
    var s3 := System([Relay(input, capacity, false, n + 1, Pulling, [item], got, false, n + 1, false)], c);
    assert input[..n+1] == got + [item] && [] + [item] == [item] && [item][1..] == [];
    ReachesNext(s0, Step(0, Pull), s1);
    ReachesNext(s1, Step(0, Decide(false)), s2);
    ReachesNext(s2, Step(0, Send), s3);
    ReachesNext(s3, Step(0, Receive), Delivered(input, capacity, n + 1, Pulling));
  }

  lemma {:induction false} DeliverFirst(input: seq<BatchResult>, capacity: nat, n: nat)
    requires n <= |input|
    ensures Reaches(Delivered(input, capacity, n, Pulling))
  {
    if n == 0 {
      var r := Run([], [Delivered(input, capacity, 0, Pulling)]);
      assert Legal(r) && r.states[|r.steps|] == Delivered(input, capacity, 0, Pulling);
    } else {
      DeliverFirst(input, capacity, n - 1);
      DeliverOne(input, capacity, n - 1);
    }
  }

  /** Whatever the input and the capacity, zero included, some run delivers all of it and ends. */
  lemma DeliversAll(input: seq<BatchResult>, capacity: nat)
    ensures Reaches(Delivered(input, capacity, |input|, Done))
    ensures Delivered(input, capacity, |input|, Done).relays[0].received == input
  {
    DeliverFirst(input, capacity, |input|);
    assert input[..|input|] == input;
    var s := Delivered(input, capacity, |input|, Pulling);
    ReachesNext(s, Step(0, InputEnds), Delivered(input, capacity, |input|, Done));
  }

  /** One relay whose consumer has taken nothing while it sent `n` items. */
  function Filled(input: seq<BatchResult>, capacity: nat, n: nat): System
    requires n <= |input|
  {
    System([Relay(input, capacity, false, n, Pulling, input[..n], [], false, n, false)], Counter(0, {0}, {}))
  }

  lemma {:induction false} FillsUpTo(input: seq<BatchResult>, capacity: nat, n: nat)
    requires n <= |input| && n <= if capacity == 0 then 4 else capacity
    ensures Reaches(Filled(input, capacity, n))
  {
    if n == 0 {
      var r := Run([], [Filled(input, capacity, 0)]);
      assert Legal(r) && r.states[|r.steps|] == Filled(input, capacity, 0);
    } else {
      FillsUpTo(input, capacity, n - 1);
      FillOne(input, capacity, n - 1);
    }
  }

  lemma FillOne(input: seq<BatchResult>, capacity: nat, n: nat)
    requires n < |input| && n < (if capacity == 0 then 4 else capacity) && Reaches(Filled(input, capacity, n))
    ensures Reaches(Filled(input, capacity, n + 1))
  {
    var c := Counter(0, {0}, {});
    var q, item := input[..n], input[n];
    var s1 := System([Relay(input, capacity, false, n + 1, Deciding(item), q, [], false, n, false)], c);
    var s2 := System([Relay(input, capacity, false, n + 1, Sending(item), q, [], false, n, false)], c);
    assert input[..n+1] == q + [item];
    ReachesNext(Filled(input, capacity, n), Step(0, Pull), s1);
    ReachesNext(s1, Step(0, Decide(false)), s2);
    ReachesNext(s2, Step(0, Send), Filled(input, capacity, n + 1));
  }

  /** The capacity is not only a bound: a relay ahead of its consumer fills the channel, with four if zero was asked. */
  lemma ChannelFillsUp(input: seq<BatchResult>, capacity: nat)
    requires |input| >= if capacity == 0 then 4 else capacity
    ensures exists s :: Reaches(s) && |s.relays| == 1
              && |s.relays[0].queue| == (if capacity == 0 then 4 else capacity) && s.relays[0].capacity == capacity
  {
    var n := if capacity == 0 then 4 else capacity;
    FillsUpTo(input, capacity, n);
    assert Reaches(Filled(input, capacity, n));
  }

  // ---------------------------------------------------------------- one call

  /** The counter on its own, for a call that no other call interrupts. */
  class BackpressureStats {
    var peak: nat

    constructor ()
      ensures peak == 0
    {
      peak := 0;
    }

    /** `record_depth`, with the exchange failing `spurious` times although the counter did not change. */
    method RecordDepth(depth: nat, spurious: nat)
      modifies this
      ensures peak == if depth > old(peak) then depth else old(peak)
    {
      var current := peak;
      var left := spurious;
      while depth > current
        invariant peak == old(peak) == current
        decreases left
      {
        if left == 0 {
          peak := depth;
          break;
        }
        left := left - 1;
        current := peak;
      }
    }
  }
}
