/**
  The producer loop (`stream_data`): for ten seconds after it starts, fetch
  a user, format it and publish it on the `user_stream` topic; a tick that
  fails at any of the three steps is logged and the loop carries on.
 */
module Stream {
  import opened Wrappers
  import opened PyJson
  import opened Record
  import opened Format

  /** The topic every message is published on. */
  const TOPIC: string := "user_stream"

  /** How long the loop keeps starting iterations, in milliseconds of wall-clock time. */
  const WINDOW_MS: int := 10000

  /**
    What one iteration meets in the outside world: the decoded HTTP response
    (None when the request or its decoding raised), the identifier uuid4
    returns, and whether handing the message to the producer succeeded.
   */
  datatype Tick = Tick(response: Option<Json>, uuid: string, sendOk: bool)

  /** A clock reading taken at the deadline check, and the tick that follows it if the check passes. */
  datatype Step = Step(now: int, tick: Tick)

  datatype TickError = FetchFailed | FormatFailed(cause: FormatError) | SendFailed

  datatype Message = Message(topic: string, record: UserRecord)

  /** How one iteration ended: the message `producer.send` accepted, or the step that raised. */
  type Outcome = Result<Message, TickError>

  /** One log line per iteration: the info line of a sent message or the error line of a failed tick. */
  datatype LogEntry = Sent | Failed(error: TickError)

  /** The deadline check: the reading is past the start by more than the window. */
  predicate Expired(start: int, now: int) {
    now > start + WINDOW_MS
  }

  /**
    The comparison is strict, so a reading exactly ten seconds after the
    start still lets an iteration begin; and once a reading is past the
    deadline, every later reading is too.
   */
  lemma ExpiredIsStrict(start: int)
    ensures !Expired(start, start + WINDOW_MS) && Expired(start, start + WINDOW_MS + 1)
    ensures forall now, later :: Expired(start, now) && now <= later ==> Expired(start, later)
  {
  }

  /**
    The body of the try block for one tick: fetch, format, send. The result
    is the message `producer.send` accepted, or the first step that raised.
   */
  function RunTick(t: Tick): Outcome {
    match t.response
    case None => Err(FetchFailed)
    case Some(body) =>
      match FirstResult(body)
      case None => Err(FetchFailed)
      case Some(user) =>
        match FormatData(user, t.uuid)
        case Err(e) => Err(FormatFailed(e))
        case Ok(record) => if t.sendOk then Ok(Message(TOPIC, record)) else Err(SendFailed)
  }

  /**
    A tick sends exactly when the response holds a user, the user formats
    and the send succeeds; the message is then addressed to the topic and
    carries that user's record, stamped with the tick's identifier. A tick
    that fails reports the first step that raised.
   */
  lemma RunTickSpec(t: Tick)
    ensures RunTick(t).Ok? <==>
      && t.response.Some?
      && FirstResult(t.response.value).Some?
      && FormatData(FirstResult(t.response.value).value, t.uuid).Ok?
      && t.sendOk
    ensures RunTick(t).Ok? ==>
      && RunTick(t).value.topic == TOPIC
      && RunTick(t).value.record == FormatData(FirstResult(t.response.value).value, t.uuid).value
      && RunTick(t).value.record.id == t.uuid
    ensures (t.response.None? || FirstResult(t.response.value).None?) ==> RunTick(t) == Err(FetchFailed)
    ensures t.response.Some? && FirstResult(t.response.value).Some? ==>
      match FormatData(FirstResult(t.response.value).value, t.uuid)
      case Err(e) => RunTick(t) == Err(FormatFailed(e))
      case Ok(_) => t.sendOk || RunTick(t) == Err(SendFailed)
  {
  }

  /** The log line of an iteration. */
  function EntryOf(o: Outcome): LogEntry {
    if o.Ok? then Sent else Failed(o.error)
  }

  /** The outcomes of running `run` on each step's tick, in order. */
  function MapTicks(run: Tick -> Outcome, steps: seq<Step>): (os: seq<Outcome>)
    ensures |os| == |steps|
    decreases |steps|
  {
    if steps == [] then []
    else MapTicks(run, steps[..|steps| - 1]) + [run(steps[|steps| - 1].tick)]
  }

  /** The k-th outcome is that of the k-th tick. */
  lemma {:induction false} MapTicksAt(run: Tick -> Outcome, steps: seq<Step>, k: nat)
    requires k < |steps|
    ensures MapTicks(run, steps)[k] == run(steps[k].tick)
    decreases |steps|
  {
    var init := steps[..|steps| - 1];
    if k < |init| {
      MapTicksAt(run, init, k);
      assert init[k] == steps[k];
    }
  }

  /** The outcomes of the iterations that run the given steps' ticks, in order. */
  function Outcomes(steps: seq<Step>): (os: seq<Outcome>)
    ensures |os| == |steps|
  {
    MapTicks(RunTick, steps)
  }

  /** The messages `producer.send` accepted over a run: those of the successful iterations, in order. */
  function SentMessages(os: seq<Outcome>): seq<Message>
    decreases |os|
  {
    if os == [] then []
    else SentMessages(os[..|os| - 1]) + (if os[|os| - 1].Ok? then [os[|os| - 1].value] else [])
  }

  /** The log lines over a run: one per iteration, each about that iteration alone. */
  function Logged(os: seq<Outcome>): seq<LogEntry> {
    seq(|os|, k requires 0 <= k < |os| => EntryOf(os[k]))
  }

  /**
    The log has one line per iteration: "sent" for an iteration that
    succeeded, and the failing step for one that did not.
   */
  lemma LoggedPerTick(os: seq<Outcome>)
    ensures |Logged(os)| == |os|
    ensures forall k :: 0 <= k < |os| ==> (Logged(os)[k] == Sent <==> os[k].Ok?)
    ensures forall k :: 0 <= k < |os| && os[k].Err? ==> Logged(os)[k] == Failed(os[k].error)
  {
  }

  /** The k-th outcome of a run is the outcome of the k-th tick. */
  lemma OutcomeAt(steps: seq<Step>, k: nat)
    requires k < |steps|
    ensures Outcomes(steps)[k] == RunTick(steps[k].tick)
  {
    MapTicksAt(RunTick, steps, k);
  }

  /** One more iteration adds its outcome. */
  lemma OutcomesExtend(steps: seq<Step>, n: nat)
    requires n < |steps|
    ensures Outcomes(steps[..n + 1]) == Outcomes(steps[..n]) + [RunTick(steps[n].tick)]
  {
    assert steps[..n + 1][..n] == steps[..n];
  }

  /** One more iteration adds its message, if it has one, and its log line. */
  lemma RunOneMore(done: seq<Outcome>, o: Outcome)
    ensures SentMessages(done + [o]) == SentMessages(done) + (if o.Ok? then [o.value] else [])
    ensures Logged(done + [o]) == Logged(done) + [EntryOf(o)]
  {
    assert (done + [o])[..|done|] == done;
  }

  /** Some reading in `steps` is past the deadline. */
  predicate ClockPasses(start: int, steps: seq<Step>) {
    exists k :: 0 <= k < |steps| && Expired(start, steps[k].now)
  }

  /** The position of the first reading past the deadline. */
  function PassedAt(start: int, steps: seq<Step>): (k: nat)
    requires ClockPasses(start, steps)
    ensures k < |steps| && Expired(start, steps[k].now)
    ensures forall j :: 0 <= j < k ==> !Expired(start, steps[j].now)
  {
    if Expired(start, steps[0].now) then 0
    else
      assert ClockPasses(start, steps[1..]) by {
        var k :| 0 <= k < |steps| && Expired(start, steps[k].now);
        assert steps[1..][k - 1] == steps[k];
      }
      PassedAt(start, steps[1..]) + 1
  }

  /** The positions of the iterations that succeeded, in increasing order. */
  function Successes(os: seq<Outcome>): seq<nat>
    decreases |os|
  {
    if os == [] then []
    else Successes(os[..|os| - 1]) + (if os[|os| - 1].Ok? then [|os| - 1] else [])
  }

  /** The recorded positions are in range and strictly increasing. */
  lemma {:induction false} SuccessesAscending(os: seq<Outcome>)
    ensures forall j :: 0 <= j < |Successes(os)| ==> Successes(os)[j] < |os|
    ensures forall i, j :: 0 <= i < j < |Successes(os)| ==> Successes(os)[i] < Successes(os)[j]
    decreases |os|
  {
    if os != [] {
      SuccessesAscending(os[..|os| - 1]);
    }
  }

  /** A position is recorded exactly when its iteration succeeded. */
  lemma {:induction false} SuccessesExact(os: seq<Outcome>)
    ensures forall k :: 0 <= k < |os| ==> (k in Successes(os) <==> os[k].Ok?)
    decreases |os|
  {
    if os != [] {
      var init := os[..|os| - 1];
      SuccessesExact(init);
      SuccessesAscending(init);
      var tail := if os[|os| - 1].Ok? then [|os| - 1] else [];
      assert Successes(os) == Successes(init) + tail;
      forall k | 0 <= k < |os| ensures k in Successes(os) <==> os[k].Ok? {
        if k < |init| {
          assert init[k] == os[k];
          assert k !in tail;
        } else {
          assert k !in Successes(init);
        }
      }
    }
  }

  /**
    The sent messages are exactly the messages of the successful iterations,
    one each, in iteration order.
   */
  lemma {:induction false} SentMessagesAtSuccesses(os: seq<Outcome>)
    ensures |SentMessages(os)| == |Successes(os)|
    ensures forall j :: 0 <= j < |Successes(os)| ==>
              Successes(os)[j] < |os| && os[Successes(os)[j]].Ok? &&
              SentMessages(os)[j] == os[Successes(os)[j]].value
    decreases |os|
  {
    if os != [] {
      var init := os[..|os| - 1];
      SentMessagesAtSuccesses(init);
      SuccessesAscending(init);
      assert forall k :: 0 <= k < |init| ==> init[k] == os[k];
    }
  }

  /** The tick formats a user: its response holds one and the projection succeeds. */
  predicate Formats(t: Tick) {
    && t.response.Some?
    && FirstResult(t.response.value).Some?
    && FormatData(FirstResult(t.response.value).value, t.uuid).Ok?
  }

  /** The record a tick formats, stamped with the tick's identifier. */
  function FormattedRecord(t: Tick): UserRecord
    requires Formats(t)
  {
    FormatData(FirstResult(t.response.value).value, t.uuid).value
  }

  /**
    `sent` is, one message each and in tick order, the records of exactly
    those ticks of `steps` that formatted a user and sent it, each addressed
    to the producer's topic.
   */
  predicate SentInTickOrder(steps: seq<Step>, sent: seq<Message>) {
    var wins := Successes(Outcomes(steps));
    && |sent| == |wins|
    && (forall i, j :: 0 <= i < j < |wins| ==> wins[i] < wins[j])
    && (forall k :: 0 <= k < |steps| ==> (k in wins <==> Formats(steps[k].tick) && steps[k].tick.sendOk))
    && (forall j :: 0 <= j < |wins| ==>
          && wins[j] < |steps| && Formats(steps[wins[j]].tick)
          && sent[j] == Message(TOPIC, FormattedRecord(steps[wins[j]].tick)))
  }

  /** The messages of any run are the formatted records of its successful ticks, in tick order. */
  lemma SentAreFormattedRecords(steps: seq<Step>)
    ensures SentInTickOrder(steps, SentMessages(Outcomes(steps)))
  {
    var os := Outcomes(steps);
    var wins := Successes(os);
    var sent := SentMessages(os);
    SentMessagesAtSuccesses(os);
    SuccessesAscending(os);
    SuccessesExact(os);
    forall k | 0 <= k < |steps|
      ensures os[k].Ok? <==> Formats(steps[k].tick) && steps[k].tick.sendOk
      ensures os[k].Ok? ==> os[k].value == Message(TOPIC, FormattedRecord(steps[k].tick))
    {
      OutcomeAt(steps, k);
      RunTickSpec(steps[k].tick);
    }
    forall j | 0 <= j < |wins|
      ensures wins[j] < |steps| && Formats(steps[wins[j]].tick)
      ensures sent[j] == Message(TOPIC, FormattedRecord(steps[wins[j]].tick))
    {
    }
  }

  /**
    The try block of one iteration: fetch, format and send; the message the
    producer accepted, if every step succeeded, and the line logged.
   */
  method TryTick(tick: Tick) returns (message: Option<Message>, entry: LogEntry)
    ensures message.Some? <==> RunTick(tick).Ok?
    ensures message.Some? ==> message.value == RunTick(tick).value
    ensures entry == EntryOf(RunTick(tick))
  {
    message := None;
    if tick.response.None? {
      entry := Failed(FetchFailed);
      return;
    }
    var user := FirstResult(tick.response.value);
    if user.None? {
      entry := Failed(FetchFailed);
      return;
    }
    var record := FormatData(user.value, tick.uuid);
    if record.Err? {
      entry := Failed(FormatFailed(record.error));
    } else if !tick.sendOk {
      entry := Failed(SendFailed);
    } else {
      message := Some(Message(TOPIC, record.value));
      entry := Sent;
    }
  }

  /**
    `stream_data`. `producerUp` says whether creating the producer succeeded
    (it raises before the loop otherwise); `start` is the clock reading taken
    before the loop, `steps` the readings of the deadline checks with the
    ticks that follow them. The loop runs exactly the ticks before the first
    expired reading; each sends at most one message and logs one line.
   */
  method StreamData(producerUp: bool, start: int, steps: seq<Step>)
    returns (started: bool, n: nat, sent: seq<Message>, log: seq<LogEntry>)
    requires producerUp ==> ClockPasses(start, steps)
    ensures started == producerUp
    ensures !started ==> n == 0
    ensures started ==> n < |steps| && Expired(start, steps[n].now)
    ensures forall k :: 0 <= k < n ==> !Expired(start, steps[k].now)
    ensures sent == SentMessages(Outcomes(steps[..n]))
    ensures log == Logged(Outcomes(steps[..n]))
    ensures SentInTickOrder(steps[..n], sent)
  {
    started, n, sent, log := false, 0, [], [];
    if !producerUp {
      SentAreFormattedRecords(steps[..0]);
      return;
    }
    started := true;
    ghost var deadline := PassedAt(start, steps);
    while true
      invariant n <= deadline
      invariant forall k :: 0 <= k < n ==> !Expired(start, steps[k].now)
      invariant sent == SentMessages(Outcomes(steps[..n]))
      invariant log == Logged(Outcomes(steps[..n]))
      decreases deadline - n
    {
      if Expired(start, steps[n].now) {
        break;
      }
      sent, log := Iterate(steps, n, sent, log);
      n := n + 1;
    }
    SentAreFormattedRecords(steps[..n]);
  }

  /** One pass of the loop body after a passed deadline check: the try block for the n-th tick. */
  method Iterate(steps: seq<Step>, n: nat, sent: seq<Message>, log: seq<LogEntry>)
    returns (sent': seq<Message>, log': seq<LogEntry>)
    requires n < |steps|
    requires sent == SentMessages(Outcomes(steps[..n])) && log == Logged(Outcomes(steps[..n]))
    ensures sent' == SentMessages(Outcomes(steps[..n + 1])) && log' == Logged(Outcomes(steps[..n + 1]))
  {
    var message, entry := TryTick(steps[n].tick);
    sent', log' := sent, log + [entry];
    if message.Some? {
      sent' := sent + [message.value];
    }
    OutcomesExtend(steps, n);
    RunOneMore(Outcomes(steps[..n]), RunTick(steps[n].tick));
  }

  /** Two stretches of iterations one after the other send what each sends, in order. */
  lemma {:induction false} SentAppend(a: seq<Outcome>, b: seq<Outcome>)
    ensures SentMessages(a + b) == SentMessages(a) + SentMessages(b)
    decreases |b|
  {
    if b == [] {
      assert a + b == a;
    } else {
      var b' := b[..|b| - 1];
      assert (a + b)[..|a + b| - 1] == a + b';
      assert (a + b)[|a + b| - 1] == b[|b| - 1];
      SentAppend(a, b');
    }
  }

  /** A failed iteration neither stops the run nor changes what the other iterations send. */
  lemma FailedTickIsolated(a: seq<Outcome>, o: Outcome, b: seq<Outcome>)
    requires o.Err?
    ensures SentMessages(a + [o] + b) == SentMessages(a + b)
  {
    SentAppend(a + [o], b);
    SentAppend(a, b);
    RunOneMore(a, o);
  }

  /** Iterations that all fail send nothing. */
  lemma {:induction false} NothingSent(os: seq<Outcome>)
    requires forall k :: 0 <= k < |os| ==> os[k].Err?
    ensures SentMessages(os) == []
    decreases |os|
  {
    if os != [] {
      NothingSent(os[..|os| - 1]);
    }
  }

  /**
    A broker outage that makes several iterations fail, followed by one good
    iteration, leaves exactly that iteration's message sent.
   */
  lemma OutageThenRecovery(failing: seq<Outcome>, o: Outcome)
    requires forall k :: 0 <= k < |failing| ==> failing[k].Err?
    requires o.Ok?
    ensures SentMessages(failing + [o]) == [o.value]
  {
    NothingSent(failing);
    RunOneMore(failing, o);
  }

  // ---- The topic the consumer reads ----

  /** The topic the streaming consumer subscribes to. */
  const CONSUMER_TOPIC: string := "users_created"

  /** The messages, out of those the producer accepted, that are addressed to `topic`, in order. */
  function AddressedTo(topic: string, sent: seq<Message>): (got: seq<Message>)
    ensures |got| <= |sent|
    ensures forall j :: 0 <= j < |got| ==> got[j].topic == topic
    decreases |sent|
  {
    if sent == [] then []
    else AddressedTo(topic, sent[..|sent| - 1]) + (if sent[|sent| - 1].topic == topic then [sent[|sent| - 1]] else [])
  }

  /** A message is kept exactly when it is among those sent and addressed to `topic`. */
  lemma {:induction false} AddressedToMembers(topic: string, sent: seq<Message>)
    ensures forall m :: m in AddressedTo(topic, sent) <==> m in sent && m.topic == topic
    decreases |sent|
  {
    if sent != [] {
      var init, last := sent[..|sent| - 1], sent[|sent| - 1];
      AddressedToMembers(topic, init);
      assert sent == init + [last];
      assert AddressedTo(topic, sent) == AddressedTo(topic, init) + (if last.topic == topic then [last] else []);
    }
  }

  /** Every message the producer accepts during a run of the loop is addressed to the producer's topic. */
  lemma {:induction false} SentToProducerTopic(steps: seq<Step>)
    ensures forall j :: 0 <= j < |SentMessages(Outcomes(steps))| ==> SentMessages(Outcomes(steps))[j].topic == TOPIC
    decreases |steps|
  {
    if steps != [] {
      var n := |steps| - 1;
      assert steps[..n + 1] == steps;
      SentToProducerTopic(steps[..n]);
      OutcomesExtend(steps, n);
      RunOneMore(Outcomes(steps[..n]), RunTick(steps[n].tick));
      RunTickSpec(steps[n].tick);
    }
  }

  /** Of messages all addressed elsewhere, none is addressed to `topic`. */
  lemma {:induction false} NoneAddressedTo(topic: string, sent: seq<Message>)
    requires forall j :: 0 <= j < |sent| ==> sent[j].topic != topic
    ensures AddressedTo(topic, sent) == []
    decreases |sent|
  {
    if sent != [] {
      NoneAddressedTo(topic, sent[..|sent| - 1]);
    }
  }

  /** Of messages all addressed to `topic`, every one is kept, in order. */
  lemma {:induction false} AllAddressedTo(topic: string, sent: seq<Message>)
    requires forall j :: 0 <= j < |sent| ==> sent[j].topic == topic
    ensures AddressedTo(topic, sent) == sent
    decreases |sent|
  {
    if sent != [] {
      AllAddressedTo(topic, sent[..|sent| - 1]);
    }
  }

  /**
    As written, the consumer subscribes to a topic the producer never
    addresses: whatever a run sends, none of it is addressed to that topic.
   */
  lemma NoneAddressedToConsumerTopic(steps: seq<Step>)
    ensures CONSUMER_TOPIC != TOPIC
    ensures AddressedTo(CONSUMER_TOPIC, SentMessages(Outcomes(steps))) == []
  {
    assert |CONSUMER_TOPIC| != |TOPIC|;
    SentToProducerTopic(steps);
    NoneAddressedTo(CONSUMER_TOPIC, SentMessages(Outcomes(steps)));
  }

  /**
    Every message the producer accepts during a run is addressed to the
    producer's own topic, in the order sent; that is the topic the consumer
    evidently means to read.
   */
  lemma AllAddressedToProducerTopic(steps: seq<Step>)
    ensures AddressedTo(TOPIC, SentMessages(Outcomes(steps))) == SentMessages(Outcomes(steps))
  {
    SentToProducerTopic(steps);
    AllAddressedTo(TOPIC, SentMessages(Outcomes(steps)));
  }
}
