/**
 * The message router: resolves a message's recipient to a next-hop address,
 * hands the message to the transport stub for that address on a scheduler,
 * and reschedules it with a retry delay when the transport reports a failure.
 *
 * The scheduler is a FIFO queue of submitted tasks (`scheduled`); the
 * transport stubs are a log of the transmit calls made (`transmissions`);
 * the clock, the random source and the scheduler's accept/reject decision
 * are parameters of the operations that consult them.
 */
module MessageRouting {
  import opened Common
  import opened RoutingTypes

  /** The parts of a joynr message the router looks at; `to` is None when the header is absent. */
  datatype Message = Message(id: string, msgType: string, to: Option<string>, expiryDate: int, payload: string)

  /** Why a JoynrMessageNotSentException was raised. */
  datatype NotSentReason =
    | TtlExpired(now: int, expiryDate: int)
    | NoRouteFor(participantId: Option<string>)

  /** The exceptions the router raises, and the errors a transport hands to a failure action. */
  datatype JoynrError =
    | MessageNotSent(reason: NotSentReason)  // JoynrMessageNotSentException
    | SendBufferFull                         // JoynrSendBufferFullException
    | ShutdownInProgress                     // JoynrShutdownException
    | DelayMessage(delayMs: int)             // JoynrDelayMessageException, carrying getDelayMs()
    | TransportFailure(description: string)  // any other Throwable

  /** A dispatch task as submitted to the scheduler: what the task captures, and the delay it was scheduled with. */
  datatype Task = Task(message: Message, retriesCount: nat, delayMs: int)

  /** What a stub's transmit receives: the message itself, or its serialized form. */
  datatype Payload = Unserialized(message: Message) | Serialized(text: string)

  /** One transmit call on the stub for `address`; the failure action passed along is bound to `message` and `retriesCount`. */
  datatype Transmission = Transmission(address: Address, payload: Payload, message: Message, retriesCount: nat)

  /** One round of the failure action: the random draw used for the backoff, and whether the scheduler accepts the submission. */
  datatype Attempt = Attempt(random: real, accepted: bool)

  /** How a failure action ends. `sleptMs` lists the back-pressure sleeps taken after rejected submissions. */
  datatype FailureOutcome =
    | Dropped                                     // the error was a JoynrShutdownException: nothing is rescheduled
    | Rescheduled(delayMs: int, sleptMs: seq<int>) // a new task was submitted; `delayMs` is the delay computed for it
    | Interrupted(sleptMs: seq<int>)              // the last back-pressure sleep was interrupted
    | ShutdownRaised(sleptMs: seq<int>)           // resubmission raised JoynrShutdownException out of the failure action
    | SleepRejected(sleptMs: seq<int>)            // Thread.sleep raised IllegalArgumentException for a negative delay

  /** checkExpiry: a message may be sent only while its absolute expiry date lies strictly in the future. */
  function CheckExpiry(message: Message, now: int): (error: Option<JoynrError>)
    ensures error.None? <==> now < message.expiryDate
    ensures error.Some? ==> error.value == MessageNotSent(TtlExpired(now, message.expiryDate))
  {
    if message.expiryDate <= now then Some(MessageNotSent(TtlExpired(now, message.expiryDate))) else None
  }

  /**
   * Java's `2 ^ r` on an int: bitwise exclusive or, which flips bit 1 of `r`.
   * Written arithmetically; `/` and `%` by 2 read bit 1 of the two's-complement form for every int.
   */
  function XorTwo(r: int): (x: int)
    ensures x == r + 2 || x == r - 2
    ensures r >= 0 ==> x >= 0
  {
    if (r / 2) % 2 == 1 then r - 2 else r + 2
  }

  /** Java's `(long)` cast of a double: truncation toward zero. */
  function TruncateTowardZero(x: real): (n: int)
    ensures x >= 0.0 ==> 0 <= n && n as real <= x && x < n as real + 1.0
    ensures x < 0.0 ==> n <= 0 && x <= n as real && n as real < x + 1.0
  {
    if x >= 0.0 then x.Floor else -((-x).Floor)
  }

  /** The truncated scaled draw `(long)(p * random)` lies between 0 and `p`, never reaching a positive `p`. */
  lemma JitterBounds(p: int, random: real)
    requires 0.0 <= random < 1.0
    ensures var j := TruncateTowardZero(p as real * random);
            && (p >= 0 ==> 0 <= j <= p)
            && (p > 0 ==> j < p)
            && (p <= 0 ==> p <= j <= 0)
  {
    if p > 0 {
      PositiveJitter(p, random);
    } else if p < 0 {
      NegativeJitter(p, random);
    } else {
      assert p as real * random == 0.0;
    }
  }

  lemma PositiveJitter(p: int, random: real)
    requires p > 0 && 0.0 <= random < 1.0
    ensures 0 <= TruncateTowardZero(p as real * random) < p
  {
    var q := p as real;
    ScaledBelow(q, random);
    var j := TruncateTowardZero(q * random);
    assert j as real <= q * random;
  }

  lemma NegativeJitter(p: int, random: real)
    requires p < 0 && 0.0 <= random < 1.0
    ensures p <= TruncateTowardZero(p as real * random) <= 0
  {
    var q := (-p) as real;
    ScaledBelow(q, random);
    assert p as real * random == -(q * random);
  }

  /** Scaling a positive amount by a fraction in [0, 1) stays in [0, amount). */
  lemma ScaledBelow(q: real, random: real)
    requires q > 0.0 && 0.0 <= random < 1.0
    ensures 0.0 <= q * random < q
  {
    var rest := q * (1.0 - random);
    assert rest > 0.0;
    assert q * random + rest == q;
  }

  /**
   * exponentialBackoff(delayMs, retries) = delayMs + (long)((2 ^ retries) * delayMs * random),
   * with the XOR kept as written and `random` the draw of Math.random().
   * For a non-negative delay and retry count the result lies between `delayMs` and
   * `delayMs + XorTwo(retries) * delayMs`, strictly below the upper end when that jitter range is non-empty.
   */
  function ExponentialBackoff(delayMs: int, retries: int, random: real): (millis: int)
    requires 0.0 <= random < 1.0
    ensures var p := XorTwo(retries) * delayMs;
            && (p >= 0 ==> delayMs <= millis <= delayMs + p)
            && (p > 0 ==> millis < delayMs + p)
            && (p <= 0 ==> delayMs + p <= millis <= delayMs)
  {
    var p := XorTwo(retries) * delayMs;
    JitterBounds(p, random);
    delayMs + TruncateTowardZero(p as real * random)
  }

  /** For retry count 2 the XOR yields 0, so the backoff adds no jitter at all. */
  lemma NoJitterAtRetryTwo(delayMs: int, random: real)
    requires 0.0 <= random < 1.0
    ensures ExponentialBackoff(delayMs, 2, random) == delayMs
  {
  }

  function Pow2(n: nat): (p: nat)
    ensures p >= 1
  {
    if n == 0 then 1 else 2 * Pow2(n - 1)
  }

  /**
   * The jitter factor grows only linearly with the retry count: from the third retry on
   * it stays below the power of two that an exponential backoff would use.
   */
  lemma {:induction false} JitterFactorBelowPowerOfTwo(r: nat)
    requires r >= 3
    ensures XorTwo(r) <= r + 2 < Pow2(r)
  {
    if r > 3 {
      JitterFactorBelowPowerOfTwo(r - 1);
    }
  }

  /**
   * The delay the failure action computes for an error: the exception's own delay for a
   * JoynrDelayMessageException, otherwise the retry interval plus the exponential backoff of it.
   */
  function RetryDelay(error: JoynrError, intervalMs: int, retries: int, random: real): (delayMs: int)
    requires 0.0 <= random < 1.0
    ensures error.DelayMessage? ==> delayMs == error.delayMs
    ensures !error.DelayMessage? && intervalMs >= 0 && retries >= 0 ==>
              2 * intervalMs <= delayMs <= 2 * intervalMs + XorTwo(retries) * intervalMs
  {
    if error.DelayMessage? then error.delayMs
    else intervalMs + ExponentialBackoff(intervalMs, retries, random)
  }

  /**
   * The delay of round `k` of a failure action that was invoked with `error`: round 0 handles
   * `error` itself, every later round re-executes after a rejected submission, with the
   * JoynrSendBufferFullException as its error.
   */
  function RoundDelay(error: JoynrError, k: nat, intervalMs: int, retries: int, random: real): (delayMs: int)
    requires 0.0 <= random < 1.0
    ensures k > 0 && intervalMs >= 0 && retries >= 0 ==> delayMs >= 2 * intervalMs
  {
    RetryDelay(if k == 0 then error else SendBufferFull, intervalMs, retries, random)
  }

  /** The back-pressure sleeps a failure outcome records. */
  function Slept(outcome: FailureOutcome): seq<int>
  {
    match outcome
    case Dropped => []
    case Rescheduled(_, s) => s
    case Interrupted(s) => s
    case ShutdownRaised(s) => s
    case SleepRejected(s) => s
  }

  class MessageRouterImpl {
    const routingTable: RoutingTable
    const sendMsgRetryIntervalMs: int
    /** The serializer for an address kind (MessageSerializerFactory), which is not part of this model. */
    const serialize: (Address, Message) -> string
    /** Tasks submitted to the scheduler and not yet run, in submission order. */
    var scheduled: seq<Task>
    var isShutdown: bool
    /** Every transmit call made on a messaging stub, in order. */
    var transmissions: seq<Transmission>

    /** Every task is submitted with delay 0, whatever delay the caller computed. */
    ghost predicate Valid()
      reads this
    {
      forall k :: 0 <= k < |scheduled| ==> scheduled[k].delayMs == 0
    }

    constructor (routingTable: RoutingTable, sendMsgRetryIntervalMs: int, serialize: (Address, Message) -> string)
      ensures Valid()
      ensures this.routingTable == routingTable && this.sendMsgRetryIntervalMs == sendMsgRetryIntervalMs
      ensures this.serialize == serialize
      ensures scheduled == [] && !isShutdown && transmissions == []
    {
      this.routingTable := routingTable;
      this.sendMsgRetryIntervalMs := sendMsgRetryIntervalMs;
      this.serialize := serialize;
      scheduled := [];
      isShutdown := false;
      transmissions := [];
    }

    /** resolveNextHop: whether a route exists for the participant. */
    predicate ResolveNextHop(participantId: string): (known: bool)
      reads routingTable
      ensures known <==> participantId in routingTable.table
    {
      routingTable.ContainsKey(participantId)
    }

    /** getAddress: the next hop of the recipient, None for a missing recipient or a missing route. */
    function GetAddress(toParticipantId: Option<string>): (address: Option<Address>)
      reads routingTable
      ensures address.None? <==> toParticipantId.None? || toParticipantId.value !in routingTable.table
      ensures address.Some? ==> address.value == routingTable.table[toParticipantId.value]
    {
      if toParticipantId.Some? && routingTable.ContainsKey(toParticipantId.value)
      then Some(routingTable.Get(toParticipantId.value))
      else None
    }

    /** addNextHop (every overload): the participant's route becomes `address`, replacing any earlier one. */
    method AddNextHop(participantId: string, address: Address)
      modifies routingTable
      ensures routingTable.table == old(routingTable.table)[participantId := address]
      ensures ResolveNextHop(participantId) && GetAddress(Some(participantId)) == Some(address)
      ensures forall p :: p != participantId ==> GetAddress(Some(p)) == old(GetAddress(Some(p)))
    {
      routingTable.Put(participantId, address);
    }

    /** removeNextHop: the participant has no route afterwards; every other route is untouched. */
    method RemoveNextHop(participantId: string)
      modifies routingTable
      ensures routingTable.table == old(routingTable.table) - {participantId}
      ensures !ResolveNextHop(participantId) && GetAddress(Some(participantId)) == None
      ensures forall p :: p != participantId ==> GetAddress(Some(p)) == old(GetAddress(Some(p)))
    {
      routingTable.Remove(participantId);
    }

    /**
     * routeInternal: refuses once the scheduler is shut down, turns a rejected submission into
     * JoynrSendBufferFullException, and otherwise submits one task with delay 0; `delayMs` is not used.
     */
    method RouteInternal(message: Message, delayMs: int, retriesCount: nat, accepted: bool)
      returns (error: Option<JoynrError>)
      requires Valid()
      modifies this`scheduled
      ensures Valid()
      ensures old(isShutdown) ==> error == Some(ShutdownInProgress)
      ensures !old(isShutdown) && !accepted ==> error == Some(SendBufferFull)
      ensures error.None? <==> !isShutdown && accepted
      ensures scheduled == if error.None? then old(scheduled) + [Task(message, retriesCount, 0)] else old(scheduled)
    {
      if isShutdown {
        return Some(ShutdownInProgress);
      }
      if !accepted {
        return Some(SendBufferFull);
      }
      scheduled := scheduled + [Task(message, retriesCount, 0)];
      return None;
    }

    /** route: an expired message is refused before anything is scheduled; otherwise routeInternal with no retries. */
    method Route(message: Message, now: int, accepted: bool) returns (error: Option<JoynrError>)
      requires Valid()
      modifies this`scheduled
      ensures Valid()
      ensures message.expiryDate <= now ==>
                error == Some(MessageNotSent(TtlExpired(now, message.expiryDate))) && scheduled == old(scheduled)
      ensures now < message.expiryDate && isShutdown ==> error == Some(ShutdownInProgress) && scheduled == old(scheduled)
      ensures now < message.expiryDate && !isShutdown && !accepted ==>
                error == Some(SendBufferFull) && scheduled == old(scheduled)
      ensures error.None? <==> now < message.expiryDate && !isShutdown && accepted
      ensures error.None? ==> scheduled == old(scheduled) + [Task(message, 0, 0)]
    {
      error := CheckExpiry(message, now);
      if error.Some? {
        return;
      }
      error := RouteInternal(message, 0, 0, accepted);
    }

    /**
     * The dispatch task body, run on the oldest submitted task: re-check expiry, resolve the
     * next hop, and make exactly one transmit call, with the message itself for an in-process
     * address and with its serialized form for any other address.
     */
    method RunNextTask(now: int) returns (result: Result<Transmission, JoynrError>)
      requires Valid()
      requires scheduled != []
      modifies this`scheduled, this`transmissions
      ensures Valid()
      ensures scheduled == old(scheduled[1..])
      ensures var m := old(scheduled[0].message);
              && (m.expiryDate <= now ==> result == Err(MessageNotSent(TtlExpired(now, m.expiryDate))))
              && (now < m.expiryDate && GetAddress(m.to).None? ==> result == Err(MessageNotSent(NoRouteFor(m.to))))
              && (now < m.expiryDate && GetAddress(m.to).Some? ==>
                    var a := GetAddress(m.to).value;
                    result == Ok(Transmission(a, if a.InProcess? then Unserialized(m) else Serialized(serialize(a, m)),
                                              m, old(scheduled[0].retriesCount))))
      ensures transmissions == if result.Ok? then old(transmissions) + [result.value] else old(transmissions)
    {
      var task := scheduled[0];
      scheduled := scheduled[1..];
      var message := task.message;
      var expired := CheckExpiry(message, now);
      if expired.Some? {
        return Err(expired.value);
      }
      var address := GetAddress(message.to);
      if address.None? {
        return Err(MessageNotSent(NoRouteFor(message.to)));
      }
      var payload;
      if address.value.InProcess? {
        payload := Unserialized(message);
      } else {
        payload := Serialized(serialize(address.value, message));
      }
      var t := Transmission(address.value, payload, message, task.retriesCount);
      transmissions := transmissions + [t];
      return Ok(t);
    }

    /**
     * The failure action bound to transmission `t`, executed with `error`. A shutdown error ends it.
     * Otherwise each round computes a delay and resubmits the message with `retriesCount + 1`;
     * a rejected submission is followed by a sleep of that delay and a new round whose error is
     * the JoynrSendBufferFullException, with the same retry count. Round `k` uses `attempts[k]`;
     * when the attempts run out the last sleep counts as interrupted. A negative delay after a
     * rejected submission makes the sleep itself raise, which ends the action with nothing resubmitted.
     */
    method OnTransmitFailure(t: Transmission, error: JoynrError, attempts: seq<Attempt>)
      returns (outcome: FailureOutcome)
      requires Valid()
      requires attempts != []
      requires forall k :: 0 <= k < |attempts| ==> 0.0 <= attempts[k].random < 1.0
      modifies this`scheduled
      ensures Valid()
      ensures error.ShutdownInProgress? <==> outcome.Dropped?
      ensures outcome.Rescheduled? ==> scheduled == old(scheduled) + [Task(t.message, t.retriesCount + 1, 0)]
      ensures !outcome.Rescheduled? ==> scheduled == old(scheduled)
      ensures |Slept(outcome)| <= |attempts|
      ensures forall j :: 0 <= j < |Slept(outcome)| ==>
                !attempts[j].accepted && Slept(outcome)[j] >= 0 &&
                Slept(outcome)[j] == RoundDelay(error, j, sendMsgRetryIntervalMs, t.retriesCount, attempts[j].random)
      ensures outcome.SleepRejected? ==>
                var n := |outcome.sleptMs|;
                n < |attempts| && !attempts[n].accepted && !isShutdown &&
                RoundDelay(error, n, sendMsgRetryIntervalMs, t.retriesCount, attempts[n].random) < 0
      ensures outcome.Rescheduled? ==>
                var n := |outcome.sleptMs|;
                n < |attempts| && attempts[n].accepted &&
                outcome.delayMs == RoundDelay(error, n, sendMsgRetryIntervalMs, t.retriesCount, attempts[n].random)
      ensures outcome.Interrupted? ==> |outcome.sleptMs| == |attempts| && !isShutdown
      ensures outcome.ShutdownRaised? ==> isShutdown && outcome.sleptMs == []
      ensures !error.ShutdownInProgress? && isShutdown ==> outcome == ShutdownRaised([])
    {
      if error.ShutdownInProgress? {
        return Dropped;
      }
      var slept: seq<int> := [];
      var k := 0;
      while k < |attempts|
        invariant 0 <= k <= |attempts| && |slept| == k
        invariant k > 0 ==> !isShutdown
        invariant scheduled == old(scheduled)
        invariant forall j :: 0 <= j < k ==>
                    !attempts[j].accepted && slept[j] >= 0 &&
                    slept[j] == RoundDelay(error, j, sendMsgRetryIntervalMs, t.retriesCount, attempts[j].random)
      {
        var delayMs := RoundDelay(error, k, sendMsgRetryIntervalMs, t.retriesCount, attempts[k].random);
        var submitError := RouteInternal(t.message, delayMs, t.retriesCount + 1, attempts[k].accepted);
        if submitError.None? {
          return Rescheduled(delayMs, slept);
        }
        if submitError == Some(ShutdownInProgress) {
          return ShutdownRaised(slept);
        }
        if delayMs < 0 {
          return SleepRejected(slept);
        }
        slept := slept + [delayMs];
        k := k + 1;
      }
      return Interrupted(slept);
    }

    /** shutdown: later submissions are refused. */
    method Shutdown()
      modifies this`isShutdown
      ensures isShutdown
    {
      isShutdown := true;
    }
  }

  /** A route to an in-process participant: one transmit of the unserialized message. */
  method InProcessDeliveryScenario(now: int)
  {
    var table := new RoutingTable();
    var router := new MessageRouterImpl(table, 1000, (a, m) => "serialized");
    router.AddNextHop("P1", InProcess);
    var m := Message("9f0c2a4e-1b3d-4c5e-8f6a-7b8c9d0e1f2a-1", "request", Some("P1"), now + 10000, "payload");
    var error := router.Route(m, now, true);
    assert error == None && router.scheduled == [Task(m, 0, 0)];
    var result := router.RunNextTask(now);
    assert result == Ok(Transmission(InProcess, Unserialized(m), m, 0));
    assert |router.transmissions| == 1;
  }

  /** A route to a remote participant: one transmit of the serialized message; later the route is removed twice. */
  method RemoteDeliveryScenario(now: int)
  {
    var table := new RoutingTable();
    var router := new MessageRouterImpl(table, 1000, (a, m) => "serialized");
    router.AddNextHop("P2", Channel("c1"));
    router.AddNextHop("P2", WebSocketClient("w1"));
    assert router.GetAddress(Some("P2")) == Some(WebSocketClient("w1"));
    var m := Message("9f0c2a4e-1b3d-4c5e-8f6a-7b8c9d0e1f2a-2", "request", Some("P2"), now + 10000, "payload");
    var error := router.Route(m, now, true);
    var result := router.RunNextTask(now);
    assert result == Ok(Transmission(WebSocketClient("w1"), Serialized("serialized"), m, 0));
    router.RemoveNextHop("P2");
    router.RemoveNextHop("P2");
    assert !router.ResolveNextHop("P2");
    error := router.Route(m, now, true);
    result := router.RunNextTask(now);
    assert result == Err(MessageNotSent(NoRouteFor(Some("P2"))));
    assert |router.transmissions| == 1;
  }
}
