/** One message at a time: bounded retries, the dead-letter topic, and the offset commit. */
module KafkaConsumer {
  import opened Options

  /** How one handler attempt ends; any other exception escapes the consumer. */
  datatype HandlerOutcome = Handled | UnsupportedVersion | PermanentFailure | TransientFailure | Escaped

  datatype FailureCategory = MalformedPayload | UnsupportedEventVersion | PermanentProcessingError | TransientRetriesExhausted

  datatype DeadLetter = DeadLetter(category: FailureCategory, retryCount: nat)

  const MAX_TRANSIENT_RETRIES: nat := 3

  type Attempts = nat -> HandlerOutcome

  /** The first attempt that does not end transiently, or one past the last allowed. */
  function Decisive(attempts: Attempts, from: nat): (k: nat)
    requires from <= MAX_TRANSIENT_RETRIES + 1
    ensures from <= k <= MAX_TRANSIENT_RETRIES + 1
    ensures forall i :: from <= i < k ==> attempts(i).TransientFailure?
    ensures k <= MAX_TRANSIENT_RETRIES ==> !attempts(k).TransientFailure?
    decreases MAX_TRANSIENT_RETRIES + 1 - from
  {
    if from > MAX_TRANSIENT_RETRIES || !attempts(from).TransientFailure? then from else Decisive(attempts, from + 1)
  }

  /** What a message leaves on the dead-letter topic. */
  function DeadLetterOf(wellFormed: bool, attempts: Attempts): Option<DeadLetter> {
    var k := Decisive(attempts, 0);
    if !wellFormed then Some(DeadLetter(MalformedPayload, 0))
    else if k > MAX_TRANSIENT_RETRIES then Some(DeadLetter(TransientRetriesExhausted, k))
    else match attempts(k)
      case UnsupportedVersion => Some(DeadLetter(UnsupportedEventVersion, k))
      case PermanentFailure => Some(DeadLetter(PermanentProcessingError, k))
      case _ => None
  }

  function AttemptsMade(wellFormed: bool, attempts: Attempts): (n: nat)
    ensures n <= MAX_TRANSIENT_RETRIES + 1
    ensures wellFormed ==> n >= 1
  {
    var k := Decisive(attempts, 0);
    if !wellFormed then 0 else if k > MAX_TRANSIENT_RETRIES then k else k + 1
  }

  /** The consumer returns normally unless the decisive attempt escapes. */
  predicate Returns(wellFormed: bool, attempts: Attempts) {
    var k := Decisive(attempts, 0);
    !wellFormed || k > MAX_TRANSIENT_RETRIES || !attempts(k).Escaped?
  }

  predicate HandledAt(attempts: Attempts, k: nat) {
    attempts(k).Handled? && forall i :: 0 <= i < k ==> attempts(i).TransientFailure?
  }

  /** Some attempt handles the message after only transient failures, within the retries. */
  predicate HandledInTime(wellFormed: bool, attempts: Attempts) {
    wellFormed && exists k :: 0 <= k <= MAX_TRANSIENT_RETRIES && HandledAt(attempts, k)
  }

  /** A dead letter is due exactly when the message returns without having been handled. */
  lemma DeadLetteredExactly(wellFormed: bool, attempts: Attempts)
    ensures Returns(wellFormed, attempts) ==> (DeadLetterOf(wellFormed, attempts).None? <==> HandledInTime(wellFormed, attempts))
  {
    var k := Decisive(attempts, 0);
    if HandledInTime(wellFormed, attempts) {
      var j :| 0 <= j <= MAX_TRANSIENT_RETRIES && HandledAt(attempts, j);
      assert j == k;
    } else {
      assert k <= MAX_TRANSIENT_RETRIES ==> !HandledAt(attempts, k) || !wellFormed;
    }
  }

  lemma DecisiveIs(attempts: Attempts, n: nat)
    requires n <= 4 && (forall i: nat :: i < n ==> attempts(i).TransientFailure?)
    requires n <= 3 ==> !attempts(n).TransientFailure?
    ensures Decisive(attempts, 0) == n
  {
  }

  /** How a message ends: after up to three transient failures the next attempt decides, and a fourth transient failure
      gives up; a malformed message is never attempted. */
  lemma RetriesExactly(wellFormed: bool, attempts: Attempts, n: nat)
    requires wellFormed ==> n <= 4 && (forall i: nat :: i < n ==> attempts(i).TransientFailure?)
    requires wellFormed && n <= 3 ==> !attempts(n).TransientFailure?
    ensures AttemptsMade(wellFormed, attempts) == if !wellFormed then 0 else if n <= 3 then n + 1 else 4
    ensures Returns(wellFormed, attempts) <==> !(wellFormed && n <= 3 && attempts(n).Escaped?)
    ensures !wellFormed ==> DeadLetterOf(wellFormed, attempts) == Some(DeadLetter(MalformedPayload, 0))
    ensures wellFormed && n == 4 ==> DeadLetterOf(wellFormed, attempts) == Some(DeadLetter(TransientRetriesExhausted, 4))
    ensures wellFormed && n <= 3 && attempts(n).Handled? ==> DeadLetterOf(wellFormed, attempts) == None
    ensures wellFormed && n <= 3 && attempts(n).UnsupportedVersion? ==>
      DeadLetterOf(wellFormed, attempts) == Some(DeadLetter(UnsupportedEventVersion, n))
    ensures wellFormed && n <= 3 && attempts(n).PermanentFailure? ==>
      DeadLetterOf(wellFormed, attempts) == Some(DeadLetter(PermanentProcessingError, n))
  {
    if wellFormed { DecisiveIs(attempts, n); }
  }

  class KafkaEventConsumer {
    const hasDeadLetterTopic: bool
    var commits: nat
    var calls: nat
    var deadLetters: seq<DeadLetter>

    constructor (hasDeadLetterTopic: bool)
      ensures this.hasDeadLetterTopic == hasDeadLetterTopic && commits == 0 && calls == 0 && deadLetters == []
    {
      this.hasDeadLetterTopic := hasDeadLetterTopic;
      commits, calls, deadLetters := 0, 0, [];
    }

    /** What reaches the topic: nothing without one, and nothing when publishing raises, which is only logged. */
    function Routed(letter: Option<DeadLetter>, accepted: bool): seq<DeadLetter> {
      if letter.Some? && hasDeadLetterTopic && accepted then [letter.value] else []
    }

    method ToDeadLetters(letter: DeadLetter, accepted: bool)
      modifies this`deadLetters
      ensures deadLetters == old(deadLetters) + Routed(Some(letter), accepted)
    {
      if !hasDeadLetterTopic { return; }
      if accepted { deadLetters := deadLetters + [letter]; }
    }

    /** The offset is committed whether or not the dead letter went through. */
    method GiveUp(category: FailureCategory, attempt: nat, accepted: bool)
      modifies this`deadLetters, this`commits
      ensures deadLetters == old(deadLetters) + Routed(Some(DeadLetter(category, attempt)), accepted)
      ensures commits == old(commits) + 1
    {
      ToDeadLetters(DeadLetter(category, attempt), accepted);
      commits := commits + 1;
    }

    /** A normal return commits the offset exactly once, after at most four handler attempts; an escaping
        exception commits nothing. `accepted` is whether the dead-letter publisher takes a message. The
        returned message is on record, handled or dead-lettered, unless it was not handled and the topic is
        absent or its publish failed. */
    method ProcessOne(wellFormed: bool, attempts: Attempts, accepted: bool) returns (returned: bool)
      modifies this
      ensures returned == Returns(wellFormed, attempts)
      ensures commits == old(commits) + if returned then 1 else 0
      ensures calls == old(calls) + AttemptsMade(wellFormed, attempts)
      ensures deadLetters == old(deadLetters) + Routed(DeadLetterOf(wellFormed, attempts), accepted)
      ensures returned ==> ((!HandledInTime(wellFormed, attempts) && deadLetters == old(deadLetters))
                       <==> (!HandledInTime(wellFormed, attempts) && (!hasDeadLetterTopic || !accepted)))
    {
      DeadLetteredExactly(wellFormed, attempts);
      if !wellFormed {
        GiveUp(MalformedPayload, 0, accepted);
        return true;
      }
      returned := DispatchWithRetry(attempts, accepted);
    }

    method DispatchWithRetry(attempts: Attempts, accepted: bool) returns (returned: bool)
      modifies this
      ensures returned == Returns(true, attempts)
      ensures commits == old(commits) + if returned then 1 else 0
      ensures calls == old(calls) + AttemptsMade(true, attempts)
      ensures deadLetters == old(deadLetters) + Routed(DeadLetterOf(true, attempts), accepted)
    {
      hide Decisive;
      var attempt := 0;
      while true
        invariant attempt <= MAX_TRANSIENT_RETRIES && attempt <= Decisive(attempts, 0)
        invariant commits == old(commits) && calls == old(calls) + attempt && deadLetters == old(deadLetters)
        decreases MAX_TRANSIENT_RETRIES - attempt
      {
        var outcome := attempts(attempt);
        calls := calls + 1;
        match outcome
        case Handled =>
          commits := commits + 1;
          return true;
        case UnsupportedVersion =>
          GiveUp(UnsupportedEventVersion, attempt, accepted);
          return true;
        case PermanentFailure =>
          GiveUp(PermanentProcessingError, attempt, accepted);
          return true;
        case Escaped =>
          return false;
        case TransientFailure =>
          attempt := attempt + 1;
          if attempt > MAX_TRANSIENT_RETRIES {
            GiveUp(TransientRetriesExhausted, attempt, accepted);
            return true;
          }
      }
    }
  }
}
