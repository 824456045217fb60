/** The three publishing endpoints: a batch of numbered messages, one message, and a
    custom index range. Each loop builds `key-i` / `prefix-i`, submits it, and counts a
    submission that does not throw as a success and one that throws as a failure. */
module Controller {
  import opened Java
  import opened Dispatch
  import opened Requests
  import opened Producer
  import Decimal

  /** The body of a completed batch or range: the `totalRequested`, `successCount`,
      `failureCount` and `status: "Completed"` entries of the response map. */
  datatype Report = Completed(totalRequested: int, successCount: nat, failureCount: nat)

  /** A response entity: 200 with a body, 400 or 500 with a plain-text body. */
  datatype Response<B> = Ok(body: B) | BadRequest(text: string) | InternalServerError(text: string)

  /** What a handler does: return a response, or let an exception escape to the framework. */
  datatype Handled<B> = Responds(response: Response<B>) | Raises(message: string)

  const InvalidCountText: string := "Number of messages must be greater than 0"
  const SingleSentText: string := "Message sent to Kafka"
  const SingleFailedPrefix: string := "Failed to send message: "

  /** The report for a loop that was asked for `total` messages and made `calls`. */
  function Tally(total: int, calls: seq<Call>): (r: Report)
    ensures r.successCount + r.failureCount == |calls|
    ensures r.failureCount == 0 <==> forall j :: 0 <= j < |calls| ==> calls[j].outcome.Returned?
  {
    TallyAddsUp(calls);
    NoRejectedIffAllReturned(calls);
    Completed(total, Accepted(calls), Rejected(calls))
  }

  /** `after` is `before` followed by calls whose messages are exactly `expected`. */
  ghost predicate Dispatched(before: seq<Call>, after: seq<Call>, expected: seq<Message>) {
    |before| <= |after| && after[..|before|] == before && Messages(after[|before|..]) == expected
  }

  /** The calls made since `before`, given that `after` extends it. */
  ghost function Since(before: seq<Call>, after: seq<Call>): seq<Call>
    requires |before| <= |after|
  {
    after[|before|..]
  }

  class KafkaController {
    const kafkaProducer: KafkaProducer

    constructor (kafkaProducer: KafkaProducer)
      ensures this.kafkaProducer == kafkaProducer
    {
      this.kafkaProducer := kafkaProducer;
    }

    /** `publishMessages`: rejects a non-positive count before any call; otherwise
        submits the messages for 1, ..., numberOfMessages in order and reports the
        counters. */
    method PublishMessages(topic: string, key: string, messagePrefix: string, numberOfMessages: int)
      returns (r: Response<Report>)
      requires IsInt32(numberOfMessages)
      modifies kafkaProducer
      ensures numberOfMessages <= 0 ==>
        r == BadRequest(InvalidCountText) && kafkaProducer.log == old(kafkaProducer.log)
      ensures numberOfMessages > 0 ==>
        && Dispatched(old(kafkaProducer.log), kafkaProducer.log,
                      RangeMessages(topic, key, messagePrefix, 1, numberOfMessages))
        && r == Ok(Tally(numberOfMessages, Since(old(kafkaProducer.log), kafkaProducer.log)))
      ensures r.Ok? ==>
        && |kafkaProducer.log| == |old(kafkaProducer.log)| + numberOfMessages
        && r.body.totalRequested == numberOfMessages
        && r.body.successCount + r.body.failureCount == numberOfMessages
    {
      if numberOfMessages <= 0 {
        return BadRequest(InvalidCountText);
      }
      var successCount, failureCount := 0, 0;
      ghost var sent: seq<Call> := [];
      var i := 0;
      while i < numberOfMessages
        invariant 0 <= i <= numberOfMessages
        invariant kafkaProducer.log == old(kafkaProducer.log) + sent
        invariant Messages(sent) == RangeMessages(topic, key, messagePrefix, 1, i)
        invariant successCount == Accepted(sent) && failureCount == Rejected(sent)
      {
        var message := FormatSuffixed(messagePrefix, i + 1);
        var messageKey := FormatSuffixed(key, i + 1);
        var outcome := kafkaProducer.SendMessageAsync(topic, messageKey, message);
        AppendCall(sent, Call(Message(topic, messageKey, message), outcome));
        sent := sent + [Call(Message(topic, messageKey, message), outcome)];
        if outcome.Returned? {
          successCount := successCount + 1;
        } else {
          failureCount := failureCount + 1;
        }
        i := i + 1;
      }
      assert Since(old(kafkaProducer.log), kafkaProducer.log) == sent;
      RangeMessagesAt(topic, key, messagePrefix, 1, numberOfMessages);
      r := Ok(Completed(numberOfMessages, successCount, failureCount));
    }

    /** `publishSingleMessage`: one call with the arguments unchanged; 200 when it
        returns, 500 carrying the exception's message when it throws. */
    method PublishSingleMessage(topic: string, key: string, message: string) returns (r: Response<string>)
      modifies kafkaProducer
      ensures Dispatched(old(kafkaProducer.log), kafkaProducer.log, [Message(topic, key, message)])
      ensures var outcome := kafkaProducer.log[|kafkaProducer.log| - 1].outcome;
        && (r.Ok? <==> outcome.Returned?)
        && (outcome.Returned? ==> r == Ok(SingleSentText))
        && (outcome.Threw? ==> r == InternalServerError(SingleFailedPrefix + outcome.message))
    {
      var outcome := kafkaProducer.SendMessageAsync(topic, key, message);
      assert Since(old(kafkaProducer.log), kafkaProducer.log) == [Call(Message(topic, key, message), outcome)];
      match outcome
      case Returned => r := Ok(SingleSentText);
      case Threw(e) => r := InternalServerError(SingleFailedPrefix + e);
    }

    /** `publishCustomMessages`: the framework has checked the declared constraints;
        `validate()` then rejects an inverted range before any call, and otherwise the
        messages for startIndex, ..., endIndex are submitted in order. */
    method PublishCustomMessages(request: CustomMessageRequest) returns (r: Handled<Report>)
      requires Valid(request) && WellTyped(request)
      modifies kafkaProducer
      ensures Validate(request).Threw? ==>
        r == Raises(Validate(request).message) && kafkaProducer.log == old(kafkaProducer.log)
      ensures Validate(request) == Returned ==>
        && Dispatched(old(kafkaProducer.log), kafkaProducer.log,
                      RangeMessages(request.topic, request.key, request.messagePrefix,
                                    request.startIndex, request.endIndex))
        && r == Responds(Ok(Tally(request.endIndex - request.startIndex + 1,
                                  Since(old(kafkaProducer.log), kafkaProducer.log))))
      ensures r.Responds? ==>
        && r.response.Ok?
        && r.response.body.totalRequested == request.endIndex - request.startIndex + 1
        && |kafkaProducer.log| == |old(kafkaProducer.log)| + r.response.body.totalRequested
        && r.response.body.successCount + r.response.body.failureCount == r.response.body.totalRequested
    {
      var validation := Validate(request);
      if validation.Threw? {
        return Raises(validation.message);
      }
      var topic, key, messagePrefix := request.topic, request.key, request.messagePrefix;
      var startIndex, endIndex := request.startIndex, request.endIndex;
      var successCount, failureCount := 0, 0;
      ghost var sent: seq<Call> := [];
      var i := startIndex;
      while i <= endIndex
        invariant startIndex <= i <= endIndex + 1
        invariant kafkaProducer.log == old(kafkaProducer.log) + sent
        invariant Messages(sent) == RangeMessages(topic, key, messagePrefix, startIndex, i - 1)
        invariant successCount == Accepted(sent) && failureCount == Rejected(sent)
      {
        var message := FormatSuffixed(messagePrefix, i);
        var messageKey := FormatSuffixed(key, i);
        var outcome := kafkaProducer.SendMessageAsync(topic, messageKey, message);
        AppendCall(sent, Call(Message(topic, messageKey, message), outcome));
        sent := sent + [Call(Message(topic, messageKey, message), outcome)];
        if outcome.Returned? {
          successCount := successCount + 1;
        } else {
          failureCount := failureCount + 1;
        }
        i := i + 1;
      }
      assert Since(old(kafkaProducer.log), kafkaProducer.log) == sent;
      RangeMessagesAt(topic, key, messagePrefix, startIndex, endIndex);
      r := Responds(Ok(Completed(endIndex - startIndex + 1, successCount, failureCount)));
    }
  }

  /** `validate()` lets through exactly the requests whose range holds at least one
      message. */
  lemma ValidateAcceptsNonEmptyRanges(request: CustomMessageRequest)
    ensures Validate(request) == Returned <==>
      RangeMessages(request.topic, request.key, request.messagePrefix,
                    request.startIndex, request.endIndex) != []
  {
  }

  /** The value of the custom loop's `i` after k executions of `i++` in Java `int`
      arithmetic, starting from `start`. */
  function RangeLoopIndex(start: int, k: nat): (i: int)
    requires IsInt32(start)
    ensures IsInt32(i)
  {
    if k == 0 then start else WrapInt32(RangeLoopIndex(start, k - 1) + 1)
  }

  /** As long as no increment passes `Integer.MAX_VALUE`, the loop index is start + k. */
  lemma {:induction false} RangeLoopIndexNoWrap(start: int, k: nat)
    requires IsInt32(start) && start + k <= Int32Max
    ensures RangeLoopIndex(start, k) == start + k
  {
    if k > 0 {
      RangeLoopIndexNoWrap(start, k - 1);
    }
  }

  /** As written, with `endIndex == Integer.MAX_VALUE` the guard `i <= endIndex` holds
      on every pass, and the increment after the index `Integer.MAX_VALUE` wraps to
      `Integer.MIN_VALUE`: the loop never exits and goes on sending for negative indices,
      the first of them with the key `key--2147483648`. */
  lemma RangeLoopNeverExitsAtIntMax(start: int, k: nat, key: string)
    requires 1 <= start <= Int32Max
    ensures RangeLoopIndex(start, k) <= Int32Max
    ensures RangeLoopIndex(start, Int32Max - start + 1) == Int32Min
    ensures FormatSuffixed(key, RangeLoopIndex(start, Int32Max - start + 1)) == key + "--2147483648"
  {
    RangeLoopIndexNoWrap(start, Int32Max - start);
    FormatSuffixedMinValue(key, RangeLoopIndex(start, Int32Max - start + 1));
  }

  /** A client of the contracts: the range 3..5 submits `k-3`, `k-4`, `k-5` in order and
      the report adds up; if every submission returned, nothing is counted as failed. */
  method CustomRangeExample() {
    var producer := new KafkaProducer();
    var controller := new KafkaController(producer);
    var request := CustomMessageRequest("t", "k", "m", 3, 5);
    assert Trim("t") == "t" && Trim("k") == "k" && Trim("m") == "m";
    var r := controller.PublishCustomMessages(request);
    assert Decimal.NatToDecimal(3) == "3" && Decimal.NatToDecimal(4) == "4" && Decimal.NatToDecimal(5) == "5";
    assert FormatSuffixed("k", 3) == "k-3" && FormatSuffixed("m", 3) == "m-3";
    assert FormatSuffixed("k", 4) == "k-4" && FormatSuffixed("m", 4) == "m-4";
    assert FormatSuffixed("k", 5) == "k-5" && FormatSuffixed("m", 5) == "m-5";
    assert RangeMessages("t", "k", "m", 3, 3) == [Message("t", "k-3", "m-3")];
    assert RangeMessages("t", "k", "m", 3, 4) == [Message("t", "k-3", "m-3"), Message("t", "k-4", "m-4")];
    assert RangeMessages("t", "k", "m", 3, 5) ==
      [Message("t", "k-3", "m-3"), Message("t", "k-4", "m-4"), Message("t", "k-5", "m-5")];
    assert Messages(producer.log) ==
      [Message("t", "k-3", "m-3"), Message("t", "k-4", "m-4"), Message("t", "k-5", "m-5")];
    assert r.Responds? && r.response.body.totalRequested == 3;
    if forall j :: 0 <= j < |producer.log| ==> producer.log[j].outcome.Returned? {
      assert r.response.body == Completed(3, 3, 0);
    }
  }
}
