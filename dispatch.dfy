/** What the publishing loops hand to the producer, and how their counters tally the
    outcomes of those calls. */
module Dispatch {
  import opened Java

  /** The arguments of one `sendMessageAsync(topic, key, message)` call. */
  datatype Message = Message(topic: string, key: string, value: string)

  /** One call of the producer together with how it completed. */
  datatype Call = Call(message: Message, outcome: Outcome)

  /** The message a loop builds for index i: key and value suffixed with `-i`. */
  function Descriptor(topic: string, key: string, messagePrefix: string, i: int): Message {
    Message(topic, FormatSuffixed(key, i), FormatSuffixed(messagePrefix, i))
  }

  /** The messages for the indices lo, lo + 1, ..., hi in ascending order (none when
      lo > hi). */
  function RangeMessages(topic: string, key: string, messagePrefix: string, lo: int, hi: int): seq<Message>
    decreases hi - lo
  {
    if lo > hi then []
    else RangeMessages(topic, key, messagePrefix, lo, hi - 1) + [Descriptor(topic, key, messagePrefix, hi)]
  }

  /** The range has one message per index, the j-th (from 0) being the one for lo + j. */
  lemma {:induction false} RangeMessagesAt(topic: string, key: string, messagePrefix: string, lo: int, hi: int)
    ensures |RangeMessages(topic, key, messagePrefix, lo, hi)| == if lo > hi then 0 else hi - lo + 1
    ensures forall j :: 0 <= j < |RangeMessages(topic, key, messagePrefix, lo, hi)| ==>
      RangeMessages(topic, key, messagePrefix, lo, hi)[j] == Descriptor(topic, key, messagePrefix, lo + j)
    decreases hi - lo
  {
    if lo <= hi {
      var init := RangeMessages(topic, key, messagePrefix, lo, hi - 1);
      var all := RangeMessages(topic, key, messagePrefix, lo, hi);
      RangeMessagesAt(topic, key, messagePrefix, lo, hi - 1);
      assert all == init + [Descriptor(topic, key, messagePrefix, hi)];
      forall j | 0 <= j < |all|
        ensures all[j] == Descriptor(topic, key, messagePrefix, lo + j)
      {
        if j < |init| {
          assert all[j] == init[j];
        }
      }
    }
  }

  /** Messages built for different indices differ in key and in value. */
  lemma DescriptorsDistinct(topic: string, key: string, messagePrefix: string, i: int, j: int)
    requires i != j
    ensures Descriptor(topic, key, messagePrefix, i).key != Descriptor(topic, key, messagePrefix, j).key
    ensures Descriptor(topic, key, messagePrefix, i).value != Descriptor(topic, key, messagePrefix, j).value
  {
    FormatSuffixedInjective(key, i, j);
    FormatSuffixedInjective(messagePrefix, i, j);
  }

  /** No two messages of a range share a key, nor a value. */
  lemma RangeMessagesDistinct(topic: string, key: string, messagePrefix: string, lo: int, hi: int, j: int, k: int)
    requires 0 <= j < k < |RangeMessages(topic, key, messagePrefix, lo, hi)|
    ensures RangeMessages(topic, key, messagePrefix, lo, hi)[j].key != RangeMessages(topic, key, messagePrefix, lo, hi)[k].key
    ensures RangeMessages(topic, key, messagePrefix, lo, hi)[j].value != RangeMessages(topic, key, messagePrefix, lo, hi)[k].value
  {
    var ms := RangeMessages(topic, key, messagePrefix, lo, hi);
    RangeMessagesAt(topic, key, messagePrefix, lo, hi);
    assert ms[j] == Descriptor(topic, key, messagePrefix, lo + j);
    assert ms[k] == Descriptor(topic, key, messagePrefix, lo + k);
    DescriptorsDistinct(topic, key, messagePrefix, lo + j, lo + k);
  }

  /** The messages of a sequence of calls, in call order. */
  function Messages(calls: seq<Call>): (ms: seq<Message>)
    ensures |ms| == |calls|
    ensures forall j :: 0 <= j < |calls| ==> ms[j] == calls[j].message
  {
    if calls == [] then [] else Messages(calls[..|calls| - 1]) + [calls[|calls| - 1].message]
  }

  /** How many calls returned normally: what `successCount` counts. */
  function Accepted(calls: seq<Call>): nat {
    if calls == [] then 0
    else Accepted(calls[..|calls| - 1]) + if calls[|calls| - 1].outcome.Returned? then 1 else 0
  }

  /** How many calls threw: what `failureCount` counts. */
  function Rejected(calls: seq<Call>): nat {
    if calls == [] then 0
    else Rejected(calls[..|calls| - 1]) + if calls[|calls| - 1].outcome.Threw? then 1 else 0
  }

  /** One more call adds its message at the end and one to exactly the counter its
      outcome selects. */
  lemma AppendCall(calls: seq<Call>, c: Call)
    ensures Messages(calls + [c]) == Messages(calls) + [c.message]
    ensures Accepted(calls + [c]) == Accepted(calls) + if c.outcome.Returned? then 1 else 0
    ensures Rejected(calls + [c]) == Rejected(calls) + if c.outcome.Threw? then 1 else 0
  {
  }

  /** Every call is counted exactly once, as a success or as a failure. */
  lemma {:induction false} TallyAddsUp(calls: seq<Call>)
    ensures Accepted(calls) + Rejected(calls) == |calls|
  {
    if calls != [] {
      TallyAddsUp(calls[..|calls| - 1]);
    }
  }

  /** No failure is counted exactly when no call threw, and then every call is a success. */
  lemma {:induction false} NoRejectedIffAllReturned(calls: seq<Call>)
    ensures Rejected(calls) == 0 <==> forall j :: 0 <= j < |calls| ==> calls[j].outcome.Returned?
    ensures Rejected(calls) == 0 ==> Accepted(calls) == |calls|
  {
    TallyAddsUp(calls);
    if calls != [] {
      var init := calls[..|calls| - 1];
      NoRejectedIffAllReturned(init);
      assert forall j :: 0 <= j < |init| ==> init[j] == calls[j];
    }
  }

  /** The failures counted are exactly the calls that threw: the set of their positions
      has Rejected(calls) elements. */
  lemma {:induction false} RejectedCountsThrownCalls(calls: seq<Call>)
    ensures Rejected(calls) == |set j | 0 <= j < |calls| && calls[j].outcome.Threw?|
  {
    if calls != [] {
      var n := |calls| - 1;
      var init := calls[..n];
      RejectedCountsThrownCalls(init);
      var before := set j | 0 <= j < n && init[j].outcome.Threw?;
      var after := set j | 0 <= j < |calls| && calls[j].outcome.Threw?;
      if calls[n].outcome.Threw? {
        assert after == before + {n};
      } else {
        assert after == before;
      }
    }
  }
}
