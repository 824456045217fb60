/** The producer service as the controller sees it: a call that takes a topic, a key and
    a message and either returns or throws. Building the broker message, handing it to
    the broker client and logging the asynchronous acknowledgment all happen behind
    this call and are not modelled. */
module Producer {
  import opened Java
  import opened Dispatch

  class KafkaProducer {
    /** Every call made so far, in order, with how it completed. */
    ghost var log: seq<Call>

    constructor ()
      ensures log == []
    {
      log := [];
    }

    /** Submits one message. Whether the submission throws is decided by the broker
        client, outside this model: any outcome is possible. */
    method SendMessageAsync(topic: string, key: string, message: string) returns (outcome: Outcome)
      modifies this
      ensures log == old(log) + [Call(Message(topic, key, message), outcome)]
    {
      outcome :| true;
      log := log + [Call(Message(topic, key, message), outcome)];
    }
  }
}
