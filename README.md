# Kafka publishing controller, modelled in Dafny

This project models the publishing side of a small HTTP front end for a Kafka producer.
`KafkaController` has three endpoints:

- **batch** (`publishMessages`) checks that `numberOfMessages` is positive. It then submits the
  messages `key-1 / prefix-1`, …, `key-n / prefix-n` one at a time.
- **single** (`publishSingleMessage`) submits one message unchanged.
- **custom range** (`publishCustomMessages`) takes a `CustomMessageRequest` body.
  `validate()` runs first, and then the messages for `startIndex`, …, `endIndex` are submitted.

Each submission is a call of the producer's `sendMessageAsync`. Counting is fire-and-forget.
A call that returns counts in `successCount`; one that throws counts in `failureCount`, and the
loop goes on either way. The broker's asynchronous acknowledgment is only logged, so it plays no
part here. The batch and range endpoints answer with a report of `totalRequested`,
`successCount`, `failureCount` and status `Completed`.

Modules, one per concern:

- `Decimal` (decimal.dfy): `%d` formatting, i.e. the canonical decimal numeral. It proves
  that reading the numeral back gives the number, and that distinct numbers give distinct numerals.
- `Java` (java.dfy): the Java semantics the controller relies on. This covers the `int` range
  and two's-complement wrap-around, and a void call that returns or throws (`Outcome`). It also
  covers `String.trim` and `String.format("%s-%d", …)`.
- `Requests` (custom_message_request.dfy): the request record and its declared constraints
  (`@NotBlank`, `@Size`, `@Min`) as the predicate `Valid`. `validate()` is the function
  `Validate`.
- `Dispatch` (dispatch.dfy): the messages a loop builds for an index range (`RangeMessages`).
  It also holds the counters as functions of the calls made (`Accepted`, `Rejected`).
- `Producer` (kafka_producer.dfy): the producer as an abstract sender. `SendMessageAsync` may
  return or throw, whichever the broker client decides. Each call is recorded with its outcome in
  the ghost `log`.
- `Controller` (kafka_controller.dfy): the class `KafkaController` and its three handlers. Each
  handler loop is proved against `RangeMessages` and `Tally` over the new part of the
  producer's log. The module also holds the as-written index arithmetic of the range loop (see
  Findings) and a client method, `CustomRangeExample`, that uses the contracts.

Design choices:

- The sender is an abstract oracle. `SendMessageAsync` picks its outcome with an unconstrained
  choice, so every handler contract holds whatever the broker client does, call by call.
- The framework applies the bean-validation annotations before the custom handler runs. So
  `Valid(request)` is a precondition of `PublishCustomMessages`, and `validate()` is modelled
  inside the handler.
- `@NotBlank` follows Hibernate Validator's implementation. A string is blank when nothing is
  left after `String.trim`, which strips characters at or below U+0020, and `@NotBlank` requires
  something to be left. `NotBlankHasVisibleChar` proves this equals "contains a character above
  U+0020".
- `validate()` is called at KafkaController.java:204, outside every `try`. Its
  `IllegalArgumentException` therefore escapes the handler, and the framework picks the HTTP
  status. The model returns `Raises(message)` and makes no call.
- No path sends an empty sequence. A non-positive count is rejected (KafkaController.java:82-85),
  and a validated range is never empty (`ValidatedRangeNonEmpty`).
- `validate()` changes no field. In the model it is a function of an immutable request value,
  so it cannot.

## Model

| member | source | states |
|---|---|---|
| Decimal.NatToDecimalCanonical | producer-consumer/src/main/java/com/wbd/ams/producerconsumer/controller/KafkaController.java:93-94 | `%d` of a non-negative index is non-empty and all digits, with no leading zero (a lone "0" only for 0). It has one digit exactly below 10. |
| Decimal.DecimalRoundTrip | producer-consumer/src/main/java/com/wbd/ams/producerconsumer/controller/KafkaController.java:93-94 | reading back the numeral of n gives n |
| Decimal.CanonicalNumeralRoundTrip | producer-consumer/src/main/java/com/wbd/ams/producerconsumer/controller/KafkaController.java:93-94 | every digit string without a leading zero is the numeral of the number it denotes, so `%d` is a bijection onto canonical numerals |
| Decimal.NatToDecimalInjective | producer-consumer/src/main/java/com/wbd/ams/producerconsumer/controller/KafkaController.java:93-94 | distinct non-negative numbers have distinct numerals |
| Decimal.FormatIntSign | producer-consumer/src/main/java/com/wbd/ams/producerconsumer/controller/KafkaController.java:212-213 | the rendering starts with '-' exactly for negative values, and is the plain numeral otherwise |
| Decimal.NatToDecimalAppendDigit | producer-consumer/src/main/java/com/wbd/ams/producerconsumer/controller/KafkaController.java:212-213 | the numeral of 10n + d (n positive, d a digit) is the numeral of n followed by the digit d |
| Decimal.FormatIntMinValue | producer-consumer/src/main/java/com/wbd/ams/producerconsumer/controller/KafkaController.java:212-213 | `%d` of Integer.MIN_VALUE is "-2147483648" |
| Decimal.FormatIntInjective | producer-consumer/src/main/java/com/wbd/ams/producerconsumer/controller/KafkaController.java:212-213 | distinct ints are rendered differently |
| Java.WrapInt32 | producer-consumer/src/main/java/com/wbd/ams/producerconsumer/controller/KafkaController.java:211 | the result is a Java int, equal to the input when that fits and congruent to it modulo 2^32 |
| Java.TrimStartDropsSpace | producer-consumer/src/main/java/com/wbd/ams/producerconsumer/controller/CustomMessageRequest.java:22 | the leading part that trim removes is all characters at or below U+0020, and what remains starts above U+0020 |
| Java.TrimEndDropsSpace | producer-consumer/src/main/java/com/wbd/ams/producerconsumer/controller/CustomMessageRequest.java:22 | the trailing part that trim removes is all characters at or below U+0020, and what remains ends above U+0020 |
| Java.TrimEmptyIffAllSpace | producer-consumer/src/main/java/com/wbd/ams/producerconsumer/controller/CustomMessageRequest.java:22 | trimming leaves nothing if and only if every character is at or below U+0020 |
| Java.FormatSuffixedMinValue | producer-consumer/src/main/java/com/wbd/ams/producerconsumer/controller/KafkaController.java:212-213 | `"%s-%d"` of a prefix and Integer.MIN_VALUE is the prefix followed by `--2147483648` |
| Java.FormatSuffixedInjective | producer-consumer/src/main/java/com/wbd/ams/producerconsumer/controller/KafkaController.java:212-213 | two keys (or values) built from the same prefix are equal only for equal indices |
| Requests.Validate | producer-consumer/src/main/java/com/wbd/ams/producerconsumer/controller/CustomMessageRequest.java:60-64 | `validate()` throws if and only if startIndex > endIndex, with the fixed message. What a caller learns from it, that it lets through exactly the requests whose range is non-empty, is stated by Controller.ValidateAcceptsNonEmptyRanges |
| Requests.NotBlankHasVisibleChar | producer-consumer/src/main/java/com/wbd/ams/producerconsumer/controller/CustomMessageRequest.java:22-23 | a non-blank field holds a character above U+0020, so it is never empty |
| Requests.ValidRequestFields | producer-consumer/src/main/java/com/wbd/ams/producerconsumer/controller/CustomMessageRequest.java:22-58 | a valid request has topic 1..100, key 1..50 and messagePrefix 1..100 characters long, each with a visible character, and both indices at least 1 |
| Requests.ValidatedRangeNonEmpty | producer-consumer/src/main/java/com/wbd/ams/producerconsumer/controller/CustomMessageRequest.java:49-64 | constraints plus a passing `validate()` give 1 <= startIndex <= endIndex, a non-empty range |
| Dispatch.RangeMessagesAt | producer-consumer/src/main/java/com/wbd/ams/producerconsumer/controller/KafkaController.java:211-213 | the range lo..hi has hi - lo + 1 messages (none if lo > hi), ascending, the j-th being the one for lo + j: no gaps |
| Dispatch.DescriptorsDistinct | producer-consumer/src/main/java/com/wbd/ams/producerconsumer/controller/KafkaController.java:212-213 | the messages built for two different indices differ in key and in value |
| Dispatch.RangeMessagesDistinct | producer-consumer/src/main/java/com/wbd/ams/producerconsumer/controller/KafkaController.java:211-213 | no two messages of a range share a key or a value: no duplicates |
| Dispatch.AppendCall | producer-consumer/src/main/java/com/wbd/ams/producerconsumer/controller/KafkaController.java:96-101 | one more call appends its message at the end and increments exactly one counter: successCount if it returned, failureCount if it threw |
| Dispatch.TallyAddsUp | producer-consumer/src/main/java/com/wbd/ams/producerconsumer/controller/KafkaController.java:96-101 | every call is counted once, as a success or a failure: successCount + failureCount equals the number of calls |
| Dispatch.NoRejectedIffAllReturned | producer-consumer/src/main/java/com/wbd/ams/producerconsumer/controller/KafkaController.java:96-101 | failureCount is 0 if and only if no call threw, and then successCount equals the number of calls |
| Dispatch.RejectedCountsThrownCalls | producer-consumer/src/main/java/com/wbd/ams/producerconsumer/controller/KafkaController.java:215-220 | failureCount equals the number of calls that threw |
| Producer.KafkaProducer.SendMessageAsync | producer-consumer/src/main/java/com/wbd/ams/producerconsumer/service/KafkaProducer.java:20-38 | one call appends its (topic, key, message) and its outcome to the log; the outcome is unconstrained |
| Controller.Tally | producer-consumer/src/main/java/com/wbd/ams/producerconsumer/controller/KafkaController.java:225-228 | the report's counts add up to the number of calls, and failureCount is 0 exactly when every call returned |
| Controller.KafkaController.constructor | producer-consumer/src/main/java/com/wbd/ams/producerconsumer/controller/KafkaController.java:31-33 | the controller keeps the producer it is given |
| Controller.KafkaController.PublishMessages | producer-consumer/src/main/java/com/wbd/ams/producerconsumer/controller/KafkaController.java:82-114 | a count <= 0 gives a bad request and no call. Otherwise the calls made are exactly the messages for 1..n in order, and the Completed report has totalRequested n with counts equal to the returned and thrown calls, adding to n. |
| Controller.KafkaController.PublishSingleMessage | producer-consumer/src/main/java/com/wbd/ams/producerconsumer/controller/KafkaController.java:162-169 | exactly one call with topic, key and message unchanged. The answer is Ok if and only if the call returned; otherwise it is a server error carrying "Failed to send message: " and the exception message. |
| Controller.KafkaController.PublishCustomMessages | producer-consumer/src/main/java/com/wbd/ams/producerconsumer/controller/KafkaController.java:204-233 | an inverted range raises validate()'s exception before any call. Otherwise the calls are exactly the messages for startIndex..endIndex in order, and totalRequested is endIndex - startIndex + 1 and equals successCount + failureCount. |
| Controller.ValidateAcceptsNonEmptyRanges | producer-consumer/src/main/java/com/wbd/ams/producerconsumer/controller/KafkaController.java:204-213 | `validate()` accepts a request if and only if its range yields at least one message |
| Controller.RangeLoopIndex | producer-consumer/src/main/java/com/wbd/ams/producerconsumer/controller/KafkaController.java:211 | the value of the custom loop's Java int index after k increments is always a Java int |
| Controller.RangeLoopIndexNoWrap | producer-consumer/src/main/java/com/wbd/ams/producerconsumer/controller/KafkaController.java:211 | while no increment passes Integer.MAX_VALUE, the index after k increments is startIndex + k |
| Controller.RangeLoopNeverExitsAtIntMax | producer-consumer/src/main/java/com/wbd/ams/producerconsumer/controller/KafkaController.java:211-213 | with endIndex = Integer.MAX_VALUE, the guard holds on every pass, and the increment after the maximum wraps to Integer.MIN_VALUE. The key then sent is `key--2147483648`. |

## Findings

| source | as written | input that shows it | evidently intended | confidence | as-written member | corrected member |
|---|---|---|---|---|---|---|
| producer-consumer/src/main/java/com/wbd/ams/producerconsumer/controller/KafkaController.java:211 | the custom loop compares a Java int index with endIndex using `<=` and increments it with `++`; at endIndex = Integer.MAX_VALUE no int is greater than the bound, and the increment wraps | startIndex = 1, endIndex = 2147483647 (both pass the declared constraints and `validate()`): the loop does not exit after index 2147483647 and continues with index -2147483648, submitting keys such as `key--2147483648` | submit exactly the messages for startIndex..endIndex, then report | not executed; follows from Java's int arithmetic | Controller.RangeLoopNeverExitsAtIntMax | Controller.KafkaController.PublishCustomMessages |

## Left out

- The inside of `KafkaProducer.sendMessageAsync` is left out. Building the broker message, `KafkaTemplate.send` and the logging callback on the asynchronous result are library code. They are represented only by the unconstrained outcome of `SendMessageAsync`.
- `KafkaConsumer.listen` and `Knife4jConfig` are left out: they log and configure documentation, and hold no logic.
- The outer `catch` of the batch and range handlers (KafkaController.java lines 116-123 and 234-239) is left out. It answers "Failed", with the counts for the batch and without them for the range. Nothing between the outer and inner `try` can throw an `Exception`: `String.format` with these arguments cannot, only the send can, and the inner `catch` catches that.
- Throwables that are not `Exception`s (`Error`s) would escape both `catch` blocks. They are not modelled.
- Logging, HTTP routing, the response map and status codes are left out. Status is kept only as the tags Ok / BadRequest / InternalServerError, and an escaping exception as `Raises`.
- The framework's request binding is left out. This covers missing or null parameters, non-numeric `numberOfMessages`, and the 400 answer produced when `@Valid` fails. The handler is only modelled for well-typed, valid input.
- `e.getMessage()` may be null in Java, which would print "null". Exception messages are modelled as strings.
- `AtomicInteger` counters are plain local counters: nothing else shares them.
- Java string lengths count UTF-16 code units, whereas Dafny strings count Unicode scalar values. The two differ for characters outside the Basic Multilingual Plane.
- `%d` under a default locale with non-ASCII digits is not modelled; digits are ASCII.
- Integer overflow of `i + 1` in the batch loop and of the counters cannot happen, because both stay at or below `numberOfMessages`. The one overflow that can happen is recorded under Findings.
