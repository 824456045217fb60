/** The JSON body of the custom-range endpoint, its declared field constraints and its
    explicit range check. */
module Requests {
  import opened Java

  datatype CustomMessageRequest = CustomMessageRequest(
    topic: string,
    key: string,
    messagePrefix: string,
    startIndex: int,
    endIndex: int)

  const TopicMaxLength: nat := 100
  const KeyMaxLength: nat := 50
  const MessagePrefixMaxLength: nat := 100
  const MinIndex: int := 1

  const RangeErrorMessage: string := "Start index must be less than or equal to end index"

  /** `@NotBlank` on a string that is present: something is left after `trim`. */
  predicate NotBlank(s: string) {
    Trim(s) != []
  }

  /** `@Size(min, max)`. */
  predicate SizeBetween(s: string, min: nat, max: nat) {
    min <= |s| <= max
  }

  /** The fields carry Java `int` values. */
  predicate WellTyped(req: CustomMessageRequest) {
    IsInt32(req.startIndex) && IsInt32(req.endIndex)
  }

  /** Every declared constraint holds: `@NotBlank` and `@Size` on the three strings,
      `@Min(1)` on both indices. */
  predicate Valid(req: CustomMessageRequest) {
    && NotBlank(req.topic) && SizeBetween(req.topic, 1, TopicMaxLength)
    && NotBlank(req.key) && SizeBetween(req.key, 1, KeyMaxLength)
    && NotBlank(req.messagePrefix) && SizeBetween(req.messagePrefix, 1, MessagePrefixMaxLength)
    && req.startIndex >= MinIndex
    && req.endIndex >= MinIndex
  }

  /** `validate()`: throws `IllegalArgumentException` on an inverted range. Being a
      function of the request value, it leaves every field as it was. */
  function Validate(req: CustomMessageRequest): (o: Outcome)
    ensures o.Threw? <==> req.startIndex > req.endIndex
    ensures o.Threw? ==> o.message == RangeErrorMessage
  {
    if req.startIndex > req.endIndex then Threw(RangeErrorMessage) else Returned
  }

  /** A non-blank string holds a character above U+0020, and so is not empty. */
  lemma NotBlankHasVisibleChar(s: string)
    ensures NotBlank(s) <==> exists i :: 0 <= i < |s| && s[i] > ' '
    ensures NotBlank(s) ==> |s| >= 1
  {
    TrimEmptyIffAllSpace(s);
  }

  /** What a request meeting its declared constraints guarantees about each field. */
  lemma ValidRequestFields(req: CustomMessageRequest)
    requires Valid(req)
    ensures 1 <= |req.topic| <= 100 && exists i :: 0 <= i < |req.topic| && req.topic[i] > ' '
    ensures 1 <= |req.key| <= 50 && exists i :: 0 <= i < |req.key| && req.key[i] > ' '
    ensures 1 <= |req.messagePrefix| <= 100
    ensures exists i :: 0 <= i < |req.messagePrefix| && req.messagePrefix[i] > ' '
    ensures req.startIndex >= 1 && req.endIndex >= 1
  {
    NotBlankHasVisibleChar(req.topic);
    NotBlankHasVisibleChar(req.key);
    NotBlankHasVisibleChar(req.messagePrefix);
  }

  /** A request that meets its constraints and passes `validate()` describes a non-empty
      range of positive indices. */
  lemma ValidatedRangeNonEmpty(req: CustomMessageRequest)
    requires Valid(req) && Validate(req) == Returned
    ensures 1 <= req.startIndex <= req.endIndex
    ensures req.endIndex - req.startIndex + 1 >= 1
  {
  }
}
