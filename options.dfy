/**
 * The option record two Waku peers exchange in the handshake, and the operations on it that do not
 * touch the wire: dropping the fields that hold their default, filling absent fields with their
 * default, and the record-level validation.
 */
module Options {
  import opened Wrappers
  import opened Rlp
  import opened RlpValues
  import opened RateLimit

  /** A topic identifier: four bytes. */
  type TopicType = t: seq<byte> | |t| == 4 witness [0, 0, 0, 0]

  /**
   * statusOptions. Every field may be absent (nil in Go), which is distinct from its zero value.
   * The PoW requirement is the raw IEEE-754 bit pattern of a float64.
   */
  datatype StatusOptions = StatusOptions(
    powRequirement: Option<uint64>,
    bloomFilter: Option<seq<byte>>,
    lightNodeEnabled: Option<bool>,
    confirmationsEnabled: Option<bool>,
    rateLimits: Option<RateLimits>,
    topicInterest: Option<seq<TopicType>>)

  /** `statusOptions{}`: every field absent. */
  const NoOptions := StatusOptions(None, None, None, None, None, None)

  /** The result of MakeFullNodeBloom(), a filter that matches every topic; its bytes are not modelled. */
  const FullNodeBloom: seq<byte>

  /** Every field that has a default holds a value, so WithDefaults has nothing left to fill. */
  predicate Filled(s: StatusOptions) {
    s.powRequirement.Some? && s.bloomFilter.Some? && s.lightNodeEnabled.Some?
    && s.confirmationsEnabled.Some? && s.rateLimits.Some?
  }

  /** No field holds the value WithoutDefaults would drop. */
  predicate Stripped(s: StatusOptions) {
    s.powRequirement != Some(0) && s.lightNodeEnabled != Some(false)
    && s.confirmationsEnabled != Some(false) && !(s.rateLimits.Some? && IsZero(s.rateLimits.value))
  }

  function WithoutDefaults(s: StatusOptions): (r: StatusOptions)
    ensures r.powRequirement.None? <==> s.powRequirement.None? || s.powRequirement.value == 0
    ensures r.lightNodeEnabled.None? <==> s.lightNodeEnabled.None? || !s.lightNodeEnabled.value
    ensures r.confirmationsEnabled.None? <==> s.confirmationsEnabled.None? || !s.confirmationsEnabled.value
    ensures r.rateLimits.None? <==> s.rateLimits.None? || IsZero(s.rateLimits.value)
    ensures r.powRequirement.Some? ==> r.powRequirement == s.powRequirement
    ensures r.lightNodeEnabled.Some? ==> r.lightNodeEnabled == s.lightNodeEnabled
    ensures r.confirmationsEnabled.Some? ==> r.confirmationsEnabled == s.confirmationsEnabled
    ensures r.rateLimits.Some? ==> r.rateLimits == s.rateLimits
    ensures r.bloomFilter == s.bloomFilter && r.topicInterest == s.topicInterest
    ensures Stripped(r)
  {
    var s1 := if s.powRequirement.Some? && s.powRequirement.value == 0 then s.(powRequirement := None) else s;
    var s2 := if s1.lightNodeEnabled.Some? && !s1.lightNodeEnabled.value then s1.(lightNodeEnabled := None) else s1;
    var s3 := if s2.confirmationsEnabled.Some? && !s2.confirmationsEnabled.value then s2.(confirmationsEnabled := None) else s2;
    var s4 := if s3.rateLimits.Some? && IsZero(s3.rateLimits.value) then s3.(rateLimits := None) else s3;
    s4
  }

  function WithDefaults(s: StatusOptions): (r: StatusOptions)
    ensures Filled(r)
    ensures s.powRequirement.Some? ==> r.powRequirement == s.powRequirement
    ensures s.bloomFilter.Some? ==> r.bloomFilter == s.bloomFilter
    ensures s.lightNodeEnabled.Some? ==> r.lightNodeEnabled == s.lightNodeEnabled
    ensures s.confirmationsEnabled.Some? ==> r.confirmationsEnabled == s.confirmationsEnabled
    ensures s.rateLimits.Some? ==> r.rateLimits == s.rateLimits
    ensures s.powRequirement.None? ==> r.powRequirement.value == 0
    ensures s.lightNodeEnabled.None? ==> !r.lightNodeEnabled.value
    ensures s.confirmationsEnabled.None? ==> !r.confirmationsEnabled.value
    ensures s.rateLimits.None? ==> IsZero(r.rateLimits.value)
    ensures s.bloomFilter.None? ==> r.bloomFilter.value == FullNodeBloom
    ensures r.topicInterest == s.topicInterest
  {
    var s1 := if s.powRequirement.None? then s.(powRequirement := Some(0)) else s;
    var s2 := if s1.lightNodeEnabled.None? then s1.(lightNodeEnabled := Some(false)) else s1;
    var s3 := if s2.confirmationsEnabled.None? then s2.(confirmationsEnabled := Some(false)) else s2;
    var s4 := if s3.rateLimits.None? then s3.(rateLimits := Some(Zero)) else s3;
    var s5 := if s4.bloomFilter.None? then s4.(bloomFilter := Some(FullNodeBloom)) else s4;
    s5
  }

  lemma WithoutDefaultsIdempotent(s: StatusOptions)
    ensures WithoutDefaults(WithoutDefaults(s)) == WithoutDefaults(s)
  {
  }

  lemma WithDefaultsIdempotent(s: StatusOptions)
    ensures WithDefaults(WithDefaults(s)) == WithDefaults(s)
  {
  }

  /** Dropping a default and filling it back in is the same as filling it in. */
  lemma FillAfterStrip(s: StatusOptions)
    ensures WithDefaults(WithoutDefaults(s)) == WithDefaults(s)
  {
  }

  /** A record with every defaulted field present is restored by stripping and then filling. */
  lemma FillUndoesStrip(s: StatusOptions)
    requires Filled(s)
    ensures WithDefaults(WithoutDefaults(s)) == s
  {
  }

  /** A record without default values, whose bloom filter is present, is restored by filling and then stripping. */
  lemma StripUndoesFill(s: StatusOptions)
    requires Stripped(s) && s.bloomFilter.Some?
    ensures WithoutDefaults(WithDefaults(s)) == s
  {
  }

  const MaxTopicInterest := 1000

  datatype ValidationError = TopicInterestTooLarge(count: nat)

  /** len(TopicInterest): a nil slice has length 0. */
  function TopicInterestCount(o: StatusOptions): nat {
    if o.topicInterest.Some? then |o.topicInterest.value| else 0
  }

  function Validate(o: StatusOptions): (r: Outcome<ValidationError>)
    ensures r.Pass? <==> o.topicInterest.None? || |o.topicInterest.value| <= MaxTopicInterest
    ensures r.Fail? ==> r.error.count == |o.topicInterest.value| > MaxTopicInterest
  {
    if TopicInterestCount(o) > MaxTopicInterest then Fail(TopicInterestTooLarge(TopicInterestCount(o)))
    else Pass
  }

  lemma ValidateBoundary(o: StatusOptions, ts: seq<TopicType>)
    ensures |ts| == 1000 ==> Validate(o.(topicInterest := Some(ts))).Pass?
    ensures |ts| == 1001 ==> Validate(o.(topicInterest := Some(ts))).Fail?
  {
  }

  /** Neither transform changes whether a record is valid. */
  lemma ValidateIgnoresDefaults(o: StatusOptions)
    ensures Validate(WithDefaults(o)) == Validate(o)
    ensures Validate(WithoutDefaults(o)) == Validate(o)
  {
  }
}
