/**
 * The wire form of the handshake options. EncodeRLP writes a list holding one [key, value] list
 * per present field. DecodeRLP reads such a list back into a record; a key it does not know is
 * not an error, so that peers with more options can talk to peers with fewer.
 */
module OptionsCodec {
  import opened Wrappers
  import opened Rlp
  import opened RlpValues
  import RateLimit
  import opened Options
  import opened KeyTable

  // ---------------------------------------------------------------------------------------------
  // Field values on the wire

  function TopicItems(ts: seq<TopicType>): seq<Item> {
    if ts == [] then [] else [Str(ts[0])] + TopicItems(ts[1..])
  }

  /** A TopicType is a [4]byte array. */
  function DecodeTopic(x: Item): (r: Result<TopicType, RlpError>)
    ensures r.Ok? <==> x.Str? && |x.bytes| == 4
    ensures r.Ok? ==> x == Str(r.value)
  {
    var t :- DecodeByteArray(x, 4);
    Ok(t)
  }

  /** A []TopicType slice is decoded element by element; the first bad element is the error. */
  function DecodeTopicList(es: seq<Item>): (r: Result<seq<TopicType>, RlpError>)
    ensures r.Ok? <==> forall k :: 0 <= k < |es| ==> DecodeTopic(es[k]).Ok?
    ensures r.Ok? ==> |r.value| == |es| && forall k :: 0 <= k < |es| ==> es[k] == Str(r.value[k])
  {
    if es == [] then Ok([])
    else
      var t :- DecodeTopic(es[0]);
      var ts :- DecodeTopicList(es[1..]);
      Ok([t] + ts)
  }

  lemma {:induction false} TopicListRoundTrip(ts: seq<TopicType>)
    ensures DecodeTopicList(TopicItems(ts)) == Ok(ts)
  {
    if ts != [] {
      TopicListRoundTrip(ts[1..]);
      assert TopicItems(ts)[1..] == TopicItems(ts[1..]);
      assert [ts[0]] + ts[1..] == ts;
    }
  }

  lemma {:induction false} TopicListDecodeInverse(es: seq<Item>)
    requires DecodeTopicList(es).Ok?
    ensures TopicItems(DecodeTopicList(es).value) == es
  {
    if es != [] {
      TopicListDecodeInverse(es[1..]);
      var ts := DecodeTopicList(es).value;
      assert ts[1..] == DecodeTopicList(es[1..]).value;
      assert es == [es[0]] + es[1..];
    }
  }

  /** The zero value of a TopicType. */
  const ZeroTopic: TopicType := [0, 0, 0, 0]

  /** How many elements at the front of es decode as topics. */
  function GoodTopics(es: seq<Item>): (n: nat)
    ensures n <= |es|
    ensures DecodeTopicList(es).Ok? <==> n == |es|
    ensures forall k :: 0 <= k < n ==> DecodeTopic(es[k]).Ok?
    ensures n < |es| ==> DecodeTopic(es[n]).Err?
  {
    if es == [] || DecodeTopic(es[0]).Err? then 0 else 1 + GoodTopics(es[1..])
  }

  /**
   * The slice decoder run over the elements es into an existing slice prior, which it reuses: element
   * k is decoded into slot k, and a slot is added (holding the zero topic) when the slice is too
   * short. When every element decodes, the slice is cut to their number; when one fails, the slice
   * keeps the slots written so far, the failing slot as it was, and the old elements after it.
   */
  function TopicsInPlace(prior: seq<TopicType>, es: seq<Item>): (r: seq<TopicType>)
    ensures DecodeTopicList(es).Ok? ==> r == DecodeTopicList(es).value
  {
    if es == [] then []
    else
      match DecodeTopic(es[0])
      case Err(_) => if prior == [] then [ZeroTopic] else prior
      case Ok(t) => [t] + TopicsInPlace(Rest(prior), es[1..])
  }

  lemma DecodeTopicListFront(es: seq<Item>, n: nat)
    requires 0 < n <= |es| && DecodeTopic(es[0]).Ok? && DecodeTopicList(es[1..][..n - 1]).Ok?
    ensures DecodeTopicList(es[..n]) == Ok([DecodeTopic(es[0]).value] + DecodeTopicList(es[1..][..n - 1]).value)
  {
    assert es[..n][0] == es[0];
    assert es[..n][1..] == es[1..][..n - 1];
  }

  /** The topics decoded from the elements in front of the first one that is not a topic. */
  function DecodedTopics(es: seq<Item>): (ts: seq<TopicType>)
    ensures |ts| == GoodTopics(es)
  {
    if es == [] then []
    else
      match DecodeTopic(es[0])
      case Err(_) => []
      case Ok(t) => [t] + DecodedTopics(es[1..])
  }

  /** The elements in front of the first one that is not a topic decode as a topic list, to DecodedTopics. */
  lemma {:induction false} DecodedTopicsPrefix(es: seq<Item>)
    requires DecodeTopicList(es).Err?
    ensures GoodTopics(es) < |es| && DecodeTopicList(es[..GoodTopics(es)]) == Ok(DecodedTopics(es))
  {
    var n := GoodTopics(es);
    if n == 0 {
      assert es[..0] == [];
    } else {
      DecodedTopicsPrefix(es[1..]);
      DecodeTopicListFront(es, n);
    }
  }

  /** The slots from n on of a reused slice: the old slice from slot n on, or one zero topic when it has no slot n. */
  function Leftover(prior: seq<TopicType>, n: nat): (r: seq<TopicType>)
    ensures |r| > 0
    ensures n < |prior| ==> r == prior[n..]
  {
    if n < |prior| then prior[n..] else [ZeroTopic]
  }

  /** The slice left for the elements after the first one. */
  function Rest(prior: seq<TopicType>): seq<TopicType> {
    if prior == [] then [] else prior[1..]
  }

  lemma LeftoverShift(prior: seq<TopicType>, n: nat)
    requires n > 0
    ensures Leftover(Rest(prior), n - 1) == Leftover(prior, n)
  {
    if n - 1 < |Rest(prior)| {
      assert Rest(prior)[n - 1..] == prior[n..];
    }
  }

  lemma TopicsInPlaceHead(prior: seq<TopicType>, es: seq<Item>)
    requires es != [] && DecodeTopic(es[0]).Ok?
    ensures TopicsInPlace(prior, es) == [DecodeTopic(es[0]).value] + TopicsInPlace(Rest(prior), es[1..])
  {
  }

  lemma ConsAppend<T>(t: T, a: seq<T>, b: seq<T>)
    ensures [t] + (a + b) == ([t] + a) + b
  {
  }

  /** The step of TopicsInPlaceSplit: a good first element goes in front of what the rest leaves. */
  lemma TopicsInPlaceSplitStep(prior: seq<TopicType>, es: seq<Item>)
    requires DecodeTopicList(es).Err? && GoodTopics(es) > 0
    requires DecodeTopicList(es[1..]).Err?
    requires TopicsInPlace(Rest(prior), es[1..]) == DecodedTopics(es[1..]) + Leftover(Rest(prior), GoodTopics(es[1..]))
    ensures TopicsInPlace(prior, es) == DecodedTopics(es) + Leftover(prior, GoodTopics(es))
  {
    var n := GoodTopics(es);
    var t := DecodeTopic(es[0]).value;
    assert GoodTopics(es[1..]) == n - 1;
    assert DecodedTopics(es) == [t] + DecodedTopics(es[1..]);
    TopicsInPlaceHead(prior, es);
    LeftoverShift(prior, n);
    ConsAppend(t, DecodedTopics(es[1..]), Leftover(prior, n));
  }

  lemma {:induction false} TopicsInPlaceSplit(prior: seq<TopicType>, es: seq<Item>)
    requires DecodeTopicList(es).Err?
    ensures TopicsInPlace(prior, es) == DecodedTopics(es) + Leftover(prior, GoodTopics(es))
  {
    if GoodTopics(es) == 0 {
      assert DecodeTopic(es[0]).Err? && DecodedTopics(es) == [];
      if prior != [] {
        assert prior[0..] == prior;
      }
    } else {
      assert DecodeTopic(es[0]).Ok? && DecodeTopicList(es[1..]).Err?;
      TopicsInPlaceSplit(Rest(prior), es[1..]);
      TopicsInPlaceSplitStep(prior, es);
    }
  }

  /**
   * After a failure at element i (the first that is not a topic), the slice holds the i topics read
   * before it, then the old slice from slot i on, or one zero topic when the old slice had no slot i.
   */
  lemma TopicsInPlaceFailure(prior: seq<TopicType>, es: seq<Item>)
    requires DecodeTopicList(es).Err?
    ensures GoodTopics(es) < |es| && DecodeTopicList(es[..GoodTopics(es)]) == Ok(DecodedTopics(es))
    ensures TopicsInPlace(prior, es) == DecodedTopics(es) + Leftover(prior, GoodTopics(es))
  {
    DecodedTopicsPrefix(es);
    TopicsInPlaceSplit(prior, es);
  }

  function UintValue(v: Option<uint64>): Option<Item> {
    match v case None => None case Some(n) => Some(EncodeUint(n))
  }

  function BytesValue(v: Option<seq<byte>>): Option<Item> {
    match v case None => None case Some(b) => Some(Str(b))
  }

  function BoolValue(v: Option<bool>): Option<Item> {
    match v case None => None case Some(b) => Some(EncodeBool(b))
  }

  function RateLimitsValue(v: Option<RateLimit.RateLimits>): Option<Item> {
    match v case None => None case Some(r) => Some(RateLimit.Encode(r))
  }

  function TopicsValue(v: Option<seq<TopicType>>): Option<Item> {
    match v case None => None case Some(ts) => Some(List(TopicItems(ts)))
  }

  /** The wire value of field i of o, or None when that field is nil. */
  function FieldValue(o: StatusOptions, i: nat): Option<Item>
    requires i < NumFields
  {
    if i == 0 then UintValue(o.powRequirement)
    else if i == 1 then BytesValue(o.bloomFilter)
    else if i == 2 then BoolValue(o.lightNodeEnabled)
    else if i == 3 then BoolValue(o.confirmationsEnabled)
    else if i == 4 then RateLimitsValue(o.rateLimits)
    else TopicsValue(o.topicInterest)
  }

  /** Every field that is present in o is present in r. */
  predicate KeepsPresent(o: StatusOptions, r: StatusOptions) {
    && (o.powRequirement.Some? ==> r.powRequirement.Some?)
    && (o.bloomFilter.Some? ==> r.bloomFilter.Some?)
    && (o.lightNodeEnabled.Some? ==> r.lightNodeEnabled.Some?)
    && (o.confirmationsEnabled.Some? ==> r.confirmationsEnabled.Some?)
    && (o.rateLimits.Some? ==> r.rateLimits.Some?)
    && (o.topicInterest.Some? ==> r.topicInterest.Some?)
  }

  /** o and r agree on every field except perhaps field i. */
  predicate SameOutside(o: StatusOptions, r: StatusOptions, i: nat) {
    && (i != 0 ==> r.powRequirement == o.powRequirement)
    && (i != 1 ==> r.bloomFilter == o.bloomFilter)
    && (i != 2 ==> r.lightNodeEnabled == o.lightNodeEnabled)
    && (i != 3 ==> r.confirmationsEnabled == o.confirmationsEnabled)
    && (i != 4 ==> r.rateLimits == o.rateLimits)
    && (i != 5 ==> r.topicInterest == o.topicInterest)
  }

  /**
   * s.Decode into field i: the decoder of the field's Go type reads x. On success field i holds
   * the value, so it is present, and its encoding is x itself: the decoders accept only the
   * canonical form the encoder writes.
   */
  function DecodeField(o: StatusOptions, i: nat, x: Item): (r: Result<StatusOptions, RlpError>)
    requires i < NumFields
    ensures r.Ok? ==> SameOutside(o, r.value, i) && FieldValue(r.value, i).Some?
  {
    if i == 0 then
      var v :- DecodeUint64(x);
      Ok(o.(powRequirement := Some(v)))
    else if i == 1 then
      var b :- DecodeBytes(x);
      Ok(o.(bloomFilter := Some(b)))
    else if i == 2 then
      var b :- DecodeBool(x);
      Ok(o.(lightNodeEnabled := Some(b)))
    else if i == 3 then
      var b :- DecodeBool(x);
      Ok(o.(confirmationsEnabled := Some(b)))
    else if i == 4 then
      var r :- RateLimit.Decode(x);
      Ok(o.(rateLimits := Some(r)))
    else
      match x
      case Str(_) => Err(ExpectedList)
      case List(es) =>
        var ts :- DecodeTopicList(es);
        Ok(o.(topicInterest := Some(ts)))
  }

  /** Only field i changes, and it becomes present with a value whose encoding is x itself. */
  lemma DecodeFieldCanonical(o: StatusOptions, i: nat, x: Item)
    requires i < NumFields && DecodeField(o, i, x).Ok?
    ensures SameOutside(o, DecodeField(o, i, x).value, i)
    ensures FieldValue(DecodeField(o, i, x).value, i) == Some(x)
  {
    if i == 0 {
      DecodedUintIsCanonical(o, x);
    } else if i == 1 {
    } else if i == 2 || i == 3 {
      DecodedBoolIsCanonical(o, i, x);
    } else if i == 4 {
      RateLimit.DecodeInverse(x);
    } else {
      TopicListDecodeInverse(x.elems);
    }
  }

  lemma DecodedUintIsCanonical(o: StatusOptions, x: Item)
    requires DecodeField(o, 0, x).Ok?
    ensures FieldValue(DecodeField(o, 0, x).value, 0) == Some(x)
  {
    assert DecodeUint(x, 8).Ok?;
    UintDecodeInverse(x, 8);
  }

  lemma DecodedBoolIsCanonical(o: StatusOptions, i: nat, x: Item)
    requires (i == 2 || i == 3) && DecodeField(o, i, x).Ok?
    ensures FieldValue(DecodeField(o, i, x).value, i) == Some(x)
  {
    BoolDecodeInverse(x);
  }

  /**
   * The receiver after s.Decode of x into field i, whether the decode succeeds or fails. The integer,
   * byte-slice and boolean decoders store a value only once it is complete, and a nil pointer gets
   * its new record only on success; but the rate limits behind an existing pointer and the topic
   * slice are decoded in place, so a failure can leave them partly overwritten.
   */
  function WriteField(o: StatusOptions, i: nat, x: Item): (r: StatusOptions)
    requires i < NumFields
    ensures DecodeField(o, i, x).Ok? ==> r == DecodeField(o, i, x).value
    ensures SameOutside(o, r, i)
    ensures KeepsPresent(o, r)
    ensures DecodeField(o, i, x).Err? && (i < 4 || (i == 4 && o.rateLimits.None?) || x.Str?) ==> r == o
  {
    match DecodeField(o, i, x)
    case Ok(r) => r
    case Err(_) =>
      if i == 4 && o.rateLimits.Some? then
        o.(rateLimits := Some(RateLimit.DecodeInPlace(o.rateLimits.value, x)))
      else if i == 5 && x.List? then
        o.(topicInterest := Some(TopicsInPlace(if o.topicInterest.Some? then o.topicInterest.value else [], x.elems)))
      else o
  }

  /** The fields of o before index n; the others absent. */
  function Prefix(o: StatusOptions, n: nat): StatusOptions {
    StatusOptions(
      if 0 < n then o.powRequirement else None,
      if 1 < n then o.bloomFilter else None,
      if 2 < n then o.lightNodeEnabled else None,
      if 3 < n then o.confirmationsEnabled else None,
      if 4 < n then o.rateLimits else None,
      if 5 < n then o.topicInterest else None)
  }

  /** Decoding a present field's wire value into a record restores that field and nothing else. */
  lemma FieldRoundTrip(o: StatusOptions, i: nat)
    requires i < NumFields && FieldValue(o, i).Some?
    ensures DecodeField(Prefix(o, i), i, FieldValue(o, i).value) == Ok(Prefix(o, i + 1))
  {
    assert Pow256(8) == 0x1_0000_0000_0000_0000;
    if i == 0 {
      UintRoundTrip(o.powRequirement.value, 8);
    } else if i == 2 {
      BoolRoundTrip(o.lightNodeEnabled.value);
    } else if i == 3 {
      BoolRoundTrip(o.confirmationsEnabled.value);
    } else if i == 4 {
      RateLimit.RoundTrip(o.rateLimits.value);
    } else if i == 5 {
      TopicListRoundTrip(o.topicInterest.value);
    }
  }

  // ---------------------------------------------------------------------------------------------
  // Encoding

  /** The [key, value] list EncodeRLP emits for field i: none when the field is nil or has no key. */
  function EntryAt(o: StatusOptions, i: nat): seq<Item>
    requires i < NumFields
  {
    if FieldValue(o, i).Some? && i in IdxFieldKey then [List([Str(IdxFieldKey[i]), FieldValue(o, i).value])]
    else []
  }

  /** The entry of a present field i is ["i", value], with i's decimal digit as key. */
  lemma EntryAtShape(o: StatusOptions, i: nat)
    requires i < NumFields
    ensures EntryAt(o, i) == if FieldValue(o, i).Some? then [List([Str(Digit(i)), FieldValue(o, i).value])] else []
  {
    KeyTableShape();
  }

  /** The entries EncodeRLP emits for the fields from index n up to (not including) m, in field order. */
  function Entries(o: StatusOptions, n: nat, m: nat): seq<Item>
    requires n <= m <= NumFields
    decreases m
  {
    if m == n then [] else Entries(o, n, m - 1) + EntryAt(o, m - 1)
  }

  /** The item EncodeRLP writes for o: a list with one entry per present field. */
  function Encode(o: StatusOptions): (x: Item)
    ensures x.List? && |x.elems| == |PresentFields(o, NumFields)|
  {
    EncodeLayout(o, NumFields);
    List(Entries(o, 0, NumFields))
  }

  method EncodeRLP(o: StatusOptions) returns (encoded: Item)
    ensures encoded == Encode(o)
  {
    var optionsList: seq<Item> := [];
    for i := 0 to NumFields
      invariant optionsList == Entries(o, 0, i)
    {
      var field := FieldValue(o, i);
      if field.Some? {
        if i in IdxFieldKey {
          optionsList := optionsList + [List([Str(IdxFieldKey[i]), field.value])];
        }
      }
    }
    encoded := List(optionsList);
  }

  /** The indices of the present fields before index n, ascending. */
  function PresentFields(o: StatusOptions, n: nat): (p: seq<nat>)
    requires n <= NumFields
    ensures forall j: nat :: j in p <==> j < n && FieldValue(o, j).Some?
    ensures forall k :: 0 <= k < |p| ==> p[k] < n
    ensures forall k, l :: 0 <= k < l < |p| ==> p[k] < p[l]
  {
    if n == 0 then []
    else PresentFields(o, n - 1) + (if FieldValue(o, n - 1).Some? then [n - 1] else [])
  }

  /** entries are, in order, the ["N", value] lists of the present fields N listed in present. */
  predicate LaidOut(o: StatusOptions, entries: seq<Item>, present: seq<nat>) {
    && |entries| == |present|
    && forall k :: 0 <= k < |entries| ==>
         && present[k] < NumFields && FieldValue(o, present[k]).Some?
         && entries[k] == List([Str(Digit(present[k])), FieldValue(o, present[k]).value])
  }

  lemma LaidOutSnoc(o: StatusOptions, entries: seq<Item>, present: seq<nat>, j: nat)
    requires LaidOut(o, entries, present) && j < NumFields && FieldValue(o, j).Some?
    ensures LaidOut(o, entries + [List([Str(Digit(j)), FieldValue(o, j).value])], present + [j])
  {
    var entries', present' := entries + [List([Str(Digit(j)), FieldValue(o, j).value])], present + [j];
    forall k | 0 <= k < |entries'|
      ensures present'[k] < NumFields && FieldValue(o, present'[k]).Some?
      ensures entries'[k] == List([Str(Digit(present'[k])), FieldValue(o, present'[k]).value])
    {
      if k < |entries| {
        assert entries'[k] == entries[k] && present'[k] == present[k];
      }
    }
  }

  /** Adding field n - 1 to the encoding keeps the entries laid out as the present fields. */
  lemma EncodeLayoutStep(o: StatusOptions, n: nat)
    requires 0 < n <= NumFields
    requires LaidOut(o, Entries(o, 0, n - 1), PresentFields(o, n - 1))
    ensures LaidOut(o, Entries(o, 0, n), PresentFields(o, n))
  {
    EntryAtShape(o, n - 1);
    if FieldValue(o, n - 1).Some? {
      var entry := List([Str(Digit(n - 1)), FieldValue(o, n - 1).value]);
      assert Entries(o, 0, n) == Entries(o, 0, n - 1) + [entry];
      assert PresentFields(o, n) == PresentFields(o, n - 1) + [n - 1];
      LaidOutSnoc(o, Entries(o, 0, n - 1), PresentFields(o, n - 1), n - 1);
    } else {
      assert Entries(o, 0, n) == Entries(o, 0, n - 1) + [];
      assert PresentFields(o, n) == PresentFields(o, n - 1) + [];
    }
  }

  /** The k-th entry EncodeRLP emits is ["N", value] for the k-th present field N, and there are no others. */
  lemma {:induction false} EncodeLayout(o: StatusOptions, n: nat)
    requires n <= NumFields
    ensures LaidOut(o, Entries(o, 0, n), PresentFields(o, n))
  {
    if n > 0 {
      EncodeLayout(o, n - 1);
      EncodeLayoutStep(o, n);
    }
  }

  // ---------------------------------------------------------------------------------------------
  // Decoding

  datatype DecodeError =
    | OuterList(cause: RlpError)                        // "expected an outer list"
    | InnerList(cause: RlpError)                        // "expected an inner list"
    | InvalidKey(cause: RlpError)                       // "invalid key"
    | UnknownKeyValue(key: GoString, cause: RlpError)   // "failed to read the value of key"
    | OptionValue(key: GoString, cause: RlpError)       // "failed to decode an option"
    | InnerListEnd(cause: RlpError)                     // the ListEnd after a known option
    | OuterListEnd(cause: RlpError)                     // the final ListEnd

  /** What DecodeRLP leaves behind: the receiver's fields, the stream, and the error it returns (None for nil). */
  datatype Decoded = Decoded(opts: StatusOptions, rest: Stream, err: Option<DecodeError>)

  /** What the decoder does with an entry once it has read a key it does not know. */
  datatype UnknownKeyPolicy =
    | ReadOneItem    // as handshake.go does: one s.Raw() and on to the next loop iteration
    | SkipInnerList  // drop what is left of the [key, ...] list and leave that list

  /**
   * What follows an unknown key. ReadOneItem reads the next item of the entry, as s.Raw() does, and
   * stays inside the entry's list. SkipInnerList drops the rest of that list and leaves it.
   */
  function SkipUnknown(s: Stream, policy: UnknownKeyPolicy): (r: Result<Stream, RlpError>)
    ensures policy.ReadOneItem? ==> (r.Ok? <==> s.Current() != [])
    ensures policy.ReadOneItem? && r.Ok? ==> r.value == Advance(s)
    ensures policy.SkipInnerList? ==> (r.Ok? <==> s.InList())
    ensures policy.SkipInnerList? && r.Ok? ==> r.value.frames == s.Enclosing()
  {
    match policy
    case ReadOneItem =>
      (match ReadItem(s) case Err(e) => Err(e) case Ok((_, rest)) => Ok(rest))
    case SkipInnerList =>
      if s.InList() then Ok(Stream(s.Enclosing())) else Err(NotInList)
  }

  lemma SkipUnknownShrinks(s: Stream, policy: UnknownKeyPolicy)
    requires SkipUnknown(s, policy).Ok?
    ensures SkipUnknown(s, policy).value.Size() <= s.Size()
  {
    if policy.ReadOneItem? {
      AdvanceShrinks(s);
    } else {
      LeaveListShrinks(s);
    }
  }

  /** s.Decode into field i: read the next item and decode it into that field. */
  function DecodeOption(o: StatusOptions, i: nat, s: Stream): (r: Result<(StatusOptions, Stream), RlpError>)
    requires i < NumFields
    ensures r.Ok? ==> s.Current() != [] && r.value.1 == Advance(s)
  {
    match ReadItem(s)
    case Err(e) => Err(e)
    case Ok((x, rest)) =>
      match DecodeField(o, i, x)
      case Err(e) => Err(e)
      case Ok(o') => Ok((o', rest))
  }

  /** The receiver after a failed s.Decode into field i from s: untouched when no item was left to read. */
  function WriteOption(o: StatusOptions, i: nat, s: Stream): (r: StatusOptions)
    requires i < NumFields
    ensures SameOutside(o, r, i)
    ensures KeepsPresent(o, r)
    ensures s.Current() == [] ==> r == o
  {
    if s.Current() == [] then o else WriteField(o, i, s.Current()[0])
  }

  /**
   * The loop of DecodeRLP, from the point where it opens the next entry, and the final ListEnd. It
   * never reads backwards, and a field the receiver held is never made nil.
   */
  function DecodeEntries(o: StatusOptions, s: Stream, policy: UnknownKeyPolicy): (d: Decoded)
    ensures d.rest.Size() <= s.Size()
    ensures KeepsPresent(o, d.opts)
    decreases s.Size()
  {
    match OpenList(s)
    case Err(EOL) =>
      (match CloseList(s)
       case Err(e) => Decoded(o, s, Some(OuterListEnd(e)))
       case Ok(after) => Decoded(o, after, None))
    case Err(e) => Decoded(o, s, Some(InnerList(e)))
    case Ok(entry) =>
      OpenListShrinks(s);
      match ReadString(entry)
      case Err(e) => Decoded(o, entry, Some(InvalidKey(e)))
      case Ok((key, afterKey)) =>
        AdvanceShrinks(entry);
        if key !in KeyFieldIdx then
          match SkipUnknown(afterKey, policy)
          case Err(e) => Decoded(o, afterKey, Some(UnknownKeyValue(key, e)))
          case Ok(next) =>
            SkipUnknownShrinks(afterKey, policy);
            DecodeEntries(o, next, policy)
        else
          KnownKeyIndex(key);
          match DecodeOption(o, KeyFieldIdx[key], afterKey)
          case Err(e) => Decoded(WriteOption(o, KeyFieldIdx[key], afterKey), afterKey, Some(OptionValue(key, e)))
          case Ok((o', afterValue)) =>
            match CloseList(afterValue)
            case Err(e) => Decoded(o', afterValue, Some(InnerListEnd(e)))
            case Ok(next) =>
              AdvanceShrinks(afterKey);
              LeaveListShrinks(afterValue);
              DecodeEntries(o', next, policy)
  }

  /** DecodeRLP with the given treatment of unknown keys. */
  function Decode(o: StatusOptions, s: Stream, policy: UnknownKeyPolicy): (d: Decoded)
    ensures d.rest.Size() <= s.Size()
    ensures KeepsPresent(o, d.opts)
  {
    match OpenList(s)
    case Err(e) => Decoded(o, s, Some(OuterList(e)))
    case Ok(entries) =>
      OpenListShrinks(s);
      DecodeEntries(o, entries, policy)
  }

  method DecodeRLP(o: StatusOptions, s: Stream) returns (d: Decoded)
    ensures d == Decode(o, s, ReadOneItem)
  {
    var outer := OpenList(s);
    if outer.Err? {
      return Decoded(o, s, Some(OuterList(outer.error)));
    }
    var opts, st := o, outer.value;
    var inner := OpenList(st);
    while inner != Err(EOL)
      invariant inner == OpenList(st)
      invariant DecodeEntries(opts, st, ReadOneItem) == Decode(o, s, ReadOneItem)
      decreases st.Size()
    {
      if inner.Err? {
        return Decoded(opts, st, Some(InnerList(inner.error)));
      }
      var entry := inner.value;
      var key := ReadString(entry);
      if key.Err? {
        return Decoded(opts, entry, Some(InvalidKey(key.error)));
      }
      var (k, afterKey) := key.value;
      OpenListShrinks(st);
      AdvanceShrinks(entry);
      if k !in KeyFieldIdx {
        var raw := ReadItem(afterKey);
        if raw.Err? {
          return Decoded(opts, afterKey, Some(UnknownKeyValue(k, raw.error)));
        }
        AdvanceShrinks(afterKey);
        st := raw.value.1;
      } else {
        KnownKeyIndex(k);
        var decoded := DecodeOption(opts, KeyFieldIdx[k], afterKey);
        if decoded.Err? {
          return Decoded(WriteOption(opts, KeyFieldIdx[k], afterKey), afterKey, Some(OptionValue(k, decoded.error)));
        }
        var afterValue;
        opts, afterValue := decoded.value.0, decoded.value.1;
        var closed := CloseList(afterValue);
        if closed.Err? {
          return Decoded(opts, afterValue, Some(InnerListEnd(closed.error)));
        }
        AdvanceShrinks(afterKey);
        LeaveListShrinks(afterValue);
        st := closed.value;
      }
      inner := OpenList(st);
    }
    var closed := CloseList(st);
    match closed
    case Err(e) => d := Decoded(opts, st, Some(OuterListEnd(e)));
    case Ok(after) => d := Decoded(opts, after, None);
  }
}
