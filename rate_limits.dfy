/**
 * The peer's rate limits. Their type is declared outside the handshake file; the options codec uses
 * only what is here: the zero value, the IsZero test and the item codec the rlp package derives for
 * a struct of three uint64 counters (a list of exactly three integers).
 */
module RateLimit {
  import opened Wrappers
  import opened Rlp
  import opened RlpValues

  datatype RateLimits = RateLimits(ipLimits: uint64, peerIdLimits: uint64, topicLimits: uint64)

  /** The value of `RateLimits{}`. */
  const Zero := RateLimits(0, 0, 0)

  predicate IsZero(r: RateLimits) {
    r == Zero
  }

  /** The struct is written as the list of its three counters, in field order, each a canonical integer. */
  function Encode(r: RateLimits): (x: Item)
    ensures x.List? && |x.elems| == 3
    ensures forall k :: 0 <= k < 3 ==> x.elems[k].Str? && |x.elems[k].bytes| <= 8 && Canonical(x.elems[k].bytes)
  {
    assert Pow256(8) == 0x1_0000_0000_0000_0000;
    UintBytesShape(r.ipLimits, 8);
    UintBytesShape(r.peerIdLimits, 8);
    UintBytesShape(r.topicLimits, 8);
    List([EncodeUint(r.ipLimits), EncodeUint(r.peerIdLimits), EncodeUint(r.topicLimits)])
  }

  /** A struct field read from element k of the struct's list; a missing element is too few. */
  function DecodeCounter(es: seq<Item>, k: nat): Result<uint64, RlpError> {
    if k < |es| then DecodeUint64(es[k]) else Err(TooFewElements)
  }

  /** The struct decoder: enter a list, read the three fields in order, then require its end. */
  function Decode(x: Item): (r: Result<RateLimits, RlpError>)
    ensures r.Ok? <==> x.List? && |x.elems| == 3 && forall k :: 0 <= k < 3 ==> DecodeUint64(x.elems[k]).Ok?
    ensures r.Ok? ==> r.value == RateLimits(DecodeUint64(x.elems[0]).value, DecodeUint64(x.elems[1]).value, DecodeUint64(x.elems[2]).value)
  {
    match x
    case Str(_) => Err(ExpectedList)
    case List(es) =>
      var ip :- DecodeCounter(es, 0);
      var peer :- DecodeCounter(es, 1);
      var topic :- DecodeCounter(es, 2);
      if |es| > 3 then Err(TooManyElements) else Ok(RateLimits(ip, peer, topic))
  }

  /**
   * The struct decoder run over x in place on an existing record r: each counter is stored as soon
   * as it is read, so a failure leaves the counters read before it written and the others as they
   * were. A record too long for the struct is reported only after all three counters are stored.
   */
  function DecodeInPlace(r: RateLimits, x: Item): (r': RateLimits)
    ensures Decode(x).Ok? ==> r' == Decode(x).value
    ensures x.Str? ==> r' == r
    ensures x.List? && Decode(x) == Err(TooManyElements) ==>
      r' == RateLimits(DecodeCounter(x.elems, 0).value, DecodeCounter(x.elems, 1).value, DecodeCounter(x.elems, 2).value)
    ensures x.List? && DecodeCounter(x.elems, 0).Err? ==> r' == r
    ensures x.List? && DecodeCounter(x.elems, 0).Ok? && DecodeCounter(x.elems, 1).Err? ==>
      r' == r.(ipLimits := DecodeCounter(x.elems, 0).value)
    ensures x.List? && DecodeCounter(x.elems, 0).Ok? && DecodeCounter(x.elems, 1).Ok? && DecodeCounter(x.elems, 2).Err? ==>
      r' == r.(ipLimits := DecodeCounter(x.elems, 0).value, peerIdLimits := DecodeCounter(x.elems, 1).value)
  {
    match x
    case Str(_) => r
    case List(es) =>
      match DecodeCounter(es, 0)
      case Err(_) => r
      case Ok(ip) =>
        var r1 := r.(ipLimits := ip);
        match DecodeCounter(es, 1)
        case Err(_) => r1
        case Ok(peer) =>
          var r2 := r1.(peerIdLimits := peer);
          match DecodeCounter(es, 2)
          case Err(_) => r2
          case Ok(topic) => r2.(topicLimits := topic)
  }

  lemma RoundTrip(r: RateLimits)
    ensures Decode(Encode(r)) == Ok(r)
  {
    assert Pow256(8) == 0x1_0000_0000_0000_0000;
    UintRoundTrip(r.ipLimits, 8);
    UintRoundTrip(r.peerIdLimits, 8);
    UintRoundTrip(r.topicLimits, 8);
  }

  /** The decoder accepts only what the encoder writes. */
  lemma DecodeInverse(x: Item)
    requires Decode(x).Ok?
    ensures Encode(Decode(x).value) == x
  {
    var es := x.elems;
    UintDecodeInverse(es[0], 8);
    UintDecodeInverse(es[1], 8);
    UintDecodeInverse(es[2], 8);
    assert es == [es[0], es[1], es[2]];
  }
}
