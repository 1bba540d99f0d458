/**
 * What DecodeRLP makes of what EncodeRLP writes, what it reports for malformed input, and what it
 * does with an option it does not know.
 */
module CodecProperties {
  import opened Wrappers
  import opened Rlp
  import opened RlpValues
  import opened Options
  import opened KeyTable
  import opened OptionsCodec

  // ---------------------------------------------------------------------------------------------
  // Single entries

  /** A [key, value] entry for a known key, read to its end, sets that field and moves on. */
  lemma KnownEntryStep(o: StatusOptions, enc: seq<seq<Item>>, k: GoString, v: Item, more: seq<Item>,
                       policy: UnknownKeyPolicy)
    requires |enc| > 0 && k in KeyFieldIdx && KeyFieldIdx[k] < NumFields
    requires DecodeField(o, KeyFieldIdx[k], v).Ok?
    ensures DecodeEntries(o, Within(enc, [List([Str(k), v])] + more), policy)
         == DecodeEntries(DecodeField(o, KeyFieldIdx[k], v).value, Within(enc, more), policy)
  {
    var s := Within(enc, [List([Str(k), v])] + more);
    FramesOf(enc, [List([Str(k), v])] + more);
    assert ([List([Str(k), v])] + more)[1..] == more;
    var entry := Within(enc + [more], [Str(k), v]);
    assert OpenList(s) == Ok(entry);
    FramesOf(enc + [more], [Str(k), v]);
    var afterKey := Within(enc + [more], [v]);
    assert ReadString(entry) == Ok((k, afterKey));
    FramesOf(enc + [more], [v]);
    var afterValue := Within(enc + [more], []);
    assert DecodeOption(o, KeyFieldIdx[k], afterKey) == Ok((DecodeField(o, KeyFieldIdx[k], v).value, afterValue));
    FramesOf(enc + [more], []);
    assert CloseList(afterValue) == Ok(Within(enc, more));
  }

  /** Decoding the entry EncodeRLP writes for field n, in a record holding the fields before n. */
  lemma DecodeEntryAt(o: StatusOptions, n: nat, enc: seq<seq<Item>>, tail: seq<Item>, policy: UnknownKeyPolicy)
    requires n < NumFields && |enc| > 0
    ensures DecodeEntries(Prefix(o, n), Within(enc, EntryAt(o, n) + tail), policy)
         == DecodeEntries(Prefix(o, n + 1), Within(enc, tail), policy)
  {
    if FieldValue(o, n).None? {
      assert EntryAt(o, n) + tail == tail;
      assert Prefix(o, n + 1) == Prefix(o, n);
    } else {
      KeyTableShape();
      FieldRoundTrip(o, n);
      KnownEntryStep(Prefix(o, n), enc, Digit(n), FieldValue(o, n).value, tail, policy);
    }
  }

  /** The entries of the fields n to m, decoded into a record holding the fields before n, add those fields. */
  lemma {:induction false} DecodeEntriesRange(o: StatusOptions, n: nat, m: nat, enc: seq<seq<Item>>,
                                              tail: seq<Item>, policy: UnknownKeyPolicy)
    requires n <= m <= NumFields && |enc| > 0
    ensures DecodeEntries(Prefix(o, n), Within(enc, Entries(o, n, m) + tail), policy)
         == DecodeEntries(Prefix(o, m), Within(enc, tail), policy)
    decreases m
  {
    if m == n {
      assert Entries(o, n, m) + tail == tail;
    } else {
      assert Entries(o, n, m) + tail == Entries(o, n, m - 1) + (EntryAt(o, m - 1) + tail);
      DecodeEntriesRange(o, n, m - 1, enc, EntryAt(o, m - 1) + tail, policy);
      DecodeEntryAt(o, m - 1, enc, tail, policy);
    }
  }

  /** The same, starting from a fresh record: the entries of the fields before n leave exactly those fields. */
  lemma DecodeEntriesFromFresh(o: StatusOptions, n: nat, enc: seq<seq<Item>>, tail: seq<Item>, policy: UnknownKeyPolicy)
    requires n <= NumFields && |enc| > 0
    ensures DecodeEntries(NoOptions, Within(enc, Entries(o, 0, n) + tail), policy)
         == DecodeEntries(Prefix(o, n), Within(enc, tail), policy)
  {
    var none := Prefix(o, 0);
    assert none == NoOptions;
    DecodeEntriesRange(o, 0, n, enc, tail, policy);
  }

  /** An options list, at any depth and followed by anything: DecodeRLP enters it and runs its loop over the entries. */
  lemma DecodeOpensList(o: StatusOptions, es: seq<Item>, enc: seq<seq<Item>>, rest: seq<Item>, policy: UnknownKeyPolicy)
    ensures Decode(o, Within(enc, [List(es)] + rest), policy) == DecodeEntries(o, Within(enc + [rest], es), policy)
  {
    FramesOf(enc, [List(es)] + rest);
    assert ([List(es)] + rest)[1..] == rest;
  }

  /** At the end of the options list the loop stops and the final ListEnd leaves the list. */
  lemma DecodeAtListEnd(o: StatusOptions, enc: seq<seq<Item>>, policy: UnknownKeyPolicy)
    requires |enc| > 0
    ensures DecodeEntries(o, Within(enc, []), policy) == Decoded(o, Stream(enc), None)
  {
    FramesOf(enc, []);
  }

  // ---------------------------------------------------------------------------------------------
  // Round trip

  /**
   * A fresh record decoding what EncodeRLP wrote for o, at any depth and followed by anything,
   * becomes o, consumes exactly that item and reports no error.
   */
  lemma RoundTrip(o: StatusOptions, enc: seq<seq<Item>>, rest: seq<Item>, policy: UnknownKeyPolicy)
    ensures Decode(NoOptions, Within(enc, [Encode(o)] + rest), policy) == Decoded(o, Within(enc, rest), None)
  {
    var s := Within(enc, [Encode(o)] + rest);
    FramesOf(enc, [Encode(o)] + rest);
    assert ([Encode(o)] + rest)[1..] == rest;
    assert Entries(o, 0, NumFields) + [] == Entries(o, 0, NumFields);
    assert OpenList(s) == Ok(Within(enc + [rest], Entries(o, 0, NumFields)));
    assert Prefix(o, 0) == NoOptions;
    DecodeEntriesRange(o, 0, NumFields, enc + [rest], [], policy);
    assert Prefix(o, NumFields) == o;
    DecodeAtListEnd(o, enc + [rest], policy);
  }

  /** A message that is the single item x, before and after reading it. */
  lemma SingleItemStream(x: Item)
    ensures Within([], [x] + []) == Stream([[x]])
    ensures Within([], []) == Stream([[]])
  {
    assert [x] + [] == [x];
  }

  /** The same for a message that is just the encoded options. */
  lemma RoundTripAlone(o: StatusOptions)
    ensures Decode(NoOptions, Stream([[Encode(o)]]), ReadOneItem) == Decoded(o, Stream([[]]), None)
  {
    RoundTrip(o, [], [], ReadOneItem);
    SingleItemStream(Encode(o));
  }

  // ---------------------------------------------------------------------------------------------
  // Error cases

  /** When the next item is not a list, nothing is decoded: "expected an outer list". */
  lemma OuterNotAList(o: StatusOptions, s: Stream, policy: UnknownKeyPolicy)
    requires s.Current() == [] || s.Current()[0].Str?
    ensures Decode(o, s, policy)
         == Decoded(o, s, Some(OuterList(if s.Current() != [] then ExpectedList else if s.InList() then EOL else EOF)))
  {
  }

  /** An entry that is a string: "expected an inner list". */
  lemma EntryNotAList(o: StatusOptions, enc: seq<seq<Item>>, b: seq<byte>, more: seq<Item>, policy: UnknownKeyPolicy)
    requires |enc| > 0
    ensures DecodeEntries(o, Within(enc, [Str(b)] + more), policy)
         == Decoded(o, Within(enc, [Str(b)] + more), Some(InnerList(ExpectedList)))
  {
    FramesOf(enc, [Str(b)] + more);
  }

  /** An empty entry has no key: "invalid key", at the end of the entry. */
  lemma EntryWithoutKey(o: StatusOptions, enc: seq<seq<Item>>, more: seq<Item>, policy: UnknownKeyPolicy)
    requires |enc| > 0
    ensures DecodeEntries(o, Within(enc, [List([])] + more), policy).err == Some(InvalidKey(EOL))
    ensures DecodeEntries(o, Within(enc, [List([])] + more), policy).opts == o
  {
    FramesOf(enc, [List([])] + more);
    assert ([List([])] + more)[1..] == more;
    FramesOf(enc + [more], []);
  }

  /** A key that is itself a list: "invalid key". */
  lemma KeyNotAString(o: StatusOptions, enc: seq<seq<Item>>, ks: seq<Item>, vs: seq<Item>, more: seq<Item>,
                      policy: UnknownKeyPolicy)
    requires |enc| > 0
    ensures DecodeEntries(o, Within(enc, [List([List(ks)] + vs)] + more), policy).err == Some(InvalidKey(ExpectedString))
    ensures DecodeEntries(o, Within(enc, [List([List(ks)] + vs)] + more), policy).opts == o
  {
    FramesOf(enc, [List([List(ks)] + vs)] + more);
    assert ([List([List(ks)] + vs)] + more)[1..] == more;
    FramesOf(enc + [more], [List(ks)] + vs);
  }

  /** A known key whose value is missing: "failed to decode an option", at the end of the entry. */
  lemma KnownKeyWithoutValue(o: StatusOptions, enc: seq<seq<Item>>, k: GoString, more: seq<Item>,
                             policy: UnknownKeyPolicy)
    requires |enc| > 0 && k in KeyFieldIdx
    ensures DecodeEntries(o, Within(enc, [List([Str(k)])] + more), policy).err == Some(OptionValue(k, EOL))
    ensures DecodeEntries(o, Within(enc, [List([Str(k)])] + more), policy).opts == o
  {
    FramesOf(enc, [List([Str(k)])] + more);
    assert ([List([Str(k)])] + more)[1..] == more;
    FramesOf(enc + [more], [Str(k)]);
    FramesOf(enc + [more], []);
  }

  /**
   * A known key whose value its field's decoder refuses: that decoder's error, with the record as
   * the failed decode leaves it (untouched, except for a topic list or existing rate limits written
   * in part).
   */
  lemma KnownKeyBadValue(o: StatusOptions, enc: seq<seq<Item>>, k: GoString, v: Item, extra: seq<Item>,
                         more: seq<Item>, policy: UnknownKeyPolicy)
    requires |enc| > 0 && k in KeyFieldIdx && KeyFieldIdx[k] < NumFields
    requires DecodeField(o, KeyFieldIdx[k], v).Err?
    ensures DecodeEntries(o, Within(enc, [List([Str(k), v] + extra)] + more), policy).err
         == Some(OptionValue(k, DecodeField(o, KeyFieldIdx[k], v).error))
    ensures DecodeEntries(o, Within(enc, [List([Str(k), v] + extra)] + more), policy).opts
         == WriteField(o, KeyFieldIdx[k], v)
  {
    var e := [Str(k), v] + extra;
    FramesOf(enc, [List(e)] + more);
    assert ([List(e)] + more)[1..] == more;
    FramesOf(enc + [more], e);
    assert e[1..] == [v] + extra;
    FramesOf(enc + [more], [v] + extra);
  }

  /**
   * A known key with more than one value: the field is already written when the inner ListEnd
   * fails with "not at end of list", and that error comes back unwrapped.
   */
  lemma KnownKeyTrailingItems(o: StatusOptions, enc: seq<seq<Item>>, k: GoString, v: Item, w: Item,
                              extra: seq<Item>, more: seq<Item>, policy: UnknownKeyPolicy)
    requires |enc| > 0 && k in KeyFieldIdx && KeyFieldIdx[k] < NumFields
    requires DecodeField(o, KeyFieldIdx[k], v).Ok?
    ensures DecodeEntries(o, Within(enc, [List([Str(k), v, w] + extra)] + more), policy)
         == Decoded(DecodeField(o, KeyFieldIdx[k], v).value, Within(enc + [more], [w] + extra),
                    Some(InnerListEnd(NotAtEOL)))
  {
    var e := [Str(k), v, w] + extra;
    FramesOf(enc, [List(e)] + more);
    assert ([List(e)] + more)[1..] == more;
    FramesOf(enc + [more], e);
    assert e[1..] == [v, w] + extra;
    FramesOf(enc + [more], [v, w] + extra);
    assert ([v, w] + extra)[1..] == [w] + extra;
    FramesOf(enc + [more], [w] + extra);
  }

  /** An unknown key with no value: "failed to read the value of key" under the one-item skip. */
  lemma UnknownKeyWithoutValue(o: StatusOptions, enc: seq<seq<Item>>, k: GoString, more: seq<Item>)
    requires |enc| > 0 && k !in KeyFieldIdx
    ensures DecodeEntries(o, Within(enc, [List([Str(k)])] + more), ReadOneItem)
         == Decoded(o, Within(enc + [more], []), Some(UnknownKeyValue(k, EOL)))
  {
    FramesOf(enc, [List([Str(k)])] + more);
    assert ([List([Str(k)])] + more)[1..] == more;
    FramesOf(enc + [more], [Str(k)]);
    FramesOf(enc + [more], []);
  }

  /**
   * The final ListEnd cannot fail: the loop stops only when s.List reports the end of an open
   * list, and that list can always be left.
   */
  lemma {:induction false} FinalListEndSucceeds(o: StatusOptions, s: Stream, policy: UnknownKeyPolicy)
    ensures DecodeEntries(o, s, policy).err.Some? ==> !DecodeEntries(o, s, policy).err.value.OuterListEnd?
    decreases s.Size()
  {
    match OpenList(s)
    case Err(_) =>
    case Ok(entry) =>
      match ReadString(entry)
      case Err(_) =>
      case Ok((key, afterKey)) =>
        OpenListShrinks(s);
        AdvanceShrinks(entry);
        if key !in KeyFieldIdx {
          match SkipUnknown(afterKey, policy)
          case Err(_) =>
          case Ok(next) =>
            SkipUnknownShrinks(afterKey, policy);
            FinalListEndSucceeds(o, next, policy);
        } else {
          KnownKeyIndex(key);
          match DecodeOption(o, KeyFieldIdx[key], afterKey)
          case Err(_) =>
          case Ok((o', afterValue)) =>
            match CloseList(afterValue)
            case Err(_) =>
            case Ok(next) =>
              AdvanceShrinks(afterKey);
              LeaveListShrinks(afterValue);
              FinalListEndSucceeds(o', next, policy);
        }
  }

  // ---------------------------------------------------------------------------------------------
  // Unknown keys

  /**
   * As written: after an unknown key the decoder reads one item and goes straight back to the top
   * of the loop, still inside the [key, ...] list, whose remaining items it takes for entries.
   */
  lemma UnknownKeyReadsOneItem(o: StatusOptions, enc: seq<seq<Item>>, k: GoString, v: Item, extra: seq<Item>,
                               more: seq<Item>)
    requires |enc| > 0 && k !in KeyFieldIdx
    ensures DecodeEntries(o, Within(enc, [List([Str(k), v] + extra)] + more), ReadOneItem)
         == DecodeEntries(o, Within(enc + [more], extra), ReadOneItem)
  {
    var e := [Str(k), v] + extra;
    FramesOf(enc, [List(e)] + more);
    assert ([List(e)] + more)[1..] == more;
    FramesOf(enc + [more], e);
    assert e[1..] == [v] + extra;
    FramesOf(enc + [more], [v] + extra);
    assert ([v] + extra)[1..] == extra;
  }

  /**
   * As written: an unknown [key, value] entry ends the loop, whose final ListEnd then leaves the
   * entry instead of the options list; what follows the entry is never read.
   */
  lemma UnknownKeyEndsDecoding(o: StatusOptions, enc: seq<seq<Item>>, k: GoString, v: Item, more: seq<Item>)
    requires |enc| > 0 && k !in KeyFieldIdx
    ensures DecodeEntries(o, Within(enc, [List([Str(k), v])] + more), ReadOneItem)
         == Decoded(o, Within(enc, more), None)
  {
    assert [Str(k), v] + [] == [Str(k), v];
    UnknownKeyReadsOneItem(o, enc, k, v, [], more);
    DecodeAtListEnd(o, enc + [more], ReadOneItem);
  }

  /** Corrected: an unknown entry, whatever it holds after its key, is dropped and decoding goes on. */
  lemma UnknownKeySkipsEntry(o: StatusOptions, enc: seq<seq<Item>>, k: GoString, vs: seq<Item>, more: seq<Item>)
    requires |enc| > 0 && k !in KeyFieldIdx
    ensures DecodeEntries(o, Within(enc, [List([Str(k)] + vs)] + more), SkipInnerList)
         == DecodeEntries(o, Within(enc, more), SkipInnerList)
  {
    var e := [Str(k)] + vs;
    FramesOf(enc, [List(e)] + more);
    assert ([List(e)] + more)[1..] == more;
    FramesOf(enc + [more], e);
    FramesOf(enc + [more], e[1..]);
  }

  /** As written: the loop over the options list stops at the first unknown [key, value] entry. */
  lemma UnknownKeyStopsLoop(o: StatusOptions, n: nat, k: GoString, v: Item, enc: seq<seq<Item>>, pre: seq<Item>,
                            later: seq<Item>)
    requires n <= NumFields && k !in KeyFieldIdx && |enc| > 0
    requires pre == Entries(o, 0, n) && later == Entries(o, n, NumFields)
    ensures DecodeEntries(NoOptions, Within(enc, pre + ([List([Str(k), v])] + later)), ReadOneItem)
         == Decoded(Prefix(o, n), Within(enc, later), None)
  {
    DecodeEntriesFromFresh(o, n, enc, [List([Str(k), v])] + later, ReadOneItem);
    UnknownKeyEndsDecoding(Prefix(o, n), enc, k, v, later);
  }

  /**
   * As written: an option unknown to the receiver, sent after the fields before n, hides every
   * later field, and the options list is left open with those fields unread.
   */
  lemma UnknownKeyDropsLaterFields(o: StatusOptions, n: nat, k: GoString, v: Item, enc: seq<seq<Item>>,
                                   rest: seq<Item>, pre: seq<Item>, later: seq<Item>)
    requires n <= NumFields && k !in KeyFieldIdx
    requires pre == Entries(o, 0, n) && later == Entries(o, n, NumFields)
    ensures Decode(NoOptions, Within(enc, [List(pre + ([List([Str(k), v])] + later))] + rest), ReadOneItem)
         == Decoded(Prefix(o, n), Within(enc + [rest], later), None)
  {
    DecodeOpensList(NoOptions, pre + ([List([Str(k), v])] + later), enc, rest, ReadOneItem);
    UnknownKeyStopsLoop(o, n, k, v, enc + [rest], pre, later);
  }

  /** The entries of the fields from n on, read into a record holding the fields before n, complete it and end the list. */
  lemma DecodeRemainingFields(o: StatusOptions, n: nat, enc: seq<seq<Item>>, later: seq<Item>, policy: UnknownKeyPolicy)
    requires n <= NumFields && |enc| > 0 && later == Entries(o, n, NumFields)
    ensures DecodeEntries(Prefix(o, n), Within(enc, later), policy) == Decoded(o, Stream(enc), None)
  {
    assert later + [] == later;
    DecodeEntriesRange(o, n, NumFields, enc, [], policy);
    assert Prefix(o, NumFields) == o;
    DecodeAtListEnd(o, enc, policy);
  }

  /** Corrected: an unknown entry among the known ones is passed over as a whole, and the loop goes on. */
  lemma UnknownKeySkippedAfterFields(o: StatusOptions, n: nat, k: GoString, vs: seq<Item>, enc: seq<seq<Item>>,
                                     pre: seq<Item>, later: seq<Item>)
    requires n <= NumFields && k !in KeyFieldIdx && |enc| > 0
    requires pre == Entries(o, 0, n)
    ensures DecodeEntries(NoOptions, Within(enc, pre + ([List([Str(k)] + vs)] + later)), SkipInnerList)
         == DecodeEntries(Prefix(o, n), Within(enc, later), SkipInnerList)
  {
    DecodeEntriesFromFresh(o, n, enc, [List([Str(k)] + vs)] + later, SkipInnerList);
    UnknownKeySkipsEntry(Prefix(o, n), enc, k, vs, later);
  }

  /** Corrected: an unknown entry anywhere among the known ones is skipped, and the loop reads them all. */
  lemma UnknownKeySkippedInLoop(o: StatusOptions, n: nat, k: GoString, vs: seq<Item>, enc: seq<seq<Item>>,
                                pre: seq<Item>, later: seq<Item>)
    requires n <= NumFields && k !in KeyFieldIdx && |enc| > 0
    requires pre == Entries(o, 0, n) && later == Entries(o, n, NumFields)
    ensures DecodeEntries(NoOptions, Within(enc, pre + ([List([Str(k)] + vs)] + later)), SkipInnerList)
         == Decoded(o, Stream(enc), None)
  {
    UnknownKeySkippedAfterFields(o, n, k, vs, enc, pre, later);
    DecodeRemainingFields(o, n, enc, later, SkipInnerList);
  }

  /**
   * Corrected: with the rest of an unknown entry dropped, an option the receiver does not know,
   * sent anywhere among the fields it does know, leaves the decoded record exactly o, and the
   * options list is read to its end.
   */
  lemma UnknownKeySkippedAnywhere(o: StatusOptions, n: nat, k: GoString, vs: seq<Item>, enc: seq<seq<Item>>,
                                  rest: seq<Item>, pre: seq<Item>, later: seq<Item>)
    requires n <= NumFields && k !in KeyFieldIdx
    requires pre == Entries(o, 0, n) && later == Entries(o, n, NumFields)
    ensures Decode(NoOptions, Within(enc, [List(pre + ([List([Str(k)] + vs)] + later))] + rest), SkipInnerList)
         == Decoded(o, Within(enc, rest), None)
  {
    DecodeOpensList(NoOptions, pre + ([List([Str(k)] + vs)] + later), enc, rest, SkipInnerList);
    UnknownKeySkippedInLoop(o, n, k, vs, enc + [rest], pre, later);
  }

  /** "9" is not one of the keys this decoder knows; "2" is the key of lightNodeEnabled. */
  lemma NineUnknownTwoKnown()
    ensures [0x39] !in KeyFieldIdx
    ensures [0x32] in KeyFieldIdx && KeyFieldIdx[[0x32]] == 2
  {
    KeyTableShape();
    forall i: nat | i < NumFields
      ensures Digit(i) != [0x39]
    {
    }
    assert Digit(2) == [0x32];
  }

  /** As written: an unknown [key, value] entry at the head of the options list ends the loop there. */
  lemma UnknownHeadEndsLoop(k: GoString, v: Item, later: seq<Item>)
    requires k !in KeyFieldIdx
    ensures Decode(NoOptions, Within([], [List([List([Str(k), v])] + later)]), ReadOneItem)
         == Decoded(NoOptions, Within([[]], later), None)
  {
    var es := [List([Str(k), v])] + later;
    var top: seq<seq<Item>>, none: seq<Item> := [], [];
    assert [List(es)] + none == [List(es)];
    assert top + [none] == [[]];
    DecodeOpensList(NoOptions, es, top, none, ReadOneItem);
    UnknownKeyEndsDecoding(NoOptions, [none], k, v, later);
  }

  /** Corrected: an unknown entry at the head of the options list is passed over as a whole. */
  lemma UnknownHeadSkipped(k: GoString, vs: seq<Item>, later: seq<Item>)
    requires k !in KeyFieldIdx
    ensures Decode(NoOptions, Within([], [List([List([Str(k)] + vs)] + later)]), SkipInnerList)
         == DecodeEntries(NoOptions, Within([[]], later), SkipInnerList)
  {
    var es := [List([Str(k)] + vs)] + later;
    var top: seq<seq<Item>>, none: seq<Item> := [], [];
    assert [List(es)] + none == [List(es)];
    assert top + [none] == [[]];
    DecodeOpensList(NoOptions, es, top, none, SkipInnerList);
    UnknownKeySkipsEntry(NoOptions, [none], k, vs, later);
  }

  /**
   * A peer that knows a seventh option "9" sends it before lightNodeEnabled = true: the code as
   * written stops at the unknown option, reports success, loses lightNodeEnabled and leaves the
   * options list open with the ["2", true] entry unread.
   */
  lemma UnknownKeyCounterexample()
    ensures Decode(NoOptions, Stream([[List([List([Str([0x39]), Str([])]), List([Str([0x32]), Str([1])])])]]), ReadOneItem)
         == Decoded(NoOptions, Stream([[], [List([Str([0x32]), Str([1])])]]), None)
  {
    NineUnknownTwoKnown();
    var later := [List([Str([0x32]), Str([1])])];
    assert [List([Str([0x39]), Str([])])] + later == [List([Str([0x39]), Str([])]), List([Str([0x32]), Str([1])])];
    UnknownHeadEndsLoop([0x39], Str([]), later);
    assert Within([], [List([List([Str([0x39]), Str([])])] + later)])
        == Stream([[List([List([Str([0x39]), Str([])]), List([Str([0x32]), Str([1])])])]]);
    assert Within([[]], later) == Stream([[], [List([Str([0x32]), Str([1])])]]);
  }

  /** The value true, written as the unsigned integer 1, decodes into lightNodeEnabled. */
  lemma TrueSetsLightNode()
    ensures DecodeField(NoOptions, 2, Str([1])) == Ok(NoOptions.(lightNodeEnabled := Some(true)))
  {
    BoolRoundTrip(true);
  }

  /** The entry ["2", true] alone in the options list sets lightNodeEnabled and ends the list. */
  lemma LightNodeEntry(policy: UnknownKeyPolicy)
    ensures DecodeEntries(NoOptions, Stream([[], [List([Str([0x32]), Str([1])])]]), policy)
         == Decoded(NoOptions.(lightNodeEnabled := Some(true)), Stream([[]]), None)
  {
    NineUnknownTwoKnown();
    TrueSetsLightNode();
    var top: seq<seq<Item>>, none: seq<Item> := [[]], [];
    assert [List([Str([0x32]), Str([1])])] + none == [List([Str([0x32]), Str([1])])];
    assert top + [[List([Str([0x32]), Str([1])])] + none] == [[], [List([Str([0x32]), Str([1])])]];
    KnownEntryStep(NoOptions, top, [0x32], Str([1]), none, policy);
    assert top + [none] == [[], []];
    DecodeAtListEnd(NoOptions.(lightNodeEnabled := Some(true)), top, policy);
  }

  /** The same input under the corrected skip: the unknown option is passed over and lightNodeEnabled is set. */
  lemma UnknownKeyCounterexampleCorrected()
    ensures Decode(NoOptions, Stream([[List([List([Str([0x39]), Str([])]), List([Str([0x32]), Str([1])])])]]), SkipInnerList)
         == Decoded(NoOptions.(lightNodeEnabled := Some(true)), Stream([[]]), None)
  {
    NineUnknownTwoKnown();
    var later := [List([Str([0x32]), Str([1])])];
    UnknownHeadSkipped([0x39], [Str([])], later);
    CounterexampleStreams();
    LightNodeEntry(SkipInnerList);
  }

  /** The counterexample's message, written as an unknown head entry followed by the light-node entry. */
  lemma CounterexampleStreams()
    ensures Within([], [List([List([Str([0x39])] + [Str([])])] + [List([Str([0x32]), Str([1])])])])
         == Stream([[List([List([Str([0x39]), Str([])]), List([Str([0x32]), Str([1])])])]])
    ensures Within([[]], [List([Str([0x32]), Str([1])])]) == Stream([[], [List([Str([0x32]), Str([1])])]])
  {
    assert [Str([0x39])] + [Str([])] == [Str([0x39]), Str([])];
    assert [List([Str([0x39])] + [Str([])])] + [List([Str([0x32]), Str([1])])]
        == [List([Str([0x39]), Str([])]), List([Str([0x32]), Str([1])])];
  }

  // ---------------------------------------------------------------------------------------------
  // Partial writes

  /** A topic t followed by the two-byte string "xx": the second element is too short for a topic. */
  lemma TopicThenShortString(t: TopicType)
    ensures DecodeField(NoOptions, 5, List([Str(t), Str([0x78, 0x78])])) == Err(StringTooShort)
    ensures WriteField(NoOptions, 5, List([Str(t), Str([0x78, 0x78])]))
         == NoOptions.(topicInterest := Some([t, ZeroTopic]))
  {
    var es := [Str(t), Str([0x78, 0x78])];
    assert es[1..] == [Str([0x78, 0x78])];
    assert GoodTopics(es) == 1;
    TopicsInPlaceFailure([], es);
    assert DecodedTopics(es) == [t];
    assert TopicsInPlace([], es) == [t] + [ZeroTopic] == [t, ZeroTopic];
    var x := List(es);
    assert DecodeField(NoOptions, 5, x).Err?;
    assert WriteField(NoOptions, 5, x) == NoOptions.(topicInterest := Some(TopicsInPlace([], es)));
  }

  /**
   * The entry ["5", [t, "xx"]] fails with "failed to decode an option 5", yet the topic slice has
   * already been set to [t, 00000000] in the receiver.
   */
  lemma TopicListPartlyWritten(enc: seq<seq<Item>>, t: TopicType, more: seq<Item>, policy: UnknownKeyPolicy)
    requires |enc| > 0
    ensures DecodeEntries(NoOptions, Within(enc, [List([Str([0x35]), List([Str(t), Str([0x78, 0x78])])])] + more), policy).err
         == Some(OptionValue([0x35], StringTooShort))
    ensures DecodeEntries(NoOptions, Within(enc, [List([Str([0x35]), List([Str(t), Str([0x78, 0x78])])])] + more), policy).opts
         == NoOptions.(topicInterest := Some([t, ZeroTopic]))
  {
    KeyTableShape();
    assert Digit(5) == [0x35];
    var v := List([Str(t), Str([0x78, 0x78])]);
    TopicThenShortString(t);
    assert [Str([0x35]), v] + [] == [Str([0x35]), v];
    KnownKeyBadValue(NoOptions, enc, [0x35], v, [], more, policy);
  }
}
