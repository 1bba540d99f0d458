# Waku handshake options codec

This project models the option record that two Waku peers exchange during the handshake
(`statusOptions` in `waku/handshake.go`) and proves properties of that model. It covers:

- the two default transforms, `WithoutDefaults` and `WithDefaults`;
- the two tables between field indices and wire keys, `keyFieldIdx` and `idxFieldKey`, which are
  built from the fields' `rlp:"key=N"` tags;
- `EncodeRLP`, which writes one `[key, value]` list per present field inside an outer list;
- `DecodeRLP`, the lenient decoder that should skip keys it does not know;
- `Validate`, which bounds the topic-interest list at 1000 entries.

RLP is modelled at the level of items, not bytes. An item is either a byte string or a list of
items. A go-ethereum `rlp.Stream` becomes a stack of frames: the top-level items, then the
remaining items of each list that has been entered. `List`, `Raw`, `Decode` and `ListEnd` become
functions on that stack, and they report the same errors as go-ethereum (EOL, EOF, expected list,
expected string, not at end of list). The value decoders follow go-ethereum's rules:

- unsigned integers must be minimal big-endian, and no wider than the target type;
- booleans are the integers 0 and 1;
- byte slices are strings;
- `[4]byte` topics need exactly four bytes;
- the rate-limit struct is a list of exactly its three counters.

Files:

- `wrappers.dfy`: Option, Result and Outcome.
- `rlp.dfy`: items and the stream.
- `rlp_values.dfy`: integer, boolean and byte codecs.
- `rate_limits.dfy`: the rate-limit record.
- `options.dfy`: the record, the default transforms and `Validate`.
- `key_table.dfy`: the key tables and the loop that builds them.
- `options_codec.dfy`: `EncodeRLP` and `DecodeRLP`.
- `codec_properties.dfy`: the round trip, the error cases and unknown-key behaviour.

Three behaviours of the code are worth stating up front:

- **Partial record on error.** `DecodeRLP` writes each field in place through the receiver, so on an
  error the fields decoded before the failure stay written. The failing field itself can be partly
  written too, because go-ethereum decodes into the existing value. A topic list keeps the topics
  read before the bad element, then the slot of the bad element as it was and the old topics after
  it. A rate-limit record that was already present keeps the counters read before the bad one.
  `OptionsCodec.WriteField` models what a failed field decode leaves behind.
- **Unknown keys.** The comment at `waku/handshake.go:16-17` says that options the record does not
  know should be ignored during deserialization, so that the format stays forward compatible. The
  comment at `waku/handshake.go:159` says the rest of the entry is dumped. The code does not do this
  (see Findings). `DecodeRLP` models the code as written. A second policy, `SkipInnerList`, models
  the evidently intended behaviour, and the forward-compatibility properties are proved about that
  policy.
- **Inner `ListEnd` after a known option.** When that `ListEnd` fails, its error comes back without the
  wrapping text that the other errors carry, exactly as in the code.

## Model

| member | source | states |
|---|---|---|
| Options.WithoutDefaults | waku/handshake.go:29-47 | Each of PoW requirement 0, light node false, confirmations false and all-zero rate limits becomes absent (if and only if, field by field). Every other value, the bloom filter and the topics are kept. The result holds no default value. |
| Options.WithDefaults | waku/handshake.go:49-74 | Each absent PoW requirement, light-node flag, confirmations flag, rate limit and bloom filter is filled with 0, false, false, the zero rate limits and the full-node bloom. Present values and the topics are kept. |
| Options.WithoutDefaultsIdempotent | waku/handshake.go:29-47 | Stripping defaults twice is the same as stripping once. |
| Options.WithDefaultsIdempotent | waku/handshake.go:49-74 | Filling defaults twice is the same as filling once. |
| Options.FillAfterStrip | waku/handshake.go:29-74 | Filling after stripping is the same as filling: the receiver reconstructs what the sender omitted. |
| Options.FillUndoesStrip | waku/handshake.go:29-74 | A record whose defaulted fields are all present comes back unchanged from strip then fill. |
| Options.StripUndoesFill | waku/handshake.go:29-74 | A record with no default values and a bloom filter comes back unchanged from fill then strip. |
| Options.Validate | waku/handshake.go:177-182 | Passes if and only if the topic list is absent or holds at most 1000 entries. A failure carries the offending count; the count is an addition of the model, since the code returns a fixed message. |
| Options.ValidateBoundary | waku/handshake.go:178-180 | 1000 topics pass and 1001 topics fail, whatever the other fields hold. |
| Options.ValidateIgnoresDefaults | waku/handshake.go:177-182 | Neither default transform changes the outcome of Validate. |
| KeyTable.BuildKeyTables | waku/handshake.go:76-96 | The initialisation loop builds exactly the two tables. idxFieldKey maps each field index to its tag. keyFieldIdx holds exactly the declared keys. With distinct tags, each key maps back to its own field. |
| KeyTable.IdxFieldKeyOfShape | waku/handshake.go:76-96 | idxFieldKey is defined exactly on the field indices, and it maps each index to that field's tag. |
| KeyTable.KeyFieldIdxOfShape | waku/handshake.go:76-96 | keyFieldIdx is defined exactly on the declared tags, and it maps each tag to a field that declares it. |
| KeyTable.TablesInverse | waku/handshake.go:76-96 | With distinct tags, the two tables are mutual inverses in both directions. |
| KeyTable.KeyFieldIdxIsLast | waku/handshake.go:91-93 | A key that several fields declare maps to the last of them, because later writes overwrite earlier ones. |
| KeyTable.DuplicateTagHidesField | waku/handshake.go:91-93 | When two fields declare the same key, the earlier field cannot be reached from that key. |
| KeyTable.FieldTagsAreDigits | waku/handshake.go:20-27 | The six tags are "0" to "5" in field order, and they are distinct. |
| KeyTable.KeyTableShape | waku/handshake.go:20-27 | Field i has key "i" in both tables. No other key is known, and no other index has a key. |
| KeyTable.KnownKeyIndex | waku/handshake.go:157 | A key found in keyFieldIdx names one of the six fields. |
| Rlp.OpenList | waku/handshake.go:131 | s.List() succeeds if and only if the next item is a list. It then enters that list, after moving past it in the enclosing list. |
| Rlp.ReadItem | waku/handshake.go:160 | s.Raw() succeeds if and only if an item is left in the current list, and it returns that item. |
| Rlp.ReadString | waku/handshake.go:150 | Decoding a string key succeeds if and only if the next item is a string, and it returns that string's bytes. |
| Rlp.CloseList | waku/handshake.go:169 | s.ListEnd() succeeds if and only if a list is open and fully read. It then returns to the enclosing list. |
| Rlp.AdvanceShrinks | waku/handshake.go:138-172 | Reading an item leaves less input. |
| Rlp.OpenListShrinks | waku/handshake.go:140 | Entering a list leaves less input. |
| Rlp.LeaveListShrinks | waku/handshake.go:169 | Leaving a list never adds input. |
| RlpValues.DecodeUint | waku/handshake.go:21 | A decoded integer fits in the target width. |
| RlpValues.UintRoundTrip | waku/handshake.go:21 | Every integer that fits in the width decodes back from its encoding. |
| RlpValues.UintDecodeInverse | waku/handshake.go:21 | The integer decoder accepts only what the encoder writes: no leading zero, no list. |
| RlpValues.DecodeUint64 | waku/handshake.go:21 | A uint64 is read exactly from a string of at most eight bytes without a leading zero, and the value read encodes back to that string. |
| RlpValues.DecodeBool | waku/handshake.go:23-24 | A bool is read exactly from the empty string (false) and the byte 1 (true); anything else is refused. |
| RlpValues.DecodeBytes | waku/handshake.go:22 | A byte slice is read from any string, as exactly its bytes; a list is refused. |
| RlpValues.BoolRoundTrip | waku/handshake.go:23-24 | true and false decode back from their encodings. |
| RlpValues.BoolDecodeInverse | waku/handshake.go:23-24 | The bool decoder accepts only the encodings of 0 and 1. |
| RlpValues.DecodeByteArray | waku/handshake.go:26 | A decoded [4]byte has exactly four bytes. |
| RateLimit.Encode | waku/handshake.go:25 | The record is written as a list of its three counters, each a canonical integer of at most eight bytes. |
| RateLimit.Decode | waku/handshake.go:25 | The record is read exactly from a list of three elements that each decode as a uint64, and the counters are those elements in field order. |
| RateLimit.RoundTrip | waku/handshake.go:25 | The rate-limit record decodes back from its encoding. |
| RateLimit.DecodeInverse | waku/handshake.go:25 | The rate-limit decoder accepts only a list of exactly three canonical integers. |
| OptionsCodec.DecodeTopic | waku/handshake.go:26 | A topic is read exactly from a string of four bytes, and it is those bytes. |
| OptionsCodec.DecodeTopicList | waku/handshake.go:26 | A topic list decodes if and only if every element is a topic. Its result has one topic per element, each the bytes of that element. |
| OptionsCodec.TopicListRoundTrip | waku/handshake.go:26 | A topic list decodes back from its encoding. |
| OptionsCodec.TopicListDecodeInverse | waku/handshake.go:26 | The topic-list decoder accepts only lists of 4-byte strings, which are exactly what the encoder writes. |
| RateLimit.DecodeInPlace | waku/handshake.go:25 | Decoding into an existing rate-limit record stores the whole result on success. A string leaves the record unchanged, and so does a bad first counter. A bad second counter keeps the first one stored, and a bad third counter keeps the first two. A list with too many counters still stores all three. |
| OptionsCodec.GoodTopics | waku/handshake.go:26 | Counts the elements in front of the first one that is not a topic: every element before that count is a topic, the element at it (when there is one) is not, and the list decodes if and only if the count is the whole list. |
| OptionsCodec.DecodedTopics | waku/handshake.go:26 | The topics read before the first bad element, one per good element. |
| OptionsCodec.DecodedTopicsPrefix | waku/handshake.go:26 | When a topic list fails, a bad element exists, and the elements before it decode to DecodedTopics. |
| OptionsCodec.TopicsInPlace | waku/handshake.go:26 | Decoding into an existing topic slice gives exactly the decoded list whenever decoding succeeds. |
| OptionsCodec.Leftover | waku/handshake.go:26 | The slots of a reused slice from n on are never empty, and they are the old ones when the old slice had slot n. |
| OptionsCodec.LeftoverShift | waku/handshake.go:26 | Dropping the first slot of a reused slice shifts its slots by one. |
| OptionsCodec.TopicsInPlaceSplitStep | waku/handshake.go:26 | A good first element is put in front of what the rest of a failing list leaves in the slice. |
| OptionsCodec.TopicsInPlaceSplit | waku/handshake.go:26 | After a failure, the slice is the topics read, then the leftover slots. |
| OptionsCodec.TopicsInPlaceFailure | waku/handshake.go:26 | After a failure at the first bad element, the slice holds the topics read before it, then the old slice from that slot on, or one zero topic when the old slice was shorter. |
| OptionsCodec.WriteField | waku/handshake.go:166 | What s.Decode leaves in field i: the decoded value on success, nothing outside field i, and field i unchanged when the field is decoded only on success (integers, flags, bytes, an absent rate-limit record, a string value). |
| OptionsCodec.DecodeField | waku/handshake.go:166 | A successful s.Decode into field i changes no other field and leaves field i present. |
| OptionsCodec.DecodeFieldCanonical | waku/handshake.go:166-168 | A successful s.Decode into field i changes only that field. The field becomes present, and its encoding is the item that was read. |
| OptionsCodec.DecodedUintIsCanonical | waku/handshake.go:166 | The PoW requirement read from x encodes back to x. |
| OptionsCodec.DecodedBoolIsCanonical | waku/handshake.go:166 | A flag read from x encodes back to x. |
| OptionsCodec.FieldRoundTrip | waku/handshake.go:123 | Decoding the value EncodeRLP writes for a present field restores exactly that field. |
| OptionsCodec.EntryAtShape | waku/handshake.go:115-124 | A present field i is written as ["i", value]. An absent field writes nothing. |
| OptionsCodec.Encode | waku/handshake.go:111-128 | The encoding of a record is a list with exactly one entry per present field. |
| OptionsCodec.EncodeRLP | waku/handshake.go:111-128 | The loop over the fields produces the outer list of per-field entries, in field order. |
| OptionsCodec.PresentFields | waku/handshake.go:114-116 | Lists exactly the indices of the non-nil fields, in ascending order. |
| OptionsCodec.LaidOutSnoc | waku/handshake.go:114-124 | Appending the entry of one more present field extends the layout by that field. |
| OptionsCodec.EncodeLayoutStep | waku/handshake.go:114-124 | Each iteration of the encoding loop keeps the entries laid out as the present fields. |
| OptionsCodec.EncodeLayout | waku/handshake.go:111-128 | There is one entry per present field and no other. The k-th entry is [decimal key of the k-th present field, its value]. |
| OptionsCodec.DecodeOption | waku/handshake.go:166 | A successful field decode has consumed exactly one item. |
| OptionsCodec.SkipUnknown | waku/handshake.go:159-164 | What follows an unknown key, under the two policies of UnknownKeyPolicy. ReadOneItem reads one item, as the code does: it succeeds exactly when an item is left, and it stays inside the entry's list. SkipInnerList is the corrected policy: it leaves the entry's list, and it succeeds exactly when a list is open. |
| OptionsCodec.SkipUnknownShrinks | waku/handshake.go:159-164 | Skipping after an unknown key never adds input, so the decode loop terminates. |
| OptionsCodec.WriteOption | waku/handshake.go:166-168 | After a failed s.Decode into field i, no other field has changed and no field has become nil. With no item left to read, the record is unchanged. |
| OptionsCodec.DecodeEntries | waku/handshake.go:138-174 | The loop over the entries, then the final ListEnd. It never moves the stream backwards, and it never makes a present field nil, on success and on error. |
| OptionsCodec.Decode | waku/handshake.go:130-175 | DecodeRLP under either unknown-key policy. It never moves the stream backwards, and it never makes a present field nil. |
| OptionsCodec.DecodeRLP | waku/handshake.go:130-175 | The loop computes the decoder as written. Its variant is the input left, so every iteration consumes input. |
| CodecProperties.KnownEntryStep | waku/handshake.go:140-171 | A well-formed [known key, value] entry sets that field and moves past the entry. |
| CodecProperties.DecodeEntryAt | waku/handshake.go:140-171 | The entry EncodeRLP writes for field n adds field n to the decoded record. |
| CodecProperties.DecodeEntriesRange | waku/handshake.go:138-172 | Decoding the entries for fields n up to m adds exactly those fields. |
| CodecProperties.DecodeEntriesFromFresh | waku/handshake.go:138-172 | From an empty record, the entries for fields before n decode to those fields. |
| CodecProperties.DecodeOpensList | waku/handshake.go:131-134 | DecodeRLP starts by entering the outer list. |
| CodecProperties.DecodeAtListEnd | waku/handshake.go:144-145 | At the end of the outer list, the loop stops and the final ListEnd succeeds. |
| CodecProperties.RoundTrip | waku/handshake.go:111-175 | Decoding into an empty record what EncodeRLP wrote for o, at any nesting depth and followed by anything, yields exactly o. It consumes exactly that item and reports no error. This holds under both unknown-key policies. |
| CodecProperties.RoundTripAlone | waku/handshake.go:111-175 | The round trip for a message that is just the encoded options. |
| CodecProperties.OuterNotAList | waku/handshake.go:131-134 | Input that is not a list fails with "expected an outer list" and the stream's own error. Nothing is consumed and nothing is decoded. |
| CodecProperties.EntryNotAList | waku/handshake.go:140-148 | An entry that is a string fails with "expected an inner list". |
| CodecProperties.EntryWithoutKey | waku/handshake.go:149-152 | An empty entry fails with "invalid key" (EOL), and the record is untouched. |
| CodecProperties.KeyNotAString | waku/handshake.go:149-152 | A key that is a list fails with "invalid key", and the record is untouched. |
| CodecProperties.KnownKeyWithoutValue | waku/handshake.go:166-168 | A known key without a value fails with "failed to decode an option" (EOL). |
| CodecProperties.KnownKeyBadValue | waku/handshake.go:166-168 | A value the field's decoder refuses is reported with that decoder's error. The record is left as the failed decode of that field leaves it (WriteField). |
| CodecProperties.TopicThenShortString | waku/handshake.go:26 | The value [topic, "xx"] fails as a topic list with "too short", and decoding it into an absent topic list leaves [topic, zero topic]. |
| CodecProperties.TopicListPartlyWritten | waku/handshake.go:166-168 | The entry ["5", [topic, "xx"]] fails with "failed to decode an option 5", and the record keeps the topic list [topic, zero topic]. |
| CodecProperties.KnownKeyTrailingItems | waku/handshake.go:169-171 | A known key with extra values fails at ListEnd with "not at end of list", after the field has already been written. |
| CodecProperties.UnknownKeyWithoutValue | waku/handshake.go:160-163 | An unknown key without a value fails with "failed to read the value of key". |
| CodecProperties.FinalListEndSucceeds | waku/handshake.go:138-174 | The final ListEnd never fails, because the loop stops only at the end of an open list. |
| CodecProperties.UnknownKeyReadsOneItem | waku/handshake.go:157-164 | As written: after an unknown key, one item is read, and the rest of the [key, ...] list is taken for entries. |
| CodecProperties.UnknownKeyEndsDecoding | waku/handshake.go:157-164 | As written: an unknown [key, value] entry ends the loop. That entry's list is closed, and the enclosing list is left open. |
| CodecProperties.UnknownKeySkipsEntry | waku/handshake.go:153-164 | Corrected: an unknown entry of any shape is dropped, and the loop goes on after it. |
| CodecProperties.UnknownKeyStopsLoop | waku/handshake.go:157-165 | As written: after the fields before n, an unknown entry stops the loop. |
| CodecProperties.UnknownKeyDropsLaterFields | waku/handshake.go:157-165 | As written: an unknown option sent among the fields of o yields only the fields before it, and no error. The later entries stay unread, and the outer list stays open. |
| CodecProperties.DecodeRemainingFields | waku/handshake.go:138-174 | The entries of the fields from n on complete the record and end the list. |
| CodecProperties.UnknownKeySkippedAfterFields | waku/handshake.go:153-165 | Corrected: an unknown entry after the fields before n is passed over. |
| CodecProperties.UnknownKeySkippedInLoop | waku/handshake.go:138-172 | Corrected: with an unknown entry anywhere, the loop still reads all the known fields. |
| CodecProperties.UnknownKeySkippedAnywhere | waku/handshake.go:153-175 | Corrected: an unknown option of any shape, anywhere among the fields of o, still yields exactly o, with the list fully read and no error. |
| CodecProperties.NineUnknownTwoKnown | waku/handshake.go:157 | "9" is not a known key, and "2" is the key of the light-node flag. |
| CodecProperties.UnknownHeadEndsLoop | waku/handshake.go:157-165 | As written: an unknown entry at the head of the options list ends decoding with no error. |
| CodecProperties.UnknownHeadSkipped | waku/handshake.go:153-165 | Corrected: an unknown entry at the head of the options list is skipped as a whole. |
| CodecProperties.UnknownKeyCounterexample | waku/handshake.go:157-165 | As written: [["9", ""], ["2", true]] decodes to an empty record with no error. The light-node flag is lost. |
| CodecProperties.TrueSetsLightNode | waku/handshake.go:23 | The integer 1 under key "2" sets the light-node flag to true. |
| CodecProperties.LightNodeEntry | waku/handshake.go:140-174 | A lone ["2", true] entry sets the light-node flag and ends the list. |
| CodecProperties.UnknownKeyCounterexampleCorrected | waku/handshake.go:153-175 | Corrected: the same input sets the light-node flag and reads the list to its end. |

## Left out

- `PoWRequirementF` and `SetPoWRequirementFromF` convert between a float64 and its IEEE-754 bits. Floating point is not modelled; the PoW requirement is its raw 64-bit pattern throughout.
- Reflection is not modelled. The six field tags are written out as a table in field order. The check for unexported and untagged fields is left out, because every field of `statusOptions` is exported and tagged.
- RLP's byte-level framing (length prefixes, the size limits of `rlp.Stream`, reading from an `io.Reader`) is not modelled. Encoding and decoding work on item trees, and the writer of `EncodeRLP` is its returned item.
- `MakeFullNodeBloom` is a constant whose bytes are not modelled; its definition is not part of this model.
- `RateLimits` is declared outside `waku/handshake.go`. It is modelled as a struct of three `uint64` counters with the zero value as its only default. Its own methods are not part of this model.
- OptionsCodec.DecodeRLP returns the decoded record as a value instead of writing through the receiver pointer. Aliasing between the receiver and other references is not captured.
- Error messages are modelled as error constructors carrying the key and the underlying stream error, not as formatted text.
- Options.Validate: its error carries the number of topics, which the code's fixed message does not; nothing else depends on that number.
- OptionsCodec.TopicsInPlace: the spare capacity of a reused slice is not tracked. A slot added beyond the old length is modelled as the zero topic, whereas go-ethereum may expose bytes left there by an earlier, longer decode into the same field.
- OptionsCodec.DecodeRLP: after a failed option decode, the stream is modelled as positioned at the start of the value. go-ethereum may have read part of it, but the stream is not used after an error.
- `multiaccounts/migrations/bindata.go` is not part of this model: it is generated asset code unrelated to the codec.

## Findings

| source | as written | input that shows it | evidently intended | confidence | as-written member | corrected member |
|---|---|---|---|---|---|---|
| waku/handshake.go:157-165 | For an unknown key, the decoder calls `s.Raw()` once and continues without `s.ListEnd()`. The next `s.List()` then meets the end of that inner list, and the loop stops. The final `ListEnd` closes the inner list, not the outer one. Decoding reports success, but every field after the unknown option is dropped, and the outer list is left open. | The outer list `[["9", ""], ["2", 0x01]]`, which is an unknown option followed by lightNodeEnabled = true. It decodes to an empty record with no error. | Drop the rest of the unknown entry and leave its list, then continue with the next entry. Every known field is then decoded wherever the unknown option stands. | not executed | CodecProperties.UnknownKeyCounterexample | CodecProperties.UnknownKeyCounterexampleCorrected |
