/**
 * The table between the fields of statusOptions and their wire keys. Every field declares its key
 * in an `rlp:"key=N"` tag; at start-up the package fills keyFieldIdx (key to field index) and
 * idxFieldKey (field index to key) in one pass over the fields. The tags are written out here as a
 * six-entry table in field order instead of being read by reflection.
 */
module KeyTable {
  import opened Rlp

  /** A Go string: an immutable sequence of bytes. */
  type GoString = seq<byte>

  const NumFields := 6

  /** The one-character decimal string of d. */
  function Digit(d: nat): GoString
    requires d < 10
  {
    [0x30 + d]
  }

  /** The key in each field's rlp tag, by field index. */
  const FieldTags: seq<GoString> := [Digit(0), Digit(1), Digit(2), Digit(3), Digit(4), Digit(5)]

  /** keyFieldIdx as the pass over `tags` leaves it: every key maps to the last field that declares it. */
  function KeyFieldIdxOf(tags: seq<GoString>): map<GoString, nat> {
    if tags == [] then map[]
    else KeyFieldIdxOf(tags[..|tags| - 1])[tags[|tags| - 1] := |tags| - 1]
  }

  /** idxFieldKey as the pass over `tags` leaves it. */
  function IdxFieldKeyOf(tags: seq<GoString>): map<nat, GoString> {
    if tags == [] then map[]
    else IdxFieldKeyOf(tags[..|tags| - 1])[|tags| - 1 := tags[|tags| - 1]]
  }

  predicate Distinct(tags: seq<GoString>) {
    forall i, j :: 0 <= i < j < |tags| ==> tags[i] != tags[j]
  }

  /** The initialiser of keyFieldIdx, which fills idxFieldKey in the same loop. */
  method BuildKeyTables(tags: seq<GoString>) returns (keyFieldIdx: map<GoString, nat>, idxFieldKey: map<nat, GoString>)
    ensures keyFieldIdx == KeyFieldIdxOf(tags) && idxFieldKey == IdxFieldKeyOf(tags)
    ensures forall i: nat :: i in idxFieldKey <==> i < |tags|
    ensures forall i :: 0 <= i < |tags| ==> idxFieldKey[i] == tags[i]
    ensures forall k :: k in keyFieldIdx <==> k in tags
    ensures Distinct(tags) ==> forall i :: 0 <= i < |tags| ==> keyFieldIdx[tags[i]] == i
  {
    keyFieldIdx, idxFieldKey := map[], map[];
    for i := 0 to |tags|
      invariant keyFieldIdx == KeyFieldIdxOf(tags[..i])
      invariant idxFieldKey == IdxFieldKeyOf(tags[..i])
    {
      assert tags[..i + 1][..i] == tags[..i];
      var key := tags[i];
      keyFieldIdx := keyFieldIdx[key := i];
      idxFieldKey := idxFieldKey[i := key];
    }
    assert tags[..|tags|] == tags;
    IdxFieldKeyOfShape(tags);
    KeyFieldIdxOfShape(tags);
    if Distinct(tags) {
      TablesInverse(tags);
    }
  }

  lemma {:induction false} IdxFieldKeyOfShape(tags: seq<GoString>)
    ensures forall i: nat :: i in IdxFieldKeyOf(tags) <==> i < |tags|
    ensures forall i :: 0 <= i < |tags| ==> IdxFieldKeyOf(tags)[i] == tags[i]
  {
    if tags != [] {
      var init := tags[..|tags| - 1];
      IdxFieldKeyOfShape(init);
      assert forall i :: 0 <= i < |init| ==> init[i] == tags[i];
    }
  }

  lemma {:induction false} KeyFieldIdxOfShape(tags: seq<GoString>)
    ensures forall k :: k in KeyFieldIdxOf(tags) <==> k in tags
    ensures forall k :: k in KeyFieldIdxOf(tags) ==> KeyFieldIdxOf(tags)[k] < |tags| && tags[KeyFieldIdxOf(tags)[k]] == k
  {
    if tags != [] {
      var init := tags[..|tags| - 1];
      KeyFieldIdxOfShape(init);
      assert tags == init + [tags[|tags| - 1]];
    }
  }

  /** Each key maps to a field at or after the last field that declares it. */
  lemma {:induction false} KeyFieldIdxIsLast(tags: seq<GoString>, j: nat)
    requires j < |tags|
    ensures tags[j] in KeyFieldIdxOf(tags) && KeyFieldIdxOf(tags)[tags[j]] >= j
  {
    var n := |tags| - 1;
    var init := tags[..n];
    if j < n {
      KeyFieldIdxIsLast(init, j);
      KeyFieldIdxOfShape(init);
    }
  }

  /** With distinct tags the two tables are mutual inverses over all six fields. */
  lemma TablesInverse(tags: seq<GoString>)
    requires Distinct(tags)
    ensures forall i :: 0 <= i < |tags| ==> tags[i] in KeyFieldIdxOf(tags) && KeyFieldIdxOf(tags)[tags[i]] == i
    ensures forall k :: k in KeyFieldIdxOf(tags) ==>
      KeyFieldIdxOf(tags)[k] in IdxFieldKeyOf(tags) && IdxFieldKeyOf(tags)[KeyFieldIdxOf(tags)[k]] == k
    ensures forall i :: i in IdxFieldKeyOf(tags) ==>
      IdxFieldKeyOf(tags)[i] in KeyFieldIdxOf(tags) && KeyFieldIdxOf(tags)[IdxFieldKeyOf(tags)[i]] == i
  {
    KeyFieldIdxOfShape(tags);
    IdxFieldKeyOfShape(tags);
  }

  /** Two fields declaring the same key: the earlier one cannot be reached from its key. */
  lemma DuplicateTagHidesField(tags: seq<GoString>, i: nat, j: nat)
    requires i < j < |tags| && tags[i] == tags[j]
    ensures tags[i] in KeyFieldIdxOf(tags) && KeyFieldIdxOf(tags)[tags[i]] != i
  {
    KeyFieldIdxIsLast(tags, j);
  }

  const KeyFieldIdx: map<GoString, nat> := KeyFieldIdxOf(FieldTags)

  const IdxFieldKey: map<nat, GoString> := IdxFieldKeyOf(FieldTags)

  lemma FieldTagsAreDigits()
    ensures |FieldTags| == NumFields
    ensures forall i :: 0 <= i < NumFields ==> FieldTags[i] == Digit(i)
    ensures Distinct(FieldTags)
  {
    forall i | 0 <= i < NumFields
      ensures FieldTags[i] == Digit(i)
    {
      if i == 0 {} else if i == 1 {} else if i == 2 {} else if i == 3 {} else if i == 4 {} else {}
    }
  }

  /** The six fields have the keys "0" to "5", and no other key is known. */
  lemma KeyTableShape()
    ensures forall i :: 0 <= i < NumFields ==>
      i in IdxFieldKey && IdxFieldKey[i] == Digit(i) && Digit(i) in KeyFieldIdx && KeyFieldIdx[Digit(i)] == i
    ensures forall k :: k in KeyFieldIdx ==> KeyFieldIdx[k] < NumFields && k == Digit(KeyFieldIdx[k])
    ensures forall i: nat :: i in IdxFieldKey <==> i < NumFields
  {
    FieldTagsAreDigits();
    TablesInverse(FieldTags);
    KeyFieldIdxOfShape(FieldTags);
    IdxFieldKeyOfShape(FieldTags);
  }

  /** A key found in keyFieldIdx names one of the six fields. */
  lemma KnownKeyIndex(k: GoString)
    requires k in KeyFieldIdx
    ensures KeyFieldIdx[k] < NumFields
  {
    KeyTableShape();
  }
}
