/**
 The built-in converters: one Redis record to one Aerospike record
 (redis_to_aerospike/converters).
 */
module Converters {
  import opened Models
  import opened Sequences
  import opened Coercion
  import opened Routing
  import Members
  import Utf8

  const MAX_BIN_NAME_BYTES := 15

  datatype Converter = Converter(
    valueBin: string,
    hashStrategy: HashStrategy,
    mode: OverflowMode,
    maxTtl: int,
    numbers: NumberFormat)

  /** What a conversion ends in: a record, the missing converter, or the name of the exception raised. */
  datatype Conversion = Converted(record: AerospikeRecord) | NoConverter | Raised(exception: string)

  function AsValue(m: UserKey): Value { if m.TextKey? then TextValue(m.text) else BlobValue(m.raw) }

  lemma AsValueInjective(a: UserKey, b: UserKey)
    ensures AsValue(a) == AsValue(b) <==> a == b
  {
  }

  /** A member is written as its text, or as its bytes when they are no text. */
  lemma MemberMeaning(m: seq<Byte>)
    ensures forall s :: AsValue(Utf8.DecodeOrKeep(m)) == TextValue(s) <==> Utf8.Encode(s) == m
    ensures forall raw :: AsValue(Utf8.DecodeOrKeep(m)) == BlobValue(raw) <==>
              raw == m && forall s :: Utf8.Encode(s) != m
  {
    Utf8.KeptAsTextOrBytes(m);
  }

  // ----- Sets -----

  function DecodeAll(members: seq<seq<Byte>>): (d: seq<UserKey>)
    ensures |d| == |members| && forall i :: 0 <= i < |d| ==> d[i] == Utf8.DecodeOrKeep(members[i])
  {
    seq(|members|, i requires 0 <= i < |members| => Utf8.DecodeOrKeep(members[i]))
  }

  /** The list written for a set. */
  function SetList(members: seq<seq<Byte>>): (l: seq<Value>)
    ensures |l| == |Members.Sort(DecodeAll(members))|
    ensures forall i :: 0 <= i < |l| ==> l[i] == AsValue(Members.Sort(DecodeAll(members))[i])
  {
    var sorted := Members.Sort(DecodeAll(members));
    seq(|sorted|, i requires 0 <= i < |sorted| => AsValue(sorted[i]))
  }

  lemma SortedDistinct(s: seq<UserKey>)
    requires Members.Ascending(s)
    ensures Distinct(s)
  {
    forall i, j | 0 <= i < j < |s| ensures s[i] != s[j] {
      Members.LessIsStrictOrder(s[i], s[j], s[i]);
    }
  }

  lemma DecodedDistinct(members: seq<seq<Byte>>)
    requires Distinct(members)
    ensures Distinct(DecodeAll(members))
  {
    var decoded := DecodeAll(members);
    forall i, j | 0 <= i < j < |decoded| ensures decoded[i] != decoded[j] {
      Utf8.DecodeOrKeepInjective(members[i], members[j]);
    }
  }

  lemma SortKeepsSize(s: seq<UserKey>)
    requires Distinct(s)
    ensures |Members.Sort(s)| == |s| && Distinct(Members.Sort(s))
  {
    Members.SortIsSorted(s);
    SortedDistinct(Members.Sort(s));
    SameMembersSameSize(Members.Sort(s), s);
  }

  /** A set of distinct members becomes a list of the same size without repeats. */
  lemma SetKeepsSize(members: seq<seq<Byte>>)
    requires Distinct(members)
    ensures |SetList(members)| == |members| && Distinct(SetList(members))
  {
    DecodedDistinct(members);
    SortKeepsSize(DecodeAll(members));
    ValuesDistinct(Members.Sort(DecodeAll(members)), SetList(members));
  }

  lemma ValuesDistinct(s: seq<UserKey>, list: seq<Value>)
    requires Distinct(s) && |list| == |s| && forall i :: 0 <= i < |s| ==> list[i] == AsValue(s[i])
    ensures Distinct(list)
  {
    forall i, j | 0 <= i < j < |list| ensures list[i] != list[j] {
      assert s[i] != s[j];
      AsValueInjective(s[i], s[j]);
    }
  }

  /** The list holds exactly the decoded members. */
  lemma SetKeepsMembers(members: seq<seq<Byte>>)
    ensures forall m :: m in members ==> AsValue(Utf8.DecodeOrKeep(m)) in SetList(members)
    ensures forall v :: v in SetList(members) ==> exists m :: m in members && v == AsValue(Utf8.DecodeOrKeep(m))
  {
    var decoded := DecodeAll(members);
    var sorted := Members.Sort(decoded);
    Members.SortIsSorted(decoded);
    var list := SetList(members);
    assert forall j :: 0 <= j < |sorted| ==> list[j] == AsValue(sorted[j]);
    forall m | m in members ensures AsValue(Utf8.DecodeOrKeep(m)) in list {
      var i :| 0 <= i < |members| && members[i] == m;
      assert decoded[i] in sorted;
      var j :| 0 <= j < |sorted| && sorted[j] == decoded[i];
      assert list[j] == AsValue(sorted[j]);
    }
    forall v | v in list ensures exists m :: m in members && v == AsValue(Utf8.DecodeOrKeep(m)) {
      var j :| 0 <= j < |list| && list[j] == v;
      assert sorted[j] in decoded;
      var i :| 0 <= i < |decoded| && decoded[i] == sorted[j];
      assert members[i] in members;
    }
  }

  /** The list is the same whatever order the client iterates over the set in. */
  lemma SetListForgetsOrder(a: seq<seq<Byte>>, b: seq<seq<Byte>>)
    requires forall m :: m in a <==> m in b
    ensures SetList(a) == SetList(b)
  {
    var x, y := DecodeAll(a), DecodeAll(b);
    forall k ensures k in x <==> k in y {
      if k in x {
        var i :| 0 <= i < |x| && x[i] == k;
        assert a[i] in b;
        var j :| 0 <= j < |b| && b[j] == a[i];
        assert y[j] == k;
      }
      if k in y {
        var i :| 0 <= i < |y| && y[i] == k;
        assert b[i] in a;
        var j :| 0 <= j < |a| && a[j] == b[i];
        assert x[j] == k;
      }
    }
    Members.SortForgetsOrder(x, y);
  }

  /** A text is in the list exactly when its encoding is a member, and bytes are when they are a member and no text. */
  lemma SetMeaning(members: seq<seq<Byte>>)
    ensures forall s :: TextValue(s) in SetList(members) <==> Utf8.Encode(s) in members
    ensures forall raw :: BlobValue(raw) in SetList(members) <==> raw in members && forall s :: Utf8.Encode(s) != raw
    ensures forall v :: v in SetList(members) ==> v.TextValue? || v.BlobValue?
  {
    var list := SetList(members);
    SetKeepsMembers(members);
    forall m | m in members
      ensures forall s :: AsValue(Utf8.DecodeOrKeep(m)) == TextValue(s) <==> Utf8.Encode(s) == m
      ensures forall raw :: AsValue(Utf8.DecodeOrKeep(m)) == BlobValue(raw) <==>
                raw == m && forall s :: Utf8.Encode(s) != m
    {
      MemberMeaning(m);
    }
  }

  /** Raw bytes come first; texts follow in their order. */
  lemma SetListOrdered(members: seq<seq<Byte>>, i: nat, j: nat)
    requires i < j < |SetList(members)|
    ensures var a, b := SetList(members)[i], SetList(members)[j];
            && (a.TextValue? ==> b.TextValue? && Members.TextLess(a.s, b.s))
            && (a.BlobValue? && b.BlobValue? ==> Members.TextLess(Members.Print(a.raw), Members.Print(b.raw)))
  {
    var sorted := Members.Sort(DecodeAll(members));
    Members.SortIsSorted(DecodeAll(members));
    Members.LessMeaning(sorted[i], sorted[j]);
    Members.LessMeaning(sorted[j], sorted[i]);
    assert Members.Less(sorted[i], sorted[j]);
  }

  // ----- Insertion-ordered dictionaries -----

  /** `d[key] = value` on a dictionary that keeps insertion order. */
  function Assign(d: seq<Entry>, key: Value, value: Value): seq<Entry> {
    if d == [] then [Entry(key, value)]
    else if d[0].key == key then [Entry(key, value)] + d[1..]
    else [d[0]] + Assign(d[1..], key, value)
  }

  /** Assigning the entries one after the other to an empty dictionary. */
  function Dictionary(entries: seq<Entry>): seq<Entry> {
    if entries == [] then []
    else
      var last := entries[|entries|-1];
      Assign(Dictionary(entries[..|entries|-1]), last.key, last.value)
  }

  lemma {:induction false} AssignFresh(d: seq<Entry>, key: Value, value: Value)
    requires forall e :: e in d ==> e.key != key
    ensures Assign(d, key, value) == d + [Entry(key, value)]
  {
    if d != [] {
      assert d[0] in d;
      AssignFresh(d[1..], key, value);
      assert d == [d[0]] + d[1..];
    }
  }

  lemma DictionaryStep(entries: seq<Entry>, i: nat)
    requires i < |entries|
    ensures Dictionary(entries[..i+1]) == Assign(Dictionary(entries[..i]), entries[i].key, entries[i].value)
  {
    assert entries[..i+1][..i] == entries[..i] && entries[..i+1][i] == entries[i];
  }

  /** With distinct keys the dictionary holds one entry for each assignment, in order. */
  lemma {:induction false} DictionaryOfDistinct(entries: seq<Entry>)
    requires DistinctEntryKeys(entries)
    ensures Dictionary(entries) == entries
  {
    if entries != [] {
      var n := |entries| - 1;
      var front, last := entries[..n], entries[n];
      DictionaryOfDistinct(front);
      forall e | e in front ensures e.key != last.key {
        var i :| 0 <= i < n && entries[i] == e;
      }
      AssignFresh(front, last.key, last.value);
    }
  }

  ghost predicate HasKey(d: seq<Entry>, key: Value) { exists e :: e in d && e.key == key }

  lemma {:induction false} AssignSize(d: seq<Entry>, key: Value, value: Value)
    ensures |Assign(d, key, value)| == |d| + (if HasKey(d, key) then 0 else 1)
    ensures forall k :: HasKey(Assign(d, key, value), k) <==> HasKey(d, k) || k == key
  {
    if d == [] {
      assert Entry(key, value) in Assign(d, key, value);
    } else {
      var rest := d[1..];
      AssignSize(rest, key, value);
      assert forall k :: HasKey(d, k) <==> d[0].key == k || HasKey(rest, k) by { KeyOfCons(d[0], rest); }
      if d[0].key == key {
        KeyOfCons(Entry(key, value), rest);
      } else {
        KeyOfCons(d[0], Assign(rest, key, value));
      }
    }
  }

  lemma KeyOfCons(e: Entry, rest: seq<Entry>)
    ensures forall k :: HasKey([e] + rest, k) <==> e.key == k || HasKey(rest, k)
  {
    assert forall x :: x in [e] + rest <==> x == e || x in rest;
    forall k ensures HasKey([e] + rest, k) <==> e.key == k || HasKey(rest, k) {
      if e.key == k { assert e in [e] + rest; }
      if HasKey(rest, k) {
        var x :| x in rest && x.key == k;
        assert x in [e] + rest;
      }
    }
  }

  lemma {:induction false} DictionaryKeys(entries: seq<Entry>)
    ensures forall k :: HasKey(Dictionary(entries), k) <==> HasKey(entries, k)
    ensures |Dictionary(entries)| <= |entries|
  {
    if entries != [] {
      var n := |entries| - 1;
      var front, last := entries[..n], entries[n];
      DictionaryKeys(front);
      AssignSize(Dictionary(front), last.key, last.value);
      assert forall x :: x in entries <==> x in front || x == last;
    }
  }

  /** A dictionary keeps one entry for each assignment exactly when the keys are distinct. */
  lemma {:induction false} DictionaryKeepsAll(entries: seq<Entry>)
    ensures |Dictionary(entries)| == |entries| <==> DistinctEntryKeys(entries)
  {
    if entries != [] {
      var n := |entries| - 1;
      var front, last := entries[..n], entries[n];
      DictionaryKeepsAll(front);
      DictionaryKeys(front);
      AssignSize(Dictionary(front), last.key, last.value);
      assert DistinctEntryKeys(entries) <==> DistinctEntryKeys(front) && !HasKey(front, last.key) by {
        LastKeyIsNew(entries);
      }
    }
  }

  lemma LastKeyIsNew(entries: seq<Entry>)
    requires entries != []
    ensures var n := |entries| - 1;
            DistinctEntryKeys(entries) <==> DistinctEntryKeys(entries[..n]) && !HasKey(entries[..n], entries[n].key)
  {
    var n := |entries| - 1;
    var front := entries[..n];
    if HasKey(front, entries[n].key) {
      var e :| e in front && e.key == entries[n].key;
      var i :| 0 <= i < n && front[i] == e;
      assert entries[i].key == entries[n].key;
    } else {
      assert forall i :: 0 <= i < n ==> entries[i] in front;
    }
    assert forall i :: 0 <= i < n ==> entries[i] == front[i];
  }

  lemma ConsDistinct(e: Entry, rest: seq<Entry>)
    ensures DistinctEntryKeys([e] + rest) <==> DistinctEntryKeys(rest) && forall x :: x in rest ==> x.key != e.key
  {
    var d := [e] + rest;
    if DistinctEntryKeys(d) {
      forall i, j | 0 <= i < j < |rest| ensures rest[i].key != rest[j].key { assert d[i+1].key != d[j+1].key; }
      forall x | x in rest ensures x.key != e.key {
        var i :| 0 <= i < |rest| && rest[i] == x;
        assert d[0].key != d[i+1].key;
      }
    }
    if DistinctEntryKeys(rest) && forall x :: x in rest ==> x.key != e.key {
      forall i, j | 0 <= i < j < |d| ensures d[i].key != d[j].key {
        assert d[j] == rest[j-1] && rest[j-1] in rest;
        if i > 0 { assert d[i] == rest[i-1]; }
      }
    }
  }

  lemma {:induction false} AssignHolds(d: seq<Entry>, key: Value, value: Value)
    requires DistinctEntryKeys(d)
    ensures DistinctEntryKeys(Assign(d, key, value))
    ensures forall e :: e in Assign(d, key, value) <==> e == Entry(key, value) || (e in d && e.key != key)
  {
    if d != [] {
      var first, rest := d[0], d[1..];
      assert d == [first] + rest;
      ConsDistinct(first, rest);
      assert forall e :: e in d <==> e == first || e in rest;
      if first.key == key {
        ConsDistinct(Entry(key, value), rest);
      } else {
        AssignHolds(rest, key, value);
        ConsDistinct(first, Assign(rest, key, value));
      }
    }
  }

  /** Entry `i` is `e`, and no later one has its key. */
  ghost predicate IsLastFor(entries: seq<Entry>, e: Entry, i: int) {
    0 <= i < |entries| && entries[i] == e && forall j :: i < j < |entries| ==> entries[j].key != e.key
  }

  /** A dictionary has each key once, with the value assigned to it last. */
  lemma {:induction false} DictionaryMeaning(entries: seq<Entry>)
    ensures DistinctEntryKeys(Dictionary(entries))
    ensures forall e :: e in Dictionary(entries) <==> exists i :: IsLastFor(entries, e, i)
  {
    if entries != [] {
      var n := |entries| - 1;
      var front, last := entries[..n], entries[n];
      DictionaryMeaning(front);
      AssignHolds(Dictionary(front), last.key, last.value);
      forall e ensures e in Dictionary(entries) <==> exists i :: IsLastFor(entries, e, i) {
        if i :| IsLastFor(front, e, i) && e.key != last.key { assert IsLastFor(entries, e, i); }
        if e == last { assert IsLastFor(entries, e, n); }
        if i :| IsLastFor(entries, e, i) { assert i < n ==> IsLastFor(front, e, i) && e.key != last.key; }
      }
    }
  }

  // ----- Sorted sets -----

  function EncodeScore(score: Score): Value {
    match score
    case Finite(f) => FloatValue(f)
    case NonFinite(text) => TextValue(text)
  }

  function ScoreEntries(scored: seq<(seq<Byte>, Score)>): (e: seq<Entry>)
    ensures |e| == |scored|
    ensures forall i :: 0 <= i < |e| ==>
              e[i] == Entry(AsValue(Utf8.DecodeOrKeep(scored[i].0)), EncodeScore(scored[i].1))
  {
    seq(|scored|, i requires 0 <= i < |scored| => Entry(AsValue(Utf8.DecodeOrKeep(scored[i].0)),
          EncodeScore(scored[i].1)))
  }

  ghost predicate DistinctMembers<T>(scored: seq<(seq<Byte>, T)>) {
    forall i, j :: 0 <= i < j < |scored| ==> scored[i].0 != scored[j].0
  }

  /** The loop of the sorted-set converter. With the distinct members Redis guarantees, the map has one entry for each
      member, in score order. */
  method ScoreMap(scored: seq<(seq<Byte>, Score)>) returns (scores: seq<Entry>)
    ensures scores == Dictionary(ScoreEntries(scored))
    ensures DistinctMembers(scored) ==> scores == ScoreEntries(scored)
  {
    scores := [];
    var entries := ScoreEntries(scored);
    for i := 0 to |scored|
      invariant scores == Dictionary(entries[..i])
    {
      DictionaryStep(entries, i);
      scores := Assign(scores, AsValue(Utf8.DecodeOrKeep(scored[i].0)), EncodeScore(scored[i].1));
    }
    assert entries[..|scored|] == entries;
    if DistinctMembers(scored) { ScoreMapKeepsMembers(scored); }
  }

  /** The entry of a member: its text, or its bytes when they are no text, with the finite score as a double and any
      other score as text. */
  lemma ScoreMeaning(scored: seq<(seq<Byte>, Score)>, i: nat)
    requires i < |scored|
    ensures var e := ScoreEntries(scored)[i];
            && (forall s :: e.key == TextValue(s) <==> Utf8.Encode(s) == scored[i].0)
            && ((forall s :: Utf8.Encode(s) != scored[i].0) ==> e.key == BlobValue(scored[i].0))
            && (forall f :: scored[i].1 == Finite(f) ==> e.value == FloatValue(f))
            && (forall text :: scored[i].1 == NonFinite(text) ==> e.value == TextValue(text))
  {
    MemberMeaning(scored[i].0);
  }

  lemma ScoreMapKeepsMembers(scored: seq<(seq<Byte>, Score)>)
    requires DistinctMembers(scored)
    ensures Dictionary(ScoreEntries(scored)) == ScoreEntries(scored)
  {
    var entries := ScoreEntries(scored);
    forall i, j | 0 <= i < j < |entries| ensures entries[i].key != entries[j].key {
      Utf8.DecodeOrKeepInjective(scored[i].0, scored[j].0);
    }
    DictionaryOfDistinct(entries);
  }

  // ----- Hashes -----

  function FieldEntries(numbers: NumberFormat, fields: seq<(seq<Byte>, seq<Byte>)>): (e: seq<Entry>)
    ensures |e| == |fields|
    ensures forall i :: 0 <= i < |e| ==>
              e[i] == Entry(TextValue(Utf8.DecodeReplace(fields[i].0)), Coerce(numbers, fields[i].1))
  {
    seq(|fields|, i requires 0 <= i < |fields| => Entry(TextValue(Utf8.DecodeReplace(fields[i].0)),
          Coerce(numbers, fields[i].1)))
  }

  function HashMap(numbers: NumberFormat, fields: seq<(seq<Byte>, seq<Byte>)>): seq<Entry> {
    Dictionary(FieldEntries(numbers, fields))
  }

  ghost predicate ValidFields(fields: seq<(seq<Byte>, seq<Byte>)>) {
    forall i :: 0 <= i < |fields| ==> Utf8.Decode(fields[i].0).Some?
  }

  lemma ValidFieldKeys(numbers: NumberFormat, fields: seq<(seq<Byte>, seq<Byte>)>)
    requires DistinctMembers(fields) && ValidFields(fields)
    ensures DistinctEntryKeys(FieldEntries(numbers, fields))
  {
    var entries := FieldEntries(numbers, fields);
    forall i, j | 0 <= i < j < |entries| ensures entries[i].key != entries[j].key {
      Utf8.ReplaceInjectiveOnValid(fields[i].0, fields[j].0);
    }
  }

  /** A hash whose fields are all valid UTF-8 keeps one entry for each field, in order. */
  lemma HashKeepsFields(numbers: NumberFormat, fields: seq<(seq<Byte>, seq<Byte>)>)
    requires DistinctMembers(fields) && ValidFields(fields)
    ensures HashMap(numbers, fields) == FieldEntries(numbers, fields)
  {
    ValidFieldKeys(numbers, fields);
    DictionaryOfDistinct(FieldEntries(numbers, fields));
  }

  /** Such a field is its text, and its value is coerced as a scalar. */
  lemma HashFieldMeaning(numbers: NumberFormat, fields: seq<(seq<Byte>, seq<Byte>)>, i: nat, name: string)
    requires DistinctMembers(fields) && ValidFields(fields) && i < |fields| && fields[i].0 == Utf8.Encode(name)
    ensures |HashMap(numbers, fields)| == |fields|
    ensures HashMap(numbers, fields)[i] == Entry(TextValue(name), Coerce(numbers, fields[i].1))
  {
    HashKeepsFields(numbers, fields);
    Utf8.DecodeAfterEncode(name);
    Utf8.ReplaceKeepsValid(fields[i].0);
  }

  /** A hash keeps as many entries as it has fields exactly when no two fields read the same after replacement. */
  lemma HashKeepsCount(numbers: NumberFormat, fields: seq<(seq<Byte>, seq<Byte>)>)
    ensures |HashMap(numbers, fields)| == |fields| <==>
              forall i, j :: 0 <= i < j < |fields| ==>
                Utf8.DecodeReplace(fields[i].0) != Utf8.DecodeReplace(fields[j].0)
  {
    var entries := FieldEntries(numbers, fields);
    DictionaryKeepsAll(entries);
    assert forall i :: 0 <= i < |fields| ==> entries[i].key == TextValue(Utf8.DecodeReplace(fields[i].0));
  }

  /** Fields that are not valid UTF-8 can collapse: two fields, one entry. */
  lemma BinaryFieldsCollapse(numbers: NumberFormat, x: seq<Byte>, y: seq<Byte>)
    ensures |HashMap(numbers, [([0xFF], x), ([0xFE], y)])| == 1
  {
    var fields: seq<(seq<Byte>, seq<Byte>)> := [([0xFF], x), ([0xFE], y)];
    var e := FieldEntries(numbers, fields);
    Utf8.ReplaceCollapses();
    assert e[..1] == [e[0]] && e[..1][..0] == [] && e[..2] == e;
    assert Dictionary(e[..1]) == Assign(Dictionary([]), e[0].key, e[0].value) == [Entry(e[0].key, e[0].value)];
    assert Dictionary(e) == Assign(Dictionary(e[..1]), e[1].key, e[1].value);
    assert [Entry(e[0].key, e[0].value)][1..] == [];
  }

  predicate FitsBinName(name: string) { |Utf8.Encode(name)| <= MAX_BIN_NAME_BYTES }

  function BinOf(e: Entry): Bin
    requires e.key.TextValue?
  {
    Bin(e.key.s, e.value)
  }

  predicate TextKeys(d: seq<Entry>) { forall i :: 0 <= i < |d| ==> d[i].key.TextValue? }

  function BinsOf(d: seq<Entry>): (b: seq<Bin>)
    requires TextKeys(d)
    ensures |b| == |d| && forall i :: 0 <= i < |b| ==> b[i] == BinOf(d[i])
  {
    seq(|d|, i requires 0 <= i < |d| => BinOf(d[i]))
  }

  lemma {:induction false} AssignKeepsTextKeys(d: seq<Entry>, key: Value, value: Value)
    requires TextKeys(d) && key.TextValue?
    ensures TextKeys(Assign(d, key, value))
    ensures forall e :: e in Assign(d, key, value) ==> e.key == key || exists x :: x in d && x.key == e.key
  {
    if d != [] {
      AssignKeepsTextKeys(d[1..], key, value);
      assert d[0] in d;
    }
  }

  lemma {:induction false} DictionaryKeepsTextKeys(entries: seq<Entry>)
    requires TextKeys(entries)
    ensures TextKeys(Dictionary(entries))
    ensures forall e :: e in Dictionary(entries) ==> exists x :: x in entries && x.key == e.key
  {
    if entries != [] {
      var n := |entries| - 1;
      DictionaryKeepsTextKeys(entries[..n]);
      AssignKeepsTextKeys(Dictionary(entries[..n]), entries[n].key, entries[n].value);
      assert entries[n] in entries;
      forall e | e in Dictionary(entries) ensures exists x :: x in entries && x.key == e.key {
        if e.key != entries[n].key {
          var d :| d in Dictionary(entries[..n]) && d.key == e.key;
          var x :| x in entries[..n] && x.key == d.key;
          assert x in entries;
        }
      }
    }
  }

  predicate NamesFit(fields: seq<(seq<Byte>, seq<Byte>)>) {
    forall i :: 0 <= i < |fields| ==> FitsBinName(Utf8.DecodeReplace(fields[i].0))
  }

  lemma OneMoreName(fields: seq<(seq<Byte>, seq<Byte>)>, i: nat)
    requires i < |fields| && NamesFit(fields[..i]) && FitsBinName(Utf8.DecodeReplace(fields[i].0))
    ensures NamesFit(fields[..i+1])
  {
    var more := fields[..i+1];
    forall j | 0 <= j < |more| ensures FitsBinName(Utf8.DecodeReplace(more[j].0)) {
      if j < i { assert fields[..i][j] == more[j]; }
    }
  }

  /** One bin for each field, or None when a name does not fit. */
  function FieldBinList(numbers: NumberFormat, fields: seq<(seq<Byte>, seq<Byte>)>): Option<seq<Bin>> {
    DictionaryKeepsTextKeys(FieldEntries(numbers, fields));
    if NamesFit(fields) then Some(BinsOf(HashMap(numbers, fields))) else None
  }

  /** The loop of the field-bins strategy, which stops at the first name that is too long. It rejects exactly when some
      name exceeds 15 bytes, and otherwise every bin name fits. */
  method FieldBins(numbers: NumberFormat, fields: seq<(seq<Byte>, seq<Byte>)>) returns (bins: Option<seq<Bin>>)
    ensures bins == FieldBinList(numbers, fields)
    ensures bins.Some? <==> forall i :: 0 <= i < |fields| ==> |Utf8.Encode(Utf8.DecodeReplace(fields[i].0))| <= 15
    ensures bins.Some? ==> forall b :: b in bins.value ==> |Utf8.Encode(b.name)| <= 15
  {
    var d: seq<Entry> := [];
    var entries := FieldEntries(numbers, fields);
    for i := 0 to |fields|
      invariant d == Dictionary(entries[..i])
      invariant NamesFit(fields[..i])
    {
      var name := Utf8.DecodeReplace(fields[i].0);
      if |Utf8.Encode(name)| > MAX_BIN_NAME_BYTES {
        assert !FitsBinName(Utf8.DecodeReplace(fields[i].0));
        return None;
      }
      DictionaryStep(entries, i);
      OneMoreName(fields, i);
      d := Assign(d, TextValue(name), Coerce(numbers, fields[i].1));
    }
    assert entries[..|fields|] == entries && fields[..|fields|] == fields;
    DictionaryKeepsTextKeys(entries);
    bins := Some(BinsOf(d));
    FieldNamesFit(numbers, fields, bins.value);
  }

  /** Distinct fields that are valid UTF-8 give one bin each, in order. */
  lemma FieldBinsKeepFields(numbers: NumberFormat, fields: seq<(seq<Byte>, seq<Byte>)>)
    requires DistinctMembers(fields) && ValidFields(fields) && FieldBinList(numbers, fields).Some?
    ensures |FieldBinList(numbers, fields).value| == |fields|
    ensures forall i :: 0 <= i < |fields| ==>
              FieldBinList(numbers, fields).value[i]
                == Bin(Utf8.DecodeReplace(fields[i].0), Coerce(numbers, fields[i].1))
  {
    HashKeepsFields(numbers, fields);
  }

  lemma FieldNamesFit(numbers: NumberFormat, fields: seq<(seq<Byte>, seq<Byte>)>, bins: seq<Bin>)
    requires TextKeys(HashMap(numbers, fields)) && bins == BinsOf(HashMap(numbers, fields))
    requires NamesFit(fields)
    ensures forall b :: b in bins ==> FitsBinName(b.name)
  {
    var d, entries := HashMap(numbers, fields), FieldEntries(numbers, fields);
    DictionaryKeepsTextKeys(entries);
    forall b | b in bins ensures FitsBinName(b.name) {
      var i :| 0 <= i < |bins| && bins[i] == b;
      assert d[i] in d;
      var x :| x in entries && x.key == d[i].key;
      var j :| 0 <= j < |entries| && entries[j] == x;
    }
  }

  // ----- The registry -----

  /** Bins are built before the TTL is resolved, so a bad field name is reported ahead of a long TTL. */
  function Build(cv: Converter, r: RedisRecord, bins: seq<Bin>, unique: set<string>): Conversion {
    match ToTtl(cv.mode, cv.maxTtl, r.ttlMs)
    case TooLong => Raised("TtlTooLongError")
    case Ttl(seconds) => Converted(AerospikeRecord(r.key, bins, Some(seconds), unique, None))
  }

  function ConvertRecord(cv: Converter, r: RedisRecord, strategy: Option<HashStrategy>,
          valueBin: Option<string>): Conversion {
    match r.value
    case StringReply(raw) => Build(cv, r, [Bin(cv.valueBin, Coerce(cv.numbers, raw))], {})
    case ListReply(elements) =>
      Build(cv, r, [Bin(cv.valueBin, ListValue(seq(|elements|, i requires 0 <= i < |elements| =>
            Coerce(cv.numbers, elements[i]))))], {})
    case SetReply(members) => Build(cv, r, [Bin(cv.valueBin, ListValue(SetList(members)))], {cv.valueBin})
    case ZSetReply(scored) => Build(cv, r, [Bin(cv.valueBin, MapValue(Dictionary(ScoreEntries(scored))))], {})
    case HashReply(fields) =>
      var use := if strategy.Some? then strategy.value else cv.hashStrategy;
      if use == HashStrategy.FieldBins then
        match FieldBinList(cv.numbers, fields)
        case None => Raised("ValueError")
        case Some(bins) => Build(cv, r, bins, {})
      else
        var name := if valueBin.Some? then valueBin.value else cv.valueBin;
        Build(cv, r, [Bin(name, MapValue(HashMap(cv.numbers, fields)))], {})
    case OtherReply(_) => NoConverter
  }

  /** What the bins of a record hold, for each type of value. */
  ghost predicate BinsMean(cv: Converter, value: RedisValue, a: AerospikeRecord, layout: HashStrategy,
          hashBin: string) {
    match value
    case StringReply(raw) => a.uniqueBins == {} && a.bins == [Bin(cv.valueBin, Coerce(cv.numbers, raw))]
    case ListReply(elements) =>
      && a.uniqueBins == {} && |a.bins| == 1 && a.bins[0].name == cv.valueBin
      && a.bins[0].value.ListValue? && |a.bins[0].value.items| == |elements|
      && forall i :: 0 <= i < |elements| ==> a.bins[0].value.items[i] == Coerce(cv.numbers, elements[i])
    case SetReply(members) =>
      a.uniqueBins == {cv.valueBin} && a.bins == [Bin(cv.valueBin, ListValue(SetList(members)))]
    case ZSetReply(scored) =>
      && a.uniqueBins == {} && |a.bins| == 1 && a.bins[0].name == cv.valueBin
      && (DistinctMembers(scored) ==> a.bins[0].value == MapValue(ScoreEntries(scored)))
    case HashReply(fields) =>
      && a.uniqueBins == {}
      && (layout.MapBin? ==> a.bins == [Bin(hashBin, MapValue(HashMap(cv.numbers, fields)))])
      && (layout.FieldBins? ==> FieldBinList(cv.numbers, fields) == Some(a.bins))
    case OtherReply(_) => false
  }

  /** A field name is longer than a bin name may be. */
  predicate SomeNameTooLong(fields: seq<(seq<Byte>, seq<Byte>)>) {
    exists i :: 0 <= i < |fields| && |Utf8.Encode(Utf8.DecodeReplace(fields[i].0))| > 15
  }

  /** A conversion fails for a type without converter, for a field name that is too long in the field-bins layout, and
      otherwise for a TTL that the policy rejects. Any other record keeps its key, gets its TTL, names no set, and holds
      its value in its bins. */
  ghost predicate ConversionMeans(cv: Converter, r: RedisRecord, layout: HashStrategy, hashBin: string,
          result: Conversion) {
    var badName := r.value.HashReply? && layout.FieldBins? && SomeNameTooLong(r.value.fields);
    var badTtl := cv.mode.Reject? && r.ttlMs.Some? && AboveLimit(cv.maxTtl, r.ttlMs.value);
    match result
    case NoConverter => r.value.OtherReply?
    case Raised(exception) =>
      && !r.value.OtherReply? && (badName || badTtl)
      && exception == if badName then "ValueError" else "TtlTooLongError"
    case Converted(a) =>
      && !badName && !badTtl
      && a.key == r.key && a.setName == None && BinsMean(cv, r.value, a, layout, hashBin)
      && a.ttl.Some? && TtlMeans(cv.mode, cv.maxTtl, r.ttlMs, Ttl(a.ttl.value))
  }

  lemma ConversionMeaning(cv: Converter, r: RedisRecord, strategy: Option<HashStrategy>, valueBin: Option<string>)
    ensures ConversionMeans(cv, r, if strategy.Some? then strategy.value else cv.hashStrategy,
                            if valueBin.Some? then valueBin.value else cv.valueBin,
                            ConvertRecord(cv, r, strategy, valueBin))
  {
    TtlMeaning(cv.mode, cv.maxTtl, r.ttlMs, ToTtl(cv.mode, cv.maxTtl, r.ttlMs));
    match r.value
    case ZSetReply(scored) => if DistinctMembers(scored) { ScoreMapKeepsMembers(scored); }
    case HashReply(fields) => assert NamesFit(fields) <==> !SomeNameTooLong(fields);
    case _ =>
  }

  /** The layout of hashes means nothing to other records, nor does the bin to a hash spread over bins of its own. */
  lemma LayoutIsForHashes(cv: Converter, r: RedisRecord, layout: HashStrategy, hashBin: string, other: HashStrategy,
          otherBin: string, result: Conversion)
    requires ConversionMeans(cv, r, layout, hashBin, result)
    requires r.value.HashReply? ==> layout == other && (layout.MapBin? ==> hashBin == otherBin)
    ensures ConversionMeans(cv, r, other, otherBin, result)
  {
  }

  /** End to end, a conversion either rejects the record or gives it a TTL that is never-expire or real. */
  lemma ConvertedTtlIsSafe(cv: Converter, r: RedisRecord, strategy: Option<HashStrategy>, valueBin: Option<string>)
    requires 0 <= cv.maxTtl <= MAX_REAL_TTL
    ensures var c := ConvertRecord(cv, r, strategy, valueBin);
            c.Converted? ==> c.record.ttl.Some? && SafeTtl(Ttl(c.record.ttl.value))
  {
    TtlsAreSafe(cv.mode, cv.maxTtl);
    assert SafeTtl(ToTtl(cv.mode, cv.maxTtl, r.ttlMs));
  }
}
