/**
 When reading a printed table gives the value that was printed: as nested dicts, since the printer splits
 a table into named fields and an array part and the reader numbers the array part anew, and exactly when
 no reference has an index, no table has a gap and every string and key survives.
 */
module LuaRoundTrip {
  import opened LuaText
  import opened LuaAtoms
  import opened LuaReader
  import opened LuaReading
  import opened LuaIndexes
  import opened Options

  // --------------------------------------------------------------------------------
  // What the values mean: a table is a map, and so forgets the order of its entries
  // --------------------------------------------------------------------------------

  datatype Meaning = Plain(v: Value) | Dict(m: map<Key, Meaning>)

  function MeaningOf(v: Value): Meaning
    decreases v, 0
  {
    match v
    case Table(entries) => Dict(MapOf(entries))
    case _ => Plain(v)
  }

  function MapOf(entries: seq<Entry>): map<Key, Meaning>
    decreases entries, 0
  {
    if entries == [] then map[] else MapOf(entries[1..])[entries[0].key := EntryMeaning(entries[0])]
  }

  function EntryMeaning(e: Entry): Meaning
    decreases e, 0
  {
    MeaningOf(e.value)
  }

  /** A dict has each key once. */
  predicate KeysDistinct(entries: seq<Entry>) {
    forall i, j :: 0 <= i < j < |entries| ==> entries[i].key != entries[j].key
  }

  predicate IsDict(v: Value) {
    v.Table? ==> KeysDistinct(v.entries) && forall i :: 0 <= i < |v.entries| ==> EntryIsDict(v.entries[i])
  }

  predicate EntryIsDict(e: Entry) {
    IsDict(e.value)
  }

  /** Of the integer keys from 1 to the size of the table, the ones present come without a gap. */
  predicate NoGap(entries: seq<Entry>) {
    forall i, j :: 1 <= j < i <= |entries| && Has(entries, IntKey(i)) ==> Has(entries, IntKey(j))
  }

  /** All its tables are like that. */
  predicate Gapless(v: Value) {
    v.Table? ==> NoGap(v.entries) && forall i :: 0 <= i < |v.entries| ==> EntryGapless(v.entries[i])
  }

  predicate EntryGapless(e: Entry) {
    Gapless(e.value)
  }

  // Dict operations on the map

  lemma HasSplit(entries: seq<Entry>, key: Key)
    requires entries != []
    ensures Has(entries, key) <==> entries[0].key == key || Has(entries[1..], key)
  {
    if Has(entries[1..], key) {
      var i :| 0 <= i < |entries| - 1 && entries[1..][i].key == key;
      assert entries[i + 1].key == key;
    }
    if Has(entries, key) && entries[0].key != key {
      var i :| 0 <= i < |entries| && entries[i].key == key;
      assert entries[1..][i - 1].key == key;
    }
  }

  lemma {:induction false} MapKeys(entries: seq<Entry>, key: Key)
    ensures key in MapOf(entries) <==> Has(entries, key)
  {
    if entries != [] {
      MapKeys(entries[1..], key);
      HasSplit(entries, key);
    }
  }

  lemma {:induction false} MapStore(fields: seq<Entry>, key: Key, v: Value)
    ensures MapOf(Store(fields, key, v)) == MapOf(fields)[key := MeaningOf(v)]
  {
    var fields' := Store(fields, key, v);
    if fields == [] {
      assert fields'[1..] == [];
    } else if fields[0].key == key {
      assert fields'[1..] == fields[1..];
    } else {
      MapStore(fields[1..], key, v);
      assert fields'[1..] == Store(fields[1..], key, v);
    }
  }

  lemma {:induction false} MapAppend(fields: seq<Entry>, key: Key, v: Value)
    requires !Has(fields, key)
    ensures MapOf(fields + [Entry(key, v)]) == MapOf(fields)[key := MeaningOf(v)]
  {
    var fields' := fields + [Entry(key, v)];
    if fields == [] {
      assert fields'[1..] == [];
    } else {
      assert fields[0].key != key;
      forall i | 0 <= i < |fields| - 1 ensures fields[1..][i].key != key {
        assert fields[i + 1].key != key;
      }
      MapAppend(fields[1..], key, v);
      assert fields'[1..] == fields[1..] + [Entry(key, v)];
    }
  }

  lemma MapDefault(fields: seq<Entry>, key: Key, v: Value)
    ensures MapOf(SetDefault(fields, key, v))
         == if key in MapOf(fields) then MapOf(fields) else MapOf(fields)[key := MeaningOf(v)]
  {
    MapKeys(fields, key);
    if !Has(fields, key) {
      MapAppend(fields, key, v);
    }
  }

  /** The positions from 1 that are not taken get the values of the array part. */
  function Defaults(m: map<Key, Meaning>, items: seq<Meaning>): map<Key, Meaning> {
    if items == [] then m
    else
      var before, key := Defaults(m, items[..|items| - 1]), IntKey(|items|);
      if key in before then before else before[key := items[|items| - 1]]
  }

  function Meanings(items: seq<Value>): seq<Meaning> {
    seq(|items|, i requires 0 <= i < |items| => MeaningOf(items[i]))
  }

  lemma {:induction false} MapPositioned(fields: seq<Entry>, items: seq<Value>)
    ensures MapOf(Positioned(fields, items)) == Defaults(MapOf(fields), Meanings(items))
  {
    if items != [] {
      var n := |items| - 1;
      MapPositioned(fields, items[..n]);
      assert Meanings(items)[..n] == Meanings(items[..n]);
      MapDefault(Positioned(fields, items[..n]), IntKey(|items|), items[n]);
    }
  }

  lemma {:induction false} DefaultsAt(m: map<Key, Meaning>, items: seq<Meaning>, key: Key)
    ensures key in Defaults(m, items) <==> key in m || (key.IntKey? && 1 <= key.i <= |items|)
    ensures key in m ==> Defaults(m, items)[key] == m[key]
    ensures key !in m && key.IntKey? && 1 <= key.i <= |items| ==> Defaults(m, items)[key] == items[key.i - 1]
  {
    if items != [] {
      DefaultsAt(m, items[..|items| - 1], key);
    }
  }

  // What the layouts mean

  function DocMeaning(doc: Doc): Meaning
    decreases doc, 0
  {
    match doc
    case Leaf(v) => MeaningOf(v)
    case Group(named, items) => Dict(Defaults(AddPairs(map[], named), DocMeanings(items)))
  }

  function AddPairs(m: map<Key, Meaning>, named: seq<Pair>): map<Key, Meaning>
    decreases named, 0
  {
    if named == [] then m else AddPairs(m[named[0].key := PairMeaning(named[0])], named[1..])
  }

  function PairMeaning(pair: Pair): Meaning
    decreases pair, 0
  {
    DocMeaning(pair.doc)
  }

  function DocMeanings(items: seq<Doc>): (ms: seq<Meaning>)
    ensures |ms| == |items|
    decreases items, 0
  {
    if items == [] then [] else [DocMeaning(items[0])] + DocMeanings(items[1..])
  }

  lemma {:induction false} NormalMeaning(doc: Doc)
    ensures MeaningOf(Normal(doc)) == DocMeaning(doc)
    decreases doc, 0
  {
    match doc
    case Leaf(v) =>
    case Group(named, items) =>
      StoredMeaning([], named);
      ItemMeanings(items);
      MapPositioned(StoreNamed([], named), NormalItems(items));
  }

  lemma {:induction false} StoredMeaning(fields: seq<Entry>, named: seq<Pair>)
    ensures MapOf(StoreNamed(fields, named)) == AddPairs(MapOf(fields), named)
    decreases named, 0
  {
    if named != [] {
      NormalPair(named[0]);
      MapStore(fields, named[0].key, Normal(named[0].doc));
      StoredMeaning(StorePair(fields, named[0]), named[1..]);
    }
  }

  lemma {:induction false} NormalPair(pair: Pair)
    ensures MeaningOf(Normal(pair.doc)) == PairMeaning(pair)
    decreases pair, 0
  {
    NormalMeaning(pair.doc);
  }

  lemma {:induction false} ItemMeanings(items: seq<Doc>)
    ensures Meanings(NormalItems(items)) == DocMeanings(items)
    decreases items, 0
  {
    if items != [] {
      NormalMeaning(items[0]);
      ItemMeanings(items[1..]);
      assert Meanings(NormalItems(items))[1..] == Meanings(NormalItems(items[1..]));
    }
  }

  lemma {:induction false} MeaningsAt(items: seq<Doc>, i: nat)
    requires i < |items|
    ensures DocMeanings(items)[i] == DocMeaning(items[i])
  {
    if i > 0 {
      MeaningsAt(items[1..], i - 1);
    }
  }

  lemma {:induction false} AddLast(m: map<Key, Meaning>, named: seq<Pair>)
    requires named != []
    ensures var n := |named| - 1;
            AddPairs(m, named) == AddPairs(m, named[..n])[named[n].key := PairMeaning(named[n])]
    decreases |named|
  {
    var n := |named| - 1;
    if n > 0 {
      AddLast(m[named[0].key := PairMeaning(named[0])], named[1..]);
      assert named[1..][..n - 1] == named[..n][1..];
    }
  }

  // The layout of a dict

  predicate InRange(key: Key, k: nat) {
    key.IntKey? && 1 <= key.i <= k
  }

  /** The named part means the fields that are not positions up to k. */
  lemma {:induction false} NamedMeaning(pairs: seq<Pair>, k: nat, key: Key)
    ensures var m := AddPairs(map[], NamedOf(pairs, k));
            && (key in m <==> Find(pairs, key).Some? && !InRange(key, k))
            && (key in m ==> m[key] == DocMeaning(Find(pairs, key).value))
  {
    if pairs != [] {
      var n := |pairs| - 1;
      NamedMeaning(pairs[..n], k, key);
      if !InRange(pairs[n].key, k) {
        var named := NamedOf(pairs, k);
        AddLast(map[], named);
        assert named[..|named| - 1] == NamedOf(pairs[..n], k);
      } else {
        assert NamedOf(pairs, k) == NamedOf(pairs[..n], k);
      }
    }
  }

  predicate Present(pairs: seq<Pair>, i: int) {
    Find(pairs, IntKey(i)).Some?
  }

  /** Without a gap the array part is exactly the positions present, in order. */
  lemma {:induction false} ArrayExact(pairs: seq<Pair>, n: nat)
    requires forall i, j :: 1 <= j < i <= n && Present(pairs, i) ==> Present(pairs, j)
    ensures |ArrayOf(pairs, n)| <= n
    ensures forall i :: 1 <= i <= n ==> (Present(pairs, i) <==> i <= |ArrayOf(pairs, n)|)
    ensures forall i :: 1 <= i <= |ArrayOf(pairs, n)| ==> Find(pairs, IntKey(i)) == Some(ArrayOf(pairs, n)[i - 1])
  {
    if n > 0 {
      ArrayExact(pairs, n - 1);
      if Present(pairs, n) && n > 1 {
        assert Present(pairs, n - 1);
      }
    }
  }

  lemma {:induction false} ArrayLength(pairs: seq<Pair>, n: nat, p: nat)
    requires 1 <= p <= n + 1 && forall j :: 1 <= j < p ==> Present(pairs, j)
    ensures |ArrayOf(pairs, n)| >= p - 1
    ensures (exists i :: p <= i <= n && Present(pairs, i)) ==> |ArrayOf(pairs, n)| >= p
  {
    if n >= p {
      ArrayLength(pairs, n - 1, p);
      if i :| p <= i <= n && Present(pairs, i) {
        assert i < n ==> p <= i <= n - 1 && Present(pairs, i);
      }
    } else if n > 0 {
      ArrayLength(pairs, n - 1, p - 1);
      assert Present(pairs, n);
    }
  }

  /** Behind a gap the array part slides forward over a position that was not there. */
  lemma GapFilled(pairs: seq<Pair>, i: nat, j: nat) returns (p: nat)
    requires 1 <= j < i <= |pairs| && Present(pairs, i) && !Present(pairs, j)
    ensures 1 <= p <= |ArrayOf(pairs, |pairs|)| && !Present(pairs, p)
  {
    p := 1;
    while p < j && Present(pairs, p)
      invariant 1 <= p <= j && forall q :: 1 <= q < p ==> Present(pairs, q)
    {
      p := p + 1;
    }
    ArrayLength(pairs, |pairs|, p);
  }

  lemma {:induction false} PairsAt(entries: seq<Entry>, i: nat)
    requires i < |entries|
    ensures PairsOf(entries)[i] == PairOf(entries[i])
  {
    if i > 0 {
      PairsAt(entries[1..], i - 1);
    }
  }

  lemma {:induction false} FindAt(pairs: seq<Pair>, i: nat)
    requires i < |pairs| && forall j, l :: 0 <= j < l < |pairs| ==> pairs[j].key != pairs[l].key
    ensures Find(pairs, pairs[i].key) == Some(pairs[i].doc)
  {
    if i < |pairs| - 1 {
      FindAt(pairs[..|pairs| - 1], i);
    }
  }

  lemma {:induction false} FindNone(pairs: seq<Pair>, key: Key)
    requires forall i :: 0 <= i < |pairs| ==> pairs[i].key != key
    ensures Find(pairs, key) == None
  {
    if pairs != [] {
      FindNone(pairs[..|pairs| - 1], key);
    }
  }

  lemma {:induction false} MapAt(entries: seq<Entry>, i: nat)
    requires i < |entries| && KeysDistinct(entries)
    ensures entries[i].key in MapOf(entries) && MapOf(entries)[entries[i].key] == MeaningOf(entries[i].value)
  {
    if i > 0 {
      assert KeysDistinct(entries[1..]);
      MapAt(entries[1..], i - 1);
    }
  }

  /** The entry of a key, in the dict and in the pairs made of it. */
  lemma EntryFound(entries: seq<Entry>, key: Key)
    requires KeysDistinct(entries)
    ensures Find(PairsOf(entries), key).Some? <==> Has(entries, key)
    ensures Has(entries, key) ==> key in MapOf(entries)
  {
    var pairs := PairsOf(entries);
    forall i | 0 <= i < |entries| ensures pairs[i] == PairOf(entries[i]) {
      PairsAt(entries, i);
    }
    if Has(entries, key) {
      var i :| 0 <= i < |entries| && entries[i].key == key;
      FindAt(pairs, i);
      MapAt(entries, i);
    } else {
      FindNone(pairs, key);
    }
  }

  lemma DocFound(entries: seq<Entry>, i: nat)
    requires KeysDistinct(entries) && i < |entries|
    ensures Find(PairsOf(entries), entries[i].key) == Some(DocOf(entries[i].value))
  {
    var pairs := PairsOf(entries);
    forall j | 0 <= j < |entries| ensures pairs[j] == PairOf(entries[j]) {
      PairsAt(entries, j);
    }
    FindAt(pairs, i);
  }

  /** The map that the layout of a dict means, at any key. */
  lemma LayoutAt(pairs: seq<Pair>, key: Key)
    ensures var m, k := DocMeaning(SplitOf(pairs)).m, |ArrayOf(pairs, |pairs|)|;
            && (key in m <==> InRange(key, k) || Find(pairs, key).Some?)
            && (key in m && !InRange(key, k) ==> m[key] == DocMeaning(Find(pairs, key).value))
            && (InRange(key, k) ==> m[key] == DocMeaning(ArrayOf(pairs, |pairs|)[key.i - 1]))
  {
    var items := ArrayOf(pairs, |pairs|);
    NamedMeaning(pairs, |items|, key);
    DefaultsAt(AddPairs(map[], NamedOf(pairs, |items|)), DocMeanings(items), key);
    if InRange(key, |items|) {
      MeaningsAt(items, key.i - 1);
    }
  }

  /** Without a gap the layout means the dict's keys, each with the layout of its value. */
  lemma LayoutExact(entries: seq<Entry>, key: Key)
    requires KeysDistinct(entries) && NoGap(entries)
    ensures var pairs := PairsOf(entries);
            && (key in DocMeaning(SplitOf(pairs)).m <==> Has(entries, key))
            && (Has(entries, key) ==> Find(pairs, key).Some?
                                      && DocMeaning(SplitOf(pairs)).m[key] == DocMeaning(Find(pairs, key).value))
  {
    var pairs := PairsOf(entries);
    LayoutAt(pairs, key);
    EntryFound(entries, key);
    forall i, j | 1 <= j < i <= |pairs| && Present(pairs, i) ensures Present(pairs, j) {
      EntryFound(entries, IntKey(i));
      EntryFound(entries, IntKey(j));
    }
    ArrayExact(pairs, |pairs|);
    if key.IntKey? && 1 <= key.i <= |pairs| {
      assert Present(pairs, key.i) <==> key.i <= |ArrayOf(pairs, |pairs|)|;
    }
  }

  /** With a gap it means some position that the dict does not have. */
  lemma LayoutBroken(entries: seq<Entry>)
    requires KeysDistinct(entries) && !NoGap(entries)
    ensures exists key :: key in DocMeaning(SplitOf(PairsOf(entries))).m && !Has(entries, key)
    ensures DocMeaning(SplitOf(PairsOf(entries))).m != MapOf(entries)
  {
    var pairs := PairsOf(entries);
    var i, j :| 1 <= j < i <= |entries| && Has(entries, IntKey(i)) && !Has(entries, IntKey(j));
    EntryFound(entries, IntKey(i));
    EntryFound(entries, IntKey(j));
    var p := GapFilled(pairs, i, j);
    LayoutAt(pairs, IntKey(p));
    EntryFound(entries, IntKey(p));
    MapKeys(entries, IntKey(p));
    assert IntKey(p) in DocMeaning(SplitOf(pairs)).m && !Has(entries, IntKey(p));
  }

  /** The same keys in the same places, with whatever values. */
  predicate SameKeys(entries: seq<Entry>, others: seq<Entry>) {
    |entries| == |others| && forall i :: 0 <= i < |entries| ==> entries[i].key == others[i].key
  }

  lemma SameHas(entries: seq<Entry>, others: seq<Entry>, key: Key)
    requires SameKeys(entries, others)
    ensures Has(entries, key) <==> Has(others, key)
  {
    if Has(others, key) {
      var i :| 0 <= i < |others| && others[i].key == key;
      assert entries[i].key == key;
    }
    if Has(entries, key) {
      var i :| 0 <= i < |entries| && entries[i].key == key;
      assert others[i].key == key;
    }
  }

  /** A table laid out with other values means the dict if and only if it has no gap and every value means the dict's. */
  lemma TableMeaning(entries: seq<Entry>, others: seq<Entry>)
    requires KeysDistinct(entries) && SameKeys(entries, others)
    ensures DocMeaning(SplitOf(PairsOf(others))).m == MapOf(entries)
            <==> NoGap(entries)
                 && forall i :: 0 <= i < |entries| ==> DocMeaning(DocOf(others[i].value)) == MeaningOf(entries[i].value)
  {
    forall key ensures Has(entries, key) <==> Has(others, key) {
      SameHas(entries, others, key);
    }
    if NoGap(entries) {
      EntriesMeaning(entries, others);
    } else {
      LayoutBroken(others);
      var key :| key in DocMeaning(SplitOf(PairsOf(others))).m && !Has(others, key);
      MapKeys(entries, key);
    }
  }

  lemma EntriesMeaning(entries: seq<Entry>, others: seq<Entry>)
    requires KeysDistinct(entries) && SameKeys(entries, others) && NoGap(others)
    ensures DocMeaning(SplitOf(PairsOf(others))).m == MapOf(entries)
            <==> forall i :: 0 <= i < |entries| ==> DocMeaning(DocOf(others[i].value)) == MeaningOf(entries[i].value)
  {
    var m := DocMeaning(SplitOf(PairsOf(others))).m;
    forall key ensures key in m <==> key in MapOf(entries) {
      LayoutExact(others, key);
      SameHas(entries, others, key);
      MapKeys(entries, key);
    }
    forall i | 0 <= i < |entries|
      ensures entries[i].key in m && m[entries[i].key] == DocMeaning(DocOf(others[i].value))
      ensures entries[i].key in MapOf(entries) && MapOf(entries)[entries[i].key] == MeaningOf(entries[i].value)
    {
      LayoutExact(others, others[i].key);
      DocFound(others, i);
      MapAt(entries, i);
      assert Has(others, others[i].key);
    }
    if forall i :: 0 <= i < |entries| ==> DocMeaning(DocOf(others[i].value)) == MeaningOf(entries[i].value) {
      forall key | key in m ensures m[key] == MapOf(entries)[key] {
        MapKeys(entries, key);
        var i :| 0 <= i < |entries| && entries[i].key == key;
        assert m[entries[i].key] == MapOf(entries)[entries[i].key];
      }
    }
  }

  /** The layout of a value means the value if and only if none of its tables has a gap. */
  lemma {:induction false} LayoutMeaning(v: Value)
    requires IsDict(v)
    ensures DocMeaning(DocOf(v)) == MeaningOf(v) <==> Gapless(v)
    decreases v, 0
  {
    if v.Table? {
      forall i | 0 <= i < |v.entries|
        ensures DocMeaning(DocOf(v.entries[i].value)) == MeaningOf(v.entries[i].value) <==> EntryGapless(v.entries[i])
      {
        EntryMeansItself(v.entries[i]);
      }
      TableMeaning(v.entries, v.entries);
    }
  }

  lemma {:induction false} EntryMeansItself(e: Entry)
    requires EntryIsDict(e)
    ensures DocMeaning(DocOf(e.value)) == MeaningOf(e.value) <==> EntryGapless(e)
    decreases e, 0
  {
    LayoutMeaning(e.value);
  }

  // --------------------------------------------------------------------------------
  // The value that comes back
  // --------------------------------------------------------------------------------

  /** The value with its strings and keys as they are read back; keys that were different may become the same. */
  function BackValue(v: Value): Value
    decreases v, 0
  {
    match v
    case Table(entries) => Table(BackEntries(entries))
    case _ => BackLeaf(v)
  }

  function BackEntries(entries: seq<Entry>): (backs: seq<Entry>)
    ensures |backs| == |entries|
    decreases entries, 0
  {
    if entries == [] then [] else [BackEntry(entries[0])] + BackEntries(entries[1..])
  }

  function BackEntry(e: Entry): Entry
    decreases e, 0
  {
    Entry(BackKey(e.key), BackValue(e.value))
  }

  lemma {:induction false} BackEntriesAt(entries: seq<Entry>, i: nat)
    requires i < |entries|
    ensures BackEntries(entries)[i] == BackEntry(entries[i])
  {
    if i > 0 {
      BackEntriesAt(entries[1..], i - 1);
    }
  }

  lemma {:induction false} BackPairsAt(pairs: seq<Pair>, i: nat)
    requires i < |pairs|
    ensures BackPairs(pairs)[i] == BackPair(pairs[i])
  {
    if i > 0 {
      BackPairsAt(pairs[1..], i - 1);
    }
  }

  lemma BackPairsPrefix(pairs: seq<Pair>)
    requires pairs != []
    ensures var n := |pairs| - 1;
            BackPairs(pairs)[..n] == BackPairs(pairs[..n]) && BackPairs(pairs)[n] == BackPair(pairs[n])
  {
    var n := |pairs| - 1;
    BackPairsAt(pairs, n);
    forall i | 0 <= i < n ensures BackPairs(pairs)[i] == BackPairs(pairs[..n])[i] {
      BackPairsAt(pairs, i);
      BackPairsAt(pairs[..n], i);
    }
  }

  lemma {:induction false} BackPairsConcat(a: seq<Pair>, b: seq<Pair>)
    ensures BackPairs(a + b) == BackPairs(a) + BackPairs(b)
  {
    if a == [] {
      assert a + b == b;
    } else {
      assert (a + b)[1..] == a[1..] + b;
      BackPairsConcat(a[1..], b);
    }
  }

  lemma {:induction false} BackDocsConcat(a: seq<Doc>, b: seq<Doc>)
    ensures BackDocs(a + b) == BackDocs(a) + BackDocs(b)
  {
    if a == [] {
      assert a + b == b;
    } else {
      assert (a + b)[1..] == a[1..] + b;
      BackDocsConcat(a[1..], b);
    }
  }

  /** Integer keys come back as they are, and no string key becomes one. */
  lemma {:induction false} FindBack(pairs: seq<Pair>, i: int)
    ensures Find(BackPairs(pairs), IntKey(i))
         == match Find(pairs, IntKey(i)) case Some(doc) => Some(BackDoc(doc)) case None => None
  {
    if pairs != [] {
      BackPairsPrefix(pairs);
      FindBack(pairs[..|pairs| - 1], i);
    }
  }

  lemma {:induction false} ArrayBack(pairs: seq<Pair>, n: nat)
    ensures ArrayOf(BackPairs(pairs), n) == BackDocs(ArrayOf(pairs, n))
  {
    if n > 0 {
      ArrayBack(pairs, n - 1);
      FindBack(pairs, n);
      match Find(pairs, IntKey(n))
      case Some(doc) =>
        BackDocsConcat(ArrayOf(pairs, n - 1), [doc]);
        assert BackDocs([doc]) == [BackDoc(doc)];
      case None =>
        assert ArrayOf(pairs, n - 1) + [] == ArrayOf(pairs, n - 1);
    }
  }

  lemma {:induction false} NamedBack(pairs: seq<Pair>, k: nat)
    ensures NamedOf(BackPairs(pairs), k) == BackPairs(NamedOf(pairs, k))
  {
    if pairs != [] {
      var before, last := pairs[..|pairs| - 1], pairs[|pairs| - 1];
      BackPairsPrefix(pairs);
      NamedBack(before, k);
      if last.key.IntKey? && 1 <= last.key.i <= k {
        assert NamedOf(before, k) + [] == NamedOf(before, k);
      } else {
        BackPairsConcat(NamedOf(before, k), [last]);
        assert BackPairs([last]) == [BackPair(last)];
      }
    }
  }

  /** Reading back commutes with laying out. */
  lemma {:induction false} BackLaidOut(v: Value)
    ensures BackDoc(DocOf(v)) == DocOf(BackValue(v))
    decreases v, 0
  {
    if v.Table? {
      var pairs := PairsOf(v.entries);
      EntriesLaidOut(v.entries);
      ArrayBack(pairs, |pairs|);
      NamedBack(pairs, |ArrayOf(pairs, |pairs|)|);
    }
  }

  lemma {:induction false} EntriesLaidOut(entries: seq<Entry>)
    ensures BackPairs(PairsOf(entries)) == PairsOf(BackEntries(entries))
    decreases entries, 0
  {
    if entries != [] {
      EntryLaidOut(entries[0]);
      EntriesLaidOut(entries[1..]);
      assert BackEntries(entries)[1..] == BackEntries(entries[1..]);
      assert PairsOf(entries)[1..] == PairsOf(entries[1..]);
    }
  }

  lemma {:induction false} EntryLaidOut(e: Entry)
    ensures BackPair(PairOf(e)) == PairOf(BackEntry(e))
    decreases e, 0
  {
    BackLaidOut(e.value);
  }

  // When all of it comes back

  /** No backslash right before a z, and not an identifier with a line feed behind it. */
  predicate KeySurvives(key: Key) {
    key.StrKey? ==> !HasSlashZ(key.s) && (TakenForIdentifier(key.s) ==> IsIdentifier(key.s))
  }

  /** Every string comes back, and every key. */
  predicate Survives(v: Value) {
    match v
    case Str(s) => !HasSlashZ(s)
    case Table(entries) => forall i :: 0 <= i < |entries| ==> EntrySurvives(entries[i])
    case _ => true
  }

  predicate EntrySurvives(e: Entry) {
    KeySurvives(e.key) && Survives(e.value)
  }

  /** What a key that does not come back loses: some z, or being mistaken for an identifier. */
  function Weight(key: Key): nat {
    if key.IntKey? then 0
    else 2 * CountZ(key.s) + (if TakenForIdentifier(key.s) && !IsIdentifier(key.s) then 1 else 0)
  }

  lemma BackKeyExact(key: Key)
    ensures BackKey(key) == key <==> KeySurvives(key)
    ensures !KeySurvives(key) ==> Weight(BackKey(key)) < Weight(key)
  {
    if key.StrKey? {
      var s := key.s;
      if IsIdentifier(s) {
      } else if TakenForIdentifier(s) {
        var name := s[..|s| - 1];
        CountZConcat(name, "\n");
        assert name + "\n" == s && CountZ("\n") == 0;
      } else {
        StringRoundTrip(s);
        if HasSlashZ(s) {
          SlashZLost(s);
        }
      }
    }
  }

  /** Every key of the table is what some key of it comes back as. */
  ghost predicate Covered(entries: seq<Entry>) {
    forall i :: 0 <= i < |entries| && entries[i].key.StrKey? ==>
      exists j :: 0 <= j < |entries| && BackKey(entries[j].key) == entries[i].key
  }

  function Heaviest(entries: seq<Entry>): nat {
    if entries == [] then 0
    else
      var rest, w := Heaviest(entries[1..]), Weight(entries[0].key);
      if w > rest then w else rest
  }

  lemma {:induction false} HeaviestBounds(entries: seq<Entry>, i: nat)
    requires i < |entries|
    ensures Weight(entries[i].key) <= Heaviest(entries)
  {
    if i > 0 {
      HeaviestBounds(entries[1..], i - 1);
    }
  }

  /** A key that does not come back would need a heavier one to take its place, and so on. */
  lemma {:induction false} CoveredSurvives(entries: seq<Entry>, i: nat)
    requires Covered(entries) && i < |entries|
    ensures KeySurvives(entries[i].key)
    decreases Heaviest(entries) - Weight(entries[i].key)
  {
    if !KeySurvives(entries[i].key) {
      var j :| 0 <= j < |entries| && BackKey(entries[j].key) == entries[i].key;
      BackKeyExact(entries[i].key);
      BackKeyExact(entries[j].key);
      HeaviestBounds(entries, j);
      CoveredSurvives(entries, j);
    }
  }

  /** What the layout of the value that comes back means at a string key: some key comes back as it. */
  lemma BackCovers(entries: seq<Entry>)
    requires DocMeaning(SplitOf(PairsOf(BackEntries(entries)))).m == MapOf(entries)
    ensures Covered(entries)
  {
    var backs := BackEntries(entries);
    var pairs := PairsOf(backs);
    forall i | 0 <= i < |entries| && entries[i].key.StrKey?
      ensures exists j :: 0 <= j < |entries| && BackKey(entries[j].key) == entries[i].key
    {
      var key := entries[i].key;
      MapKeys(entries, key);
      LayoutAt(pairs, key);
      if forall j :: 0 <= j < |pairs| ==> pairs[j].key != key {
        FindNone(pairs, key);
      }
      var j :| 0 <= j < |pairs| && pairs[j].key == key;
      PairsAt(backs, j);
      BackEntriesAt(entries, j);
    }
  }

  /** The layout of the value that comes back means the value printed if and only if nothing is lost and no table has a gap. */
  lemma {:induction false} BackMeaning(v: Value)
    requires IsDict(v)
    ensures DocMeaning(DocOf(BackValue(v))) == MeaningOf(v) <==> Gapless(v) && Survives(v)
    decreases v, 0
  {
    match v
    case Str(s) => StringRoundTrip(s);
    case Table(entries) =>
      if DocMeaning(SplitOf(PairsOf(BackEntries(entries)))).m == MapOf(entries) {
        BackCovers(entries);
        forall i | 0 <= i < |entries| ensures KeySurvives(entries[i].key) {
          CoveredSurvives(entries, i);
        }
      }
      if forall i :: 0 <= i < |entries| ==> KeySurvives(entries[i].key) {
        SurvivingKeys(entries);
      } else {
        assert !Survives(v);
      }
    case _ =>
  }

  lemma {:induction false} SurvivingKeys(entries: seq<Entry>)
    requires IsDict(Table(entries)) && forall i :: 0 <= i < |entries| ==> KeySurvives(entries[i].key)
    ensures DocMeaning(SplitOf(PairsOf(BackEntries(entries)))).m == MapOf(entries)
            <==> Gapless(Table(entries)) && Survives(Table(entries))
    decreases entries, 1
  {
    var backs := BackEntries(entries);
    forall i | 0 <= i < |entries|
      ensures backs[i].key == entries[i].key
      ensures DocMeaning(DocOf(backs[i].value)) == MeaningOf(entries[i].value)
              <==> EntryGapless(entries[i]) && Survives(entries[i].value)
    {
      BackEntriesAt(entries, i);
      BackKeyExact(entries[i].key);
      EntryBackMeaning(entries[i]);
    }
    TableMeaning(entries, backs);
  }

  lemma {:induction false} EntryBackMeaning(e: Entry)
    requires EntryIsDict(e)
    ensures DocMeaning(DocOf(BackValue(e.value))) == MeaningOf(e.value) <==> EntryGapless(e) && Survives(e.value)
    decreases e, 0
  {
    BackMeaning(e.value);
  }

  // --------------------------------------------------------------------------------
  // The round trip
  // --------------------------------------------------------------------------------

  /** Every reference in it is what a reference can be. */
  predicate Refs(v: Value) {
    match v
    case Ref(parts) => IsRef(parts)
    case Table(entries) => forall i :: 0 <= i < |entries| ==> EntryRefs(entries[i])
    case _ => true
  }

  predicate EntryRefs(e: Entry) {
    Refs(e.value)
  }

  /** Some reference in it has an index. */
  predicate IndexIn(v: Value) {
    match v
    case Ref(parts) => HasIndex(parts)
    case Table(entries) => exists i :: 0 <= i < |entries| && EntryIndexIn(entries[i])
    case _ => false
  }

  predicate EntryIndexIn(e: Entry) {
    IndexIn(e.value)
  }

  lemma {:induction false} LooseLaidOut(v: Value)
    requires Refs(v)
    ensures LooseDoc(DocOf(v))
    decreases v, 0
  {
    if v.Table? {
      var pairs := PairsOf(v.entries);
      forall i | 0 <= i < |v.entries| ensures LoosePair(pairs[i]) {
        LooseEntryLaidOut(v.entries[i]);
        PairsAt(v.entries, i);
      }
      var items := ArrayOf(pairs, |pairs|);
      NamedFrom(pairs, |items|);
      ItemsFrom(pairs, |pairs|);
      forall i | 0 <= i < |items| ensures LooseDoc(items[i]) {
        assert OneOf(items[i], pairs);
        var j :| 0 <= j < |pairs| && pairs[j].doc == items[i];
        assert LoosePair(pairs[j]);
      }
    }
  }

  lemma {:induction false} LooseEntryLaidOut(e: Entry)
    requires EntryRefs(e)
    ensures LoosePair(PairOf(e))
    decreases e, 0
  {
    LooseLaidOut(e.value);
  }

  // Nothing is laid out that is not in the table, and everything in it is laid out

  lemma {:induction false} NamedFrom(pairs: seq<Pair>, k: nat)
    ensures forall i :: 0 <= i < |NamedOf(pairs, k)| ==> NamedOf(pairs, k)[i] in pairs
    ensures forall p :: p in pairs && !(p.key.IntKey? && 1 <= p.key.i <= k) ==> p in NamedOf(pairs, k)
  {
    if pairs != [] {
      var n := |pairs| - 1;
      NamedFrom(pairs[..n], k);
      assert pairs == pairs[..n] + [pairs[n]];
    }
  }

  predicate OneOf(doc: Doc, pairs: seq<Pair>) {
    exists j :: 0 <= j < |pairs| && pairs[j].doc == doc
  }

  lemma {:induction false} FoundFrom(pairs: seq<Pair>, key: Key)
    ensures Find(pairs, key).Some? ==> OneOf(Find(pairs, key).value, pairs)
  {
    if pairs != [] {
      var n := |pairs| - 1;
      if pairs[n].key != key {
        FoundFrom(pairs[..n], key);
        if Find(pairs, key).Some? {
          var j :| 0 <= j < n && pairs[..n][j].doc == Find(pairs[..n], key).value;
          assert pairs[j].doc == Find(pairs, key).value;
        }
      }
    }
  }

  lemma {:induction false} ItemsFrom(pairs: seq<Pair>, n: nat)
    ensures |ArrayOf(pairs, n)| <= n
    ensures forall i :: 0 <= i < |ArrayOf(pairs, n)| ==> OneOf(ArrayOf(pairs, n)[i], pairs)
  {
    if n > 0 {
      ItemsFrom(pairs, n - 1);
      FoundFrom(pairs, IntKey(n));
    }
  }

  lemma {:induction false} ItemsAll(pairs: seq<Pair>, n: nat, k: nat)
    requires 1 <= k <= n && Find(pairs, IntKey(k)).Some?
    ensures Find(pairs, IntKey(k)).value in ArrayOf(pairs, n)
  {
    if k < n {
      ItemsAll(pairs, n - 1, k);
    }
  }

  /** The layout has an index exactly if the value has. */
  lemma {:induction false} IndexLaidOut(v: Value)
    requires IsDict(v)
    ensures Indexed(DocOf(v)) <==> IndexIn(v)
    decreases v, 0
  {
    if v.Table? {
      var pairs := PairsOf(v.entries);
      forall i | 0 <= i < |v.entries| ensures PairIndexed(pairs[i]) <==> EntryIndexIn(v.entries[i]) {
        assert EntryIsDict(v.entries[i]);
        EntryIndexLaidOut(v.entries[i]);
        PairsAt(v.entries, i);
      }
      TableIndexed(v.entries, pairs);
    }
  }

  lemma {:induction false} EntryIndexLaidOut(e: Entry)
    requires EntryIsDict(e)
    ensures PairIndexed(PairOf(e)) <==> EntryIndexIn(e)
    decreases e, 0
  {
    IndexLaidOut(e.value);
  }

  lemma TableIndexed(entries: seq<Entry>, pairs: seq<Pair>)
    requires KeysDistinct(entries) && pairs == PairsOf(entries)
    ensures Indexed(SplitOf(pairs)) <==> exists i :: 0 <= i < |pairs| && PairIndexed(pairs[i])
  {
    var items := ArrayOf(pairs, |pairs|);
    var named := NamedOf(pairs, |items|);
    NamedFrom(pairs, |items|);
    ItemsFrom(pairs, |pairs|);
    if i :| 0 <= i < |named| && PairIndexed(named[i]) {
      assert named[i] in pairs;
    }
    if i :| 0 <= i < |items| && Indexed(items[i]) {
      assert OneOf(items[i], pairs);
      var j :| 0 <= j < |pairs| && pairs[j].doc == items[i];
      assert PairIndexed(pairs[j]);
    }
    if i :| 0 <= i < |pairs| && PairIndexed(pairs[i]) {
      PairIndexedLaidOut(entries, pairs, i);
    }
  }

  lemma PairIndexedLaidOut(entries: seq<Entry>, pairs: seq<Pair>, i: nat)
    requires KeysDistinct(entries) && pairs == PairsOf(entries) && i < |pairs| && PairIndexed(pairs[i])
    ensures Indexed(SplitOf(pairs))
  {
    var items := ArrayOf(pairs, |pairs|);
    var named := NamedOf(pairs, |items|);
    var key := pairs[i].key;
    NamedFrom(pairs, |items|);
    ItemsFrom(pairs, |pairs|);
    if key.IntKey? && 1 <= key.i <= |items| {
      PairsAt(entries, i);
      DocFound(entries, i);
      ItemsAll(pairs, |pairs|, key.i);
      assert pairs[i].doc in items;
      var j :| 0 <= j < |items| && items[j] == pairs[i].doc;
      assert Indexed(items[j]);
    } else {
      assert pairs[i] in named;
    }
  }

  /** The text is read to its end. */
  predicate ReadThrough(text: string) {
    Read(text).Ok? && Read(text).value.1 == []
  }

  /** What reading gives, where it gets through. */
  lemma ReadBackValue(v: Value)
    requires IsDict(v) && Refs(v) && !IndexIn(v)
    ensures Read(Lua(v)) == Ok((Normal(DocOf(BackValue(v))), []))
  {
    LooseLaidOut(v);
    IndexLaidOut(v);
    LooseIsGood(DocOf(v));
    PrintedReads(DocOf(v), 0);
    BackLaidOut(v);
  }

  /**
   What the printer wrote is read to its end if and only if no reference has an index. It gives back
   the same nested value, tables compared as dicts, if and only if moreover no table has a gap in its
   positions, no string or key has a backslash right before a z, and no key is an identifier with a line
   feed behind it.
   */
  lemma RoundTrip(v: Value)
    requires IsDict(v) && Refs(v)
    ensures ReadThrough(Lua(v)) <==> !IndexIn(v)
    ensures ReadThrough(Lua(v)) && MeaningOf(Read(Lua(v)).value.0) == MeaningOf(v) <==> !IndexIn(v) && Gapless(v) && Survives(v)
  {
    LooseLaidOut(v);
    IndexLaidOut(v);
    PrintedReadsExactly(DocOf(v), 0);
    if !IndexIn(v) {
      ReadBackValue(v);
      NormalMeaning(DocOf(BackValue(v)));
      BackMeaning(v);
    }
  }

  /**
   A table with one field is read to its end if its value has no index. The value comes back under the key
   as it comes back, which is the key exactly if it survives.
   */
  lemma OneFieldRead(s: string, v: Value)
    requires IsDict(v) && Refs(v)
    ensures ReadThrough(Lua(Table([Entry(StrKey(s), v)]))) <==> !IndexIn(v)
    ensures !IndexIn(v) ==>
              var r := Read(Lua(Table([Entry(StrKey(s), v)]))).value.0;
              && r.Table? && |r.entries| == 1
              && r.entries[0].key == BackKey(StrKey(s))
              && (r.entries[0].key == StrKey(s) <==> KeySurvives(StrKey(s)))
  {
    var table := Table([Entry(StrKey(s), v)]);
    assert EntryIndexIn(table.entries[0]) <==> IndexIn(v);
    RoundTrip(table);
    if !IndexIn(v) {
      ReadBackValue(table);
      OneFieldBack(s, v);
      OneFieldLayout(BackKey(StrKey(s)), BackValue(v));
      BackKeyExact(StrKey(s));
    }
  }

  lemma OneFieldBack(s: string, v: Value)
    ensures BackValue(Table([Entry(StrKey(s), v)])) == Table([Entry(BackKey(StrKey(s)), BackValue(v))])
  {
    var entries := [Entry(StrKey(s), v)];
    assert BackValue(Table(entries)) == Table([BackEntry(entries[0])]);
  }

  lemma OnePair(key: Key, doc: Doc)
    requires key.StrKey?
    ensures SplitOf([Pair(key, doc)]) == Group([Pair(key, doc)], [])
  {
    var pairs := [Pair(key, doc)];
    assert pairs[..0] == [];
    assert Find(pairs, IntKey(1)) == Find([], IntKey(1));
    assert ArrayOf(pairs, 1) == ArrayOf(pairs, 0) + [];
    assert NamedOf(pairs, 0) == NamedOf([], 0) + pairs;
  }

  lemma OneFieldLayout(key: Key, v: Value)
    requires key.StrKey?
    ensures Normal(DocOf(Table([Entry(key, v)]))) == Table([Entry(key, Normal(DocOf(v)))])
  {
    OnePair(key, DocOf(v));
    assert [Entry(key, v)][1..] == [];
    assert PairsOf([Entry(key, v)]) == [PairOf(Entry(key, v))];
    OneStored(Pair(key, DocOf(v)));
  }

  lemma OneStored(pair: Pair)
    ensures Normal(Group([pair], [])) == Table([Entry(pair.key, Normal(pair.doc))])
  {
    assert [pair][1..] == [];
    assert StoreNamed([], [pair]) == StoreNamed(StorePair([], pair), []);
  }

  /** A key that is an identifier and a line feed comes back without the line feed. */
  lemma LineFeedKeyLost(name: string, v: Value)
    requires IsIdentifier(name) && IsDict(v) && Refs(v) && !IndexIn(v)
    ensures ReadThrough(Lua(Table([Entry(StrKey(name + "\n"), v)])))
    ensures var r := Read(Lua(Table([Entry(StrKey(name + "\n"), v)]))).value.0;
            r.Table? && |r.entries| == 1 && r.entries[0].key == StrKey(name)
  {
    var s := name + "\n";
    OneFieldRead(s, v);
    assert s[..|s| - 1] == name;
    assert !IsNameChar(s[|s| - 1]);
  }
}
