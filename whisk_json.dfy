/**
 * JSON values as `JSON.parse` produces them, the JavaScript notions of
 * truthiness and property access the composition engine relies on, and the
 * deep merge `mergeDeep` of whisk/whisk.js.
 */
module WhiskJson {
  import opened Wrappers

  /**
   * A parsed JSON value. An object keeps its properties in insertion order,
   * which is the order `for...in` and `Object.keys` visit them.
   */
  datatype Json =
    | Null
    | Bool(b: bool)
    | Num(n: real)
    | Str(s: string)
    | Arr(items: seq<Json>)
    | Obj(props: seq<(string, Json)>)

  /** JavaScript truthiness of a JSON value. */
  predicate Truthy(v: Json)
  {
    match v
    case Null => false
    case Bool(b) => b
    case Num(n) => n != 0.0
    case Str(s) => s != ""
    case Arr(_) => true
    case Obj(_) => true
  }

  /** `isObject`: truthy, of type `object`, and not an array. */
  predicate IsObject(v: Json)
  {
    v.Obj?
  }

  lemma IsObjectMeansTruthyNonArray(v: Json)
    ensures IsObject(v) <==> Truthy(v) && (v.Arr? || v.Obj?) && !v.Arr?
  {
  }

  /** The keys of an object's property list, in order. */
  function Keys(props: seq<(string, Json)>): (ks: seq<string>)
    ensures |ks| == |props|
    ensures forall i :: 0 <= i < |props| ==> ks[i] == props[i].0
  {
    if |props| == 0 then [] else [props[0].0] + Keys(props[1..])
  }

  /** `target[key]`: the value of the first property named `key`, or `None` for `undefined`. */
  function Lookup(props: seq<(string, Json)>, key: string): (r: Option<Json>)
  {
    if |props| == 0 then None
    else if props[0].0 == key then Some(props[0].1)
    else Lookup(props[1..], key)
  }

  /**
   * `Object.assign(target, { [key]: value })`: an existing property keeps its
   * position and takes the new value; a new one is appended.
   */
  function Set(props: seq<(string, Json)>, key: string, value: Json): (r: seq<(string, Json)>)
  {
    if |props| == 0 then [(key, value)]
    else if props[0].0 == key then [(key, value)] + props[1..]
    else [props[0]] + Set(props[1..], key, value)
  }

  /** `target[key]` is `undefined` exactly when no property is named `key`, and otherwise a value stored under it. */
  lemma {:induction false} LookupKeys(props: seq<(string, Json)>, key: string)
    ensures Lookup(props, key).None? <==> key !in Keys(props)
    ensures Lookup(props, key).Some? ==> (key, Lookup(props, key).value) in props
  {
    if |props| > 0 && props[0].0 != key {
      LookupKeys(props[1..], key);
      assert Keys(props) == [props[0].0] + Keys(props[1..]);
    }
  }

  /** An assignment to an existing key keeps the length; one to a new key appends the property. */
  lemma {:induction false} SetShape(props: seq<(string, Json)>, key: string, value: Json)
    ensures key in Keys(props) ==> |Set(props, key, value)| == |props|
    ensures key !in Keys(props) ==> Set(props, key, value) == props + [(key, value)]
  {
    if |props| > 0 && props[0].0 != key {
      SetShape(props[1..], key, value);
      assert Keys(props) == [props[0].0] + Keys(props[1..]);
      assert props == [props[0]] + props[1..];
    }
  }

  lemma {:induction false} LookupSet(props: seq<(string, Json)>, key: string, value: Json, other: string)
    ensures Lookup(Set(props, key, value), key) == Some(value)
    ensures other != key ==> Lookup(Set(props, key, value), other) == Lookup(props, other)
  {
    if |props| > 0 && props[0].0 != key {
      LookupSet(props[1..], key, value, other);
      assert Set(props, key, value)[1..] == Set(props[1..], key, value);
    }
  }

  /** Assigning a key the value it already has changes nothing. */
  lemma {:induction false} SetSame(props: seq<(string, Json)>, key: string)
    requires Lookup(props, key).Some?
    ensures Set(props, key, Lookup(props, key).value) == props
  {
    if props[0].0 != key {
      SetSame(props[1..], key);
    }
  }

  /** No key occurs twice, as in every object `JSON.parse` returns. */
  predicate UniqueKeys(props: seq<(string, Json)>)
  {
    forall i, j :: 0 <= i < j < |props| ==> props[i].0 != props[j].0
  }

  /** Unique keys in every object reachable through object-valued properties. */
  predicate DeepUnique(v: Json)
    decreases v
  {
    v.Obj? ==> UniqueKeys(v.props) && forall i :: 0 <= i < |v.props| ==> DeepUnique(v.props[i].1)
  }

  // ---------------------------------------------------------------------------
  // JavaScript property access on parsed values; `None` is `undefined`.

  /** `v ?? d`: the default replaces only `undefined` and `null`. */
  function Coalesce(v: Option<Json>, d: Json): (r: Json)
    ensures v.Some? && !v.value.Null? ==> r == v.value
    ensures v.None? || v.value.Null? ==> r == d
  {
    if v.None? || v.value.Null? then d else v.value
  }

  predicate TruthyOpt(v: Option<Json>)
  {
    v.Some? && Truthy(v.value)
  }

  /**
   * `v.key` on a value that is neither `undefined` nor `null`: an object's
   * property; an array's element or a string's character at an index below
   * its length, and its `length`; `undefined` otherwise.
   */
  function Field(v: Json, key: string): Option<Json>
  {
    match v
    case Obj(props) => Lookup(props, key)
    case Arr(items) =>
      var i := ArrayIndex(key);
      if i.Some? && i.value < |items| then Some(items[i.value])
      else if key == "length" then Some(Num(|items| as real))
      else None
    case Str(s) =>
      var i := ArrayIndex(key);
      if i.Some? && i.value < |s| then Some(Str([s[i.value]]))
      else if key == "length" then Some(Num(|s| as real))
      else None
    case _ => None
  }

  /** `v.key`: a `TypeError` on `undefined` and `null`. */
  function Get(v: Option<Json>, key: string): Result<Option<Json>>
  {
    if v.None? then Err("TypeError: Cannot read properties of undefined")
    else if v.value.Null? then Err("TypeError: Cannot read properties of null")
    else Ok(Field(v.value, key))
  }

  /** `Object.keys(v)`: a `TypeError` on `undefined` and `null`, and the own keys of anything else. */
  function ObjectKeys(v: Option<Json>): (r: Result<seq<string>>)
    ensures r.Err? <==> v.None? || v.value.Null?
  {
    if v.None? || v.value.Null? then Err("TypeError: Cannot convert undefined or null to object")
    else Ok(OwnKeys(v.value))
  }

  // ---------------------------------------------------------------------------
  // Array indices and the order of own keys (sections 6.1.7 and 10.1.11.1 of ECMAScript)

  /** Array indices are the integers below 2^32 - 1. */
  const MaxArrayIndex: nat := 4294967295

  predicate IsDigit(c: char)
  {
    '0' <= c <= '9'
  }

  predicate AllDigits(s: string)
  {
    forall i :: 0 <= i < |s| ==> IsDigit(s[i])
  }

  /** The number a string of decimal digits spells. */
  function DigitsValue(s: string): nat
    requires AllDigits(s)
  {
    if |s| == 0 then 0 else 10 * DigitsValue(s[..|s| - 1]) + (s[|s| - 1] as int - '0' as int)
  }

  /** `String(n)`: the decimal digits of `n`, without leading zeros. */
  function Decimal(n: nat): (s: string)
    ensures |s| > 0 && AllDigits(s)
  {
    var last := [(('0' as int) + n % 10) as char];
    if n < 10 then last else Decimal(n / 10) + last
  }

  /** The array index a key names: a decimal numeral in canonical form (no leading zero), below 2^32 - 1. */
  function ArrayIndex(key: string): (r: Option<nat>)
    ensures r.Some? ==> r.value < MaxArrayIndex
  {
    if |key| == 0 || !IsDigit(key[0]) || !AllDigits(key) || (key[0] == '0' && |key| > 1) then None
    else if DigitsValue(key) < MaxArrayIndex then Some(DigitsValue(key))
    else None
  }

  /** An array index is named by exactly one key: its decimal form. */
  lemma IndexKeyCanonical(key: string)
    requires ArrayIndex(key).Some?
    ensures key == Decimal(ArrayIndex(key).value)
  {
    CanonicalDigits(key);
  }

  /** A canonical numeral is the decimal form of its value. */
  lemma {:induction false} CanonicalDigits(s: string)
    requires |s| > 0 && AllDigits(s) && (s[0] == '0' ==> |s| == 1)
    ensures Decimal(DigitsValue(s)) == s
  {
    var init := s[..|s| - 1];
    var d := s[|s| - 1] as int - '0' as int;
    if |init| > 0 {
      assert init[0] == s[0];
      CanonicalDigits(init);
      LeadingDigit(init);
      assert DigitsValue(s) / 10 == DigitsValue(init) && DigitsValue(s) % 10 == d;
      assert s == init + [s[|s| - 1]];
    }
  }

  /** A canonical numeral of more than one digit stands for at least 10, and one not starting with `0` for at least 1. */
  lemma {:induction false} LeadingDigit(s: string)
    requires |s| > 0 && AllDigits(s) && (s[0] == '0' ==> |s| == 1)
    ensures |s| > 1 ==> DigitsValue(s) >= 10
    ensures s[0] != '0' ==> DigitsValue(s) >= 1
  {
    var init := s[..|s| - 1];
    if |init| > 0 {
      assert init[0] == s[0];
      LeadingDigit(init);
    }
  }

  /** Reading the decimal form of `n` back gives `n`. */
  lemma {:induction false} DecimalValue(n: nat)
    ensures DigitsValue(Decimal(n)) == n
    ensures Decimal(n)[0] == '0' ==> n == 0
  {
    if n >= 10 {
      DecimalValue(n / 10);
      var s := Decimal(n);
      assert s[..|s| - 1] == Decimal(n / 10);
    }
  }

  /** The decimal form of an array index is the key that names it. */
  lemma DecimalIsIndex(n: nat)
    requires n < MaxArrayIndex
    ensures ArrayIndex(Decimal(n)) == Some(n)
  {
    DecimalValue(n);
  }

  /** The keys `"0"` .. `"n-1"` of the indices below `n`. */
  function IndexKeys(n: nat): (ks: seq<string>)
    ensures |ks| == n
  {
    seq(n, i requires 0 <= i => Decimal(i))
  }

  predicate IsIndexKey(k: string)
  {
    ArrayIndex(k).Some?
  }

  /** The keys for which `p` is `keep`, in order. */
  function Filter(ks: seq<string>, p: string -> bool, keep: bool): (r: seq<string>)
    ensures |r| <= |ks|
  {
    if |ks| == 0 then [] else (if p(ks[0]) == keep then [ks[0]] else []) + Filter(ks[1..], p, keep)
  }

  /** The numeric value of an index key (0 for any other key). */
  function IndexRank(k: string): nat
  {
    if ArrayIndex(k).Some? then ArrayIndex(k).value else 0
  }

  predicate Ascending(ks: seq<string>, rank: string -> nat)
  {
    forall i, j :: 0 <= i < j < |ks| ==> rank(ks[i]) <= rank(ks[j])
  }

  /** `k` placed before the first key of a higher rank. */
  function InsertByRank(k: string, ks: seq<string>, rank: string -> nat): seq<string>
  {
    if |ks| == 0 then [k]
    else if rank(k) <= rank(ks[0]) then [k] + ks
    else [ks[0]] + InsertByRank(k, ks[1..], rank)
  }

  /** The keys in ascending order of rank (insertion sort, stable). */
  function SortByRank(ks: seq<string>, rank: string -> nat): seq<string>
  {
    if |ks| == 0 then [] else InsertByRank(ks[0], SortByRank(ks[1..], rank), rank)
  }

  /**
   * The own keys of a value that is neither `undefined` nor `null`, as
   * `Object.keys` lists them: for an object, the keys that are array indices
   * in ascending numeric order, then the others in insertion order; for an
   * array or a string, its indices; for a number or a boolean, none.
   */
  function OwnKeys(v: Json): seq<string>
  {
    match v
    case Obj(props) => SortByRank(Filter(Keys(props), IsIndexKey, true), IndexRank) + Filter(Keys(props), IsIndexKey, false)
    case Arr(items) => IndexKeys(|items|)
    case Str(s) => IndexKeys(|s|)
    case _ => []
  }

  /** An insertion adds exactly the key, and every key of the result was there or is the key. */
  lemma {:induction false} InsertByRankMembers(k: string, ks: seq<string>, rank: string -> nat)
    ensures multiset(InsertByRank(k, ks, rank)) == multiset(ks) + multiset{k}
    ensures forall x :: x in InsertByRank(k, ks, rank) ==> x == k || x in ks
  {
    if |ks| > 0 && rank(k) > rank(ks[0]) {
      InsertByRankMembers(k, ks[1..], rank);
      assert ks == [ks[0]] + ks[1..];
    }
  }

  /** A key no higher than every key of a sorted list may go in front of it. */
  lemma AscendingCons(x: string, ks: seq<string>, rank: string -> nat)
    requires Ascending(ks, rank)
    requires forall y :: y in ks ==> rank(x) <= rank(y)
    ensures Ascending([x] + ks, rank)
  {
    var r := [x] + ks;
    forall i, j | 0 <= i < j < |r| ensures rank(r[i]) <= rank(r[j]) {
      assert r[j] == ks[j - 1] && ks[j - 1] in ks;
      if i > 0 {
        assert r[i] == ks[i - 1];
      }
    }
  }

  lemma AscendingTail(ks: seq<string>, rank: string -> nat)
    requires |ks| > 0 && Ascending(ks, rank)
    ensures Ascending(ks[1..], rank)
    ensures forall y :: y in ks[1..] ==> rank(ks[0]) <= rank(y)
  {
    var rest := ks[1..];
    forall i, j | 0 <= i < j < |rest| ensures rank(rest[i]) <= rank(rest[j]) {
      assert rest[i] == ks[i + 1] && rest[j] == ks[j + 1];
    }
    forall y | y in rest ensures rank(ks[0]) <= rank(y) {
      var j :| 0 <= j < |rest| && rest[j] == y;
      assert ks[j + 1] == y;
    }
  }

  /** Inserting into a sorted list keeps it sorted. */
  lemma {:induction false} InsertByRankSorted(k: string, ks: seq<string>, rank: string -> nat)
    requires Ascending(ks, rank)
    ensures Ascending(InsertByRank(k, ks, rank), rank)
  {
    if |ks| == 0 {
    } else if rank(k) <= rank(ks[0]) {
      AscendingTail(ks, rank);
      assert forall y :: y in ks ==> y == ks[0] || y in ks[1..];
      AscendingCons(k, ks, rank);
    } else {
      AscendingTail(ks, rank);
      InsertByRankSorted(k, ks[1..], rank);
      InsertByRankMembers(k, ks[1..], rank);
      AscendingCons(ks[0], InsertByRank(k, ks[1..], rank), rank);
    }
  }

  /** The sort orders the keys by rank and keeps each of them as often as it occurs. */
  lemma {:induction false} SortByRankSorted(ks: seq<string>, rank: string -> nat)
    ensures Ascending(SortByRank(ks, rank), rank)
    ensures multiset(SortByRank(ks, rank)) == multiset(ks)
  {
    if |ks| > 0 {
      SortByRankSorted(ks[1..], rank);
      InsertByRankSorted(ks[0], SortByRank(ks[1..], rank), rank);
      InsertByRankMembers(ks[0], SortByRank(ks[1..], rank), rank);
      assert ks == [ks[0]] + ks[1..];
    }
  }

  /** A key is kept exactly when it is one of the keys and `p` is `keep` on it. */
  lemma {:induction false} FilterMembers(ks: seq<string>, p: string -> bool, keep: bool, k: string)
    ensures k in Filter(ks, p, keep) <==> k in ks && p(k) == keep
  {
    if |ks| > 0 {
      FilterMembers(ks[1..], p, keep, k);
      assert ks == [ks[0]] + ks[1..];
    }
  }

  /** Splitting the keys by a predicate loses none and adds none. */
  lemma {:induction false} FilterPartition(ks: seq<string>, p: string -> bool)
    ensures multiset(Filter(ks, p, true)) + multiset(Filter(ks, p, false)) == multiset(ks)
  {
    if |ks| > 0 {
      FilterPartition(ks[1..], p);
      assert ks == [ks[0]] + ks[1..];
    }
  }

  /** Keys on which `p` is all `keep` are their own filter, and the other filter is empty. */
  lemma {:induction false} FilterAll(ks: seq<string>, p: string -> bool, keep: bool)
    requires forall k :: k in ks ==> p(k) == keep
    ensures Filter(ks, p, keep) == ks
    ensures Filter(ks, p, !keep) == []
  {
    if |ks| > 0 {
      assert p(ks[0]) == keep by {
        assert ks[0] in ks;
      }
      assert forall k :: k in ks[1..] ==> k in ks;
      FilterAll(ks[1..], p, keep);
      assert Filter(ks, p, keep) == [ks[0]] + ks[1..];
      assert [ks[0]] + ks[1..] == ks;
    }
  }

  lemma {:induction false} FilterAppend(a: seq<string>, b: seq<string>, p: string -> bool, keep: bool)
    ensures Filter(a + b, p, keep) == Filter(a, p, keep) + Filter(b, p, keep)
  {
    if |a| > 0 {
      assert (a + b)[1..] == a[1..] + b;
      FilterAppend(a[1..], b, p, keep);
    } else {
      assert a + b == b;
    }
  }

  /** Every key of the sorted part satisfies `p`, and every key of the rest does not. */
  lemma SplitParts(ks: seq<string>, p: string -> bool, rank: string -> nat)
    ensures forall k :: k in SortByRank(Filter(ks, p, true), rank) ==> p(k)
    ensures forall k :: k in Filter(ks, p, false) ==> !p(k)
    ensures forall i :: 0 <= i < |Filter(ks, p, false)| ==> !p(Filter(ks, p, false)[i])
  {
    var sorted := SortByRank(Filter(ks, p, true), rank);
    SortByRankSorted(Filter(ks, p, true), rank);
    forall k | k in sorted ensures p(k) {
      assert k in multiset(sorted);
      assert k in multiset(Filter(ks, p, true));
      FilterMembers(ks, p, true, k);
    }
    forall k | k in Filter(ks, p, false) ensures !p(k) {
      FilterMembers(ks, p, false, k);
    }
  }

  /**
   * The keys satisfying `p`, sorted by `rank`, then the others in order: the
   * same keys as often as before, the first kind ahead of the second and
   * ascending, and the second kind in its original order.
   */
  lemma SortedThenRest(ks: seq<string>, p: string -> bool, rank: string -> nat)
    ensures var r := SortByRank(Filter(ks, p, true), rank) + Filter(ks, p, false);
            multiset(r) == multiset(ks) &&
            (forall i, j :: 0 <= i < j < |r| && p(r[j]) ==> p(r[i]) && rank(r[i]) <= rank(r[j])) &&
            Filter(r, p, false) == Filter(ks, p, false)
  {
    var sorted := SortByRank(Filter(ks, p, true), rank);
    var rest := Filter(ks, p, false);
    SortByRankSorted(Filter(ks, p, true), rank);
    FilterPartition(ks, p);
    SplitParts(ks, p, rank);
    FilterAll(sorted, p, true);
    FilterAll(rest, p, false);
    FilterAppend(sorted, rest, p, false);
    var r := sorted + rest;
    forall i, j | 0 <= i < j < |r| && p(r[j]) ensures p(r[i]) && rank(r[i]) <= rank(r[j]) {
      assert r[i] == sorted[i] && r[j] == sorted[j];
      assert r[i] in sorted;
    }
  }

  /**
   * `Object.keys` of an object lists each of its keys exactly as often as the
   * object has it; every index key comes before every other key, and the index
   * keys ascend; the other keys keep their insertion order.
   */
  lemma ObjectKeysOrder(props: seq<(string, Json)>)
    ensures multiset(OwnKeys(Obj(props))) == multiset(Keys(props))
    ensures var ks := OwnKeys(Obj(props));
            forall i, j :: 0 <= i < j < |ks| && IsIndexKey(ks[j]) ==>
              IsIndexKey(ks[i]) && IndexRank(ks[i]) <= IndexRank(ks[j])
    ensures Filter(OwnKeys(Obj(props)), IsIndexKey, false) == Filter(Keys(props), IsIndexKey, false)
  {
    var ks := Keys(props);
    SortedThenRest(ks, IsIndexKey, IndexRank);
    assert OwnKeys(Obj(props)) == SortByRank(Filter(ks, IsIndexKey, true), IndexRank) + Filter(ks, IsIndexKey, false);
  }

  /** The keys of an object are its property names: `Object.keys` lists exactly the names at which `v[key]` is defined. */
  lemma ObjectKeysMembers(props: seq<(string, Json)>, key: string)
    ensures key in OwnKeys(Obj(props)) <==> key in Keys(props)
    ensures key in OwnKeys(Obj(props)) <==> Field(Obj(props), key).Some?
  {
    ObjectKeysOrder(props);
    assert key in OwnKeys(Obj(props)) <==> key in multiset(OwnKeys(Obj(props)));
    assert key in Keys(props) <==> key in multiset(Keys(props));
    LookupKeys(props, key);
  }

  /** `Object.keys` of an array or a string: `"0"` to `"n-1"`, and each names the element or character at that index. */
  lemma IndexedKeys(v: Json)
    requires v.Arr? || v.Str?
    requires (if v.Arr? then |v.items| else |v.s|) < MaxArrayIndex
    ensures |OwnKeys(v)| == (if v.Arr? then |v.items| else |v.s|)
    ensures forall i :: 0 <= i < |OwnKeys(v)| ==> OwnKeys(v)[i] == Decimal(i)
    ensures v.Arr? ==> forall i :: 0 <= i < |v.items| ==> Field(v, OwnKeys(v)[i]) == Some(v.items[i])
    ensures v.Str? ==> forall i :: 0 <= i < |v.s| ==> Field(v, OwnKeys(v)[i]) == Some(Str([v.s[i]]))
  {
    forall i: nat | i < |OwnKeys(v)| ensures ArrayIndex(Decimal(i)) == Some(i) {
      DecimalIsIndex(i);
    }
  }

  lemma ExampleIndices()
    ensures ArrayIndex("b") == None && ArrayIndex("01") == None
    ensures ArrayIndex("10") == Some(10) && ArrayIndex("2") == Some(2)
  {
    assert DigitsValue("10") == 10 by {
      assert "10"[..1] == "1";
    }
  }

  lemma ExampleIndexFilter(ks: seq<string>)
    requires ks == ["b", "10", "2", "01"]
    ensures Filter(ks, IsIndexKey, true) == ["10", "2"]
  {
    ExampleIndices();
    assert ks[1..] == ["10", "2", "01"] && ks[1..][1..] == ["2", "01"] && ks[1..][1..][1..] == ["01"];
    assert Filter(["01"], IsIndexKey, true) == [] by {
      assert ["01"][1..] == [];
    }
    assert Filter(["2", "01"], IsIndexKey, true) == ["2"];
  }

  lemma ExampleNameFilter(ks: seq<string>)
    requires ks == ["b", "10", "2", "01"]
    ensures Filter(ks, IsIndexKey, false) == ["b", "01"]
  {
    ExampleIndices();
    assert ks[1..] == ["10", "2", "01"] && ks[1..][1..] == ["2", "01"] && ks[1..][1..][1..] == ["01"];
    assert Filter(["01"], IsIndexKey, false) == ["01"] by {
      assert ["01"][1..] == [];
    }
    assert Filter(["2", "01"], IsIndexKey, false) == ["01"];
  }

  lemma ExampleSort()
    ensures SortByRank(["10", "2"], IndexRank) == ["2", "10"]
  {
    ExampleIndices();
    assert ["10", "2"][1..] == ["2"];
    assert SortByRank(["2"], IndexRank) == ["2"];
    assert InsertByRank("10", ["2"], IndexRank) == ["2", "10"];
  }

  /** Index keys come first, in numeric order; `"01"` is not an index and keeps its place among the names. */
  lemma ObjectKeysExample(props: seq<(string, Json)>)
    requires props == [("b", Null), ("10", Null), ("2", Null), ("01", Null)]
    ensures OwnKeys(Obj(props)) == ["2", "10", "b", "01"]
  {
    assert Keys(props) == ["b", "10", "2", "01"];
    ExampleIndexFilter(Keys(props));
    ExampleNameFilter(Keys(props));
    ExampleSort();
    assert OwnKeys(Obj(props)) == SortByRank(["10", "2"], IndexRank) + ["b", "01"];
  }

  /** `Object.keys` of a one-element array is `["0"]`, and index `"0"` reads the element. */
  lemma ArrayKeysOf(v: Json)
    ensures OwnKeys(Arr([v])) == ["0"]
    ensures Field(Arr([v]), "0") == Some(v)
  {
    DecimalIsIndex(0);
    assert Decimal(0) == "0";
  }

  // ---------------------------------------------------------------------------
  // mergeDeep

  /**
   * `mergeDeep(target, source)` (with a single source) as a value: when both are
   * plain objects, the source's properties are applied left to right by
   * `MergeStep`; otherwise the target is returned unchanged.
   */
  function Merged(t: Json, s: Json): Json
    decreases s, if s.Obj? then |s.props| + 1 else 0
  {
    if IsObject(t) && IsObject(s) then Obj(MergeFold(t.props, s, |s.props|)) else t
  }

  /** The target's properties after the first `n` properties of the source object `s`. */
  function MergeFold(tp: seq<(string, Json)>, s: Json, n: nat): seq<(string, Json)>
    requires s.Obj? && n <= |s.props|
    decreases s, n
  {
    if n == 0 then tp
    else
      var acc := MergeFold(tp, s, n - 1);
      var (key, value) := s.props[n - 1];
      Set(acc, key, MergedEntry(Lookup(acc, key), value))
  }

  /**
   * The new value of `target[key]` for the source value `v`: a non-object
   * overwrites; an object is merged into the current value, which is first
   * replaced by `{}` when it is falsy or absent.
   */
  function MergedEntry(cur: Option<Json>, v: Json): Json
    decreases v, if v.Obj? then |v.props| + 2 else 0
  {
    if !IsObject(v) then v
    else if cur.None? || !Truthy(cur.value) then Merged(Obj([]), v)
    else Merged(cur.value, v)
  }

  /**
   * The in-place merge of whisk/whisk.js: the target's property list is updated
   * one source property at a time, recursing into object values.
   */
  method MergeDeep(target: Json, source: Json) returns (result: Json)
    ensures result == Merged(target, source)
    decreases source, if source.Obj? then |source.props| + 1 else 0
  {
    if !(IsObject(target) && IsObject(source)) {
      return target;
    }
    var props := target.props;
    var i := 0;
    while i < |source.props|
      invariant 0 <= i <= |source.props|
      invariant props == MergeFold(target.props, source, i)
    {
      var key := source.props[i].0;
      var value := source.props[i].1;
      var updated := value;
      if IsObject(value) {
        var current := Lookup(props, key);
        if current.None? || !Truthy(current.value) {
          current := Some(Obj([]));
        }
        updated := MergeDeep(current.value, value);
      }
      MergeFoldStep(target.props, source, i, updated);
      props := Set(props, key, updated);
      i := i + 1;
    }
    return Obj(props);
  }

  lemma MergeFoldStep(tp: seq<(string, Json)>, s: Json, i: nat, updated: Json)
    requires s.Obj? && i < |s.props|
    requires updated == MergedEntry(Lookup(MergeFold(tp, s, i), s.props[i].0), s.props[i].1)
    ensures MergeFold(tp, s, i + 1) == Set(MergeFold(tp, s, i), s.props[i].0, updated)
  {
  }

  /** If either side is not a plain object, the target comes back unchanged. */
  lemma NonObjectsLeaveTarget(t: Json, s: Json)
    requires !IsObject(t) || !IsObject(s)
    ensures Merged(t, s) == t
  {
  }

  /** Position of the first property named `key` in `props`, or -1. */
  function KeyIndex(props: seq<(string, Json)>, key: string): (i: int)
    ensures -1 <= i < |props|
    ensures i >= 0 ==> props[i].0 == key && forall j :: 0 <= j < i ==> props[j].0 != key
    ensures i < 0 ==> forall j :: 0 <= j < |props| ==> props[j].0 != key
  {
    if |props| == 0 then -1
    else if props[0].0 == key then 0
    else
      var j := KeyIndex(props[1..], key);
      if j < 0 then -1 else j + 1
  }

  /**
   * After the first `n` source properties (keys unique), `key` holds the merged
   * entry of its source value when it is among them, and its old value otherwise.
   */
  lemma MergeFoldLookup(tp: seq<(string, Json)>, s: Json, n: nat, key: string)
    requires s.Obj? && n <= |s.props| && UniqueKeys(s.props)
    ensures var i := KeyIndex(s.props, key);
            Lookup(MergeFold(tp, s, n), key)
              == if 0 <= i < n then Some(MergedEntry(Lookup(tp, key), s.props[i].1)) else Lookup(tp, key)
  {
    var i := KeyIndex(s.props, key);
    if 0 <= i < n {
      MergeFoldUntouched(tp, s, i, key);
      MergeFoldHitAt(tp, s, n, i, key);
    } else {
      MergeFoldUntouched(tp, s, n, key);
    }
  }

  /** A key none of the first `n` source properties names keeps its target value. */
  lemma {:induction false} MergeFoldUntouched(tp: seq<(string, Json)>, s: Json, n: nat, key: string)
    requires s.Obj? && n <= |s.props|
    requires forall j :: 0 <= j < n ==> s.props[j].0 != key
    ensures Lookup(MergeFold(tp, s, n), key) == Lookup(tp, key)
  {
    if n > 0 {
      MergeFoldUntouched(tp, s, n - 1, key);
      MergeFoldMiss(tp, s, n, key);
    }
  }

  /** The key of source property `j`, named by no later one of the first `n`, holds the entry merged at `j`. */
  lemma {:induction false} MergeFoldHitAt(tp: seq<(string, Json)>, s: Json, n: nat, j: nat, key: string)
    requires s.Obj? && j < n <= |s.props| && s.props[j].0 == key
    requires forall m :: j < m < n ==> s.props[m].0 != key
    ensures Lookup(MergeFold(tp, s, n), key) == Some(MergedEntry(Lookup(MergeFold(tp, s, j), key), s.props[j].1))
  {
    if n == j + 1 {
      MergeFoldHit(tp, s, n);
    } else {
      MergeFoldHitAt(tp, s, n - 1, j, key);
      MergeFoldMiss(tp, s, n, key);
    }
  }

  /** The last of the first `n` source properties sets its own key to its merged entry. */
  lemma MergeFoldHit(tp: seq<(string, Json)>, s: Json, n: nat)
    requires s.Obj? && 0 < n <= |s.props|
    ensures Lookup(MergeFold(tp, s, n), s.props[n - 1].0) == Some(MergedEntry(Lookup(MergeFold(tp, s, n - 1), s.props[n - 1].0), s.props[n - 1].1))
  {
    var acc := MergeFold(tp, s, n - 1);
    var k, v := s.props[n - 1].0, s.props[n - 1].1;
    LookupSet(acc, k, MergedEntry(Lookup(acc, k), v), k);
  }

  /** ... and leaves every other key as it was. */
  lemma MergeFoldMiss(tp: seq<(string, Json)>, s: Json, n: nat, key: string)
    requires s.Obj? && 0 < n <= |s.props| && s.props[n - 1].0 != key
    ensures Lookup(MergeFold(tp, s, n), key) == Lookup(MergeFold(tp, s, n - 1), key)
  {
    var acc := MergeFold(tp, s, n - 1);
    var k, v := s.props[n - 1].0, s.props[n - 1].1;
    LookupSet(acc, k, MergedEntry(Lookup(acc, k), v), key);
  }

  /**
   * The merged object, key by key: a source key takes its merged entry (a
   * non-object source value overwrites, an object one merges into the current
   * value), and a key only the target has keeps its value.
   */
  lemma MergedLookup(t: Json, s: Json, key: string)
    requires IsObject(t) && IsObject(s) && UniqueKeys(s.props)
    ensures var i := KeyIndex(s.props, key);
            Lookup(Merged(t, s).props, key)
              == if i >= 0 then Some(MergedEntry(Lookup(t.props, key), s.props[i].1)) else Lookup(t.props, key)
  {
    MergeFoldLookup(t.props, s, |s.props|, key);
  }

  /** A source value that is not a plain object replaces the target's value wholesale. */
  lemma NonObjectOverwrites(t: Json, s: Json, i: nat)
    requires IsObject(t) && IsObject(s) && UniqueKeys(s.props)
    requires i < |s.props| && !IsObject(s.props[i].1)
    ensures Lookup(Merged(t, s).props, s.props[i].0) == Some(s.props[i].1)
  {
    MergedLookup(t, s, s.props[i].0);
    assert KeyIndex(s.props, s.props[i].0) == i;
  }

  /** An object source value is merged into the target's value, or into a fresh `{}` when that is falsy or missing. */
  lemma ObjectMergesRecursively(t: Json, s: Json, i: nat)
    requires IsObject(t) && IsObject(s) && UniqueKeys(s.props)
    requires i < |s.props| && IsObject(s.props[i].1)
    ensures var cur := Lookup(t.props, s.props[i].0);
            Lookup(Merged(t, s).props, s.props[i].0)
              == Some(if cur.Some? && Truthy(cur.value) then Merged(cur.value, s.props[i].1)
                      else Merged(Obj([]), s.props[i].1))
  {
    MergedLookup(t, s, s.props[i].0);
    assert KeyIndex(s.props, s.props[i].0) == i;
  }

  /** A key the source does not have keeps the target's value. */
  lemma TargetOnlyKeysKept(t: Json, s: Json, key: string)
    requires IsObject(t) && IsObject(s) && UniqueKeys(s.props)
    requires key !in Keys(s.props)
    ensures Lookup(Merged(t, s).props, key) == Lookup(t.props, key)
  {
    MergedLookup(t, s, key);
  }

  /** A truthy non-object target value under an object source value stays as it is. */
  lemma TruthyScalarSurvives(t: Json, s: Json, i: nat)
    requires IsObject(t) && IsObject(s) && UniqueKeys(s.props)
    requires i < |s.props| && IsObject(s.props[i].1)
    requires Lookup(t.props, s.props[i].0).Some?
    requires var cur := Lookup(t.props, s.props[i].0).value; Truthy(cur) && !IsObject(cur)
    ensures Lookup(Merged(t, s).props, s.props[i].0) == Lookup(t.props, s.props[i].0)
  {
    ObjectMergesRecursively(t, s, i);
  }

  // ---------------------------------------------------------------------------
  // Idempotence: merging the same source again changes nothing.

  /** Merging an object entry a second time gives the same entry. */
  lemma {:induction false} MergedEntryTwice(cur: Option<Json>, v: Json)
    requires DeepUnique(v)
    ensures MergedEntry(Some(MergedEntry(cur, v)), v) == MergedEntry(cur, v)
    decreases v, 3
  {
    if IsObject(v) {
      if cur.None? || !Truthy(cur.value) {
        MergedTwice(Obj([]), v);
      } else if IsObject(cur.value) {
        MergedTwice(cur.value, v);
      }
    }
  }

  /**
   * Re-running the merge of the same source over its own result changes
   * nothing: vendoring a module twice leaves merged JSON files as they were.
   */
  lemma {:induction false} MergedTwice(t: Json, s: Json)
    requires DeepUnique(s)
    ensures Merged(Merged(t, s), s) == Merged(t, s)
    decreases s, 2
  {
    if IsObject(t) && IsObject(s) {
      var r := MergeFold(t.props, s, |s.props|);
      SecondFoldUnchanged(t.props, s, |s.props|);
    }
  }

  /** Every step of the second pass finds the value the first pass wrote, and leaves it. */
  lemma {:induction false} SecondFoldUnchanged(tp: seq<(string, Json)>, s: Json, n: nat)
    requires s.Obj? && DeepUnique(s) && n <= |s.props|
    ensures MergeFold(MergeFold(tp, s, |s.props|), s, n) == MergeFold(tp, s, |s.props|)
    decreases s, 0, n
  {
    if n > 0 {
      SecondFoldUnchanged(tp, s, n - 1);
      var r := MergeFold(tp, s, |s.props|);
      var (k, v) := s.props[n - 1];
      MergeFoldLookup(tp, s, |s.props|, k);
      assert KeyIndex(s.props, k) == n - 1;
      assert Lookup(r, k) == Some(MergedEntry(Lookup(tp, k), v));
      assert DeepUnique(v);
      MergedEntryTwice(Lookup(tp, k), v);
      SetSame(r, k);
    }
  }
}
