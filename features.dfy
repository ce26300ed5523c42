/**
 * The feature-block loop of `get_details` (main.py:104-115).
 *
 * A product page's data sheet (`<dl class="data-sheet">`) is read as the ordered
 * sequence of its `dt` and `dd` elements. A `dt` names the current feature; a `dd`
 * appends its text to the list of the current feature, creating that list on first
 * use. The current name lives in the variable that already holds the page's `<h1>`
 * title (main.py:101), so a `dd` before any `dt` is filed under the product title.
 *
 * Element texts are given as already extracted; the dictionary is an
 * insertion-ordered Python dict, modelled as its key order plus a map.
 */
module Features {

  /** One child of the data sheet: a `dt` term or a `dd` definition, with its text. */
  datatype Elem = Term(name: string) | Def(value: string)

  /** A Python dict from feature name to the list of its values, keys in insertion order. */
  datatype FeatureTable = FeatureTable(keys: seq<string>, values: map<string, seq<string>>)

  const Empty: FeatureTable := FeatureTable([], map[])

  /** The keys are distinct and are exactly the map's domain. */
  predicate WellKeyed(t: FeatureTable) {
    && (forall i, j :: 0 <= i < j < |t.keys| ==> t.keys[i] != t.keys[j])
    && (forall k :: k in t.values ==> k in t.keys)
    && (forall i :: 0 <= i < |t.keys| ==> t.keys[i] in t.values)
  }

  /** A well-keyed table in which every list holds at least one value. */
  predicate Valid(t: FeatureTable) {
    && WellKeyed(t)
    && forall k :: k in t.values ==> t.values[k] != []
  }

  /** `if name not in d: d[name] = []` then `d[name].append(value)` (main.py:112-114). */
  function Add(t: FeatureTable, name: string, value: string): (r: FeatureTable)
    ensures |t.keys| <= |r.keys| <= |t.keys| + 1 && r.keys[..|t.keys|] == t.keys
    ensures name in r.values && r.values[name] == (if name in t.values then t.values[name] else []) + [value]
    ensures forall k :: k != name ==> (k in r.values <==> k in t.values)
    ensures forall k :: k != name && k in t.values ==> r.values[k] == t.values[k]
  {
    if name in t.values then FeatureTable(t.keys, t.values[name := t.values[name] + [value]])
    else FeatureTable(t.keys + [name], t.values[name := [value]])
  }

  /** The loop's state: the current feature name and the dict built so far. */
  datatype Scan = Scan(current: string, table: FeatureTable)

  /** One iteration of the loop (main.py:108-114). */
  function Step(s: Scan, e: Elem): (r: Scan)
    ensures e.Term? ==> r.current == e.name && r.table == s.table
    ensures e.Def? ==> r.current == s.current && r.table == Add(s.table, s.current, e.value)
  {
    match e
    case Term(name) => Scan(name, s.table)
    case Def(value) => Scan(s.current, Add(s.table, s.current, value))
  }

  /** The loop run over `elems`, starting from the `<h1>` title and an empty dict. */
  function Run(title: string, elems: seq<Elem>): (r: Scan)
    ensures |r.table.keys| <= |DefValues(elems)|
  {
    if elems == [] then Scan(title, Empty)
    else Step(Run(title, elems[..|elems| - 1]), elems[|elems| - 1])
  }

  /** The dict the loop leaves behind. */
  function FeaturesOf(title: string, elems: seq<Elem>): (r: FeatureTable)
    ensures |r.keys| <= |DefValues(elems)|
    ensures elems == [] ==> r == Empty
  {
    Run(title, elems).table
  }

  // ---------------------------------------------------------------------------
  // Reference definitions, stated without the loop's state
  // ---------------------------------------------------------------------------

  /** The name of the last `dt` in `elems`, or the title when there is none. */
  function CurrentName(title: string, elems: seq<Elem>): string {
    if elems == [] then title
    else if elems[|elems| - 1].Term? then elems[|elems| - 1].name
    else CurrentName(title, elems[..|elems| - 1])
  }

  /** The texts of the `dd`s whose preceding `dt` (or, lacking one, the title) is `k`, in document order. */
  function ValuesFor(title: string, elems: seq<Elem>, k: string): seq<string> {
    if elems == [] then []
    else
      var prefix := elems[..|elems| - 1];
      var e := elems[|elems| - 1];
      ValuesFor(title, prefix, k) + (if e.Def? && CurrentName(title, prefix) == k then [e.value] else [])
  }

  /** The texts of all `dd`s, in document order. */
  function DefValues(elems: seq<Elem>): seq<string> {
    if elems == [] then []
    else
      var e := elems[|elems| - 1];
      DefValues(elems[..|elems| - 1]) + (if e.Def? then [e.value] else [])
  }

  /** The lists of `keys`, concatenated in key order. */
  function Flatten(keys: seq<string>, values: map<string, seq<string>>): seq<string>
    requires forall i :: 0 <= i < |keys| ==> keys[i] in values
  {
    if keys == [] then []
    else Flatten(keys[..|keys| - 1], values) + values[keys[|keys| - 1]]
  }

  /** All the values of a table, list after list in key order. */
  function AllValues(t: FeatureTable): seq<string>
    requires WellKeyed(t)
  {
    Flatten(t.keys, t.values)
  }

  // ---------------------------------------------------------------------------
  // Properties of the loop
  // ---------------------------------------------------------------------------

  /** Adding a value keeps a table valid, and the new value is the last of its list. */
  lemma AddValid(t: FeatureTable, name: string, value: string)
    requires Valid(t)
    ensures Valid(Add(t, name, value))
    ensures name in Add(t, name, value).values
    ensures Add(t, name, value).values[name] == (if name in t.values then t.values[name] else []) + [value]
  {
  }

  /** The loop's current name is the last `dt` seen, or the title. */
  lemma {:induction false} RunCurrent(title: string, elems: seq<Elem>)
    ensures Run(title, elems).current == CurrentName(title, elems)
  {
    if elems != [] {
      RunCurrent(title, elems[..|elems| - 1]);
    }
  }

  /** The dict is always valid: distinct keys, and no list is empty. */
  lemma {:induction false} FeaturesValid(title: string, elems: seq<Elem>)
    ensures Valid(FeaturesOf(title, elems))
  {
    if elems != [] {
      var s := Run(title, elems[..|elems| - 1]);
      FeaturesValid(title, elems[..|elems| - 1]);
      if elems[|elems| - 1].Def? {
        AddValid(s.table, s.current, elems[|elems| - 1].value);
      }
    }
  }

  /**
   * The dict holds a key exactly when some `dd` was filed under it, and the list
   * of a key is the texts of the `dd`s filed under it, in document order.
   */
  lemma {:induction false} FeaturesAgree(title: string, elems: seq<Elem>, k: string)
    ensures k in FeaturesOf(title, elems).values <==> ValuesFor(title, elems, k) != []
    ensures k in FeaturesOf(title, elems).values ==> FeaturesOf(title, elems).values[k] == ValuesFor(title, elems, k)
  {
    if elems != [] {
      var prefix := elems[..|elems| - 1];
      FeaturesAgree(title, prefix, k);
      RunCurrent(title, prefix);
    }
  }

  /** Flattening is unaffected by a change to a key that is not listed. */
  lemma {:induction false} FlattenOther(keys: seq<string>, values: map<string, seq<string>>, name: string, vs: seq<string>)
    requires forall i :: 0 <= i < |keys| ==> keys[i] in values
    requires name !in keys
    ensures Flatten(keys, values[name := vs]) == Flatten(keys, values)
  {
    if keys != [] {
      FlattenOther(keys[..|keys| - 1], values, name, vs);
    }
  }

  /** Appending to the list of a key listed once adds that one value to the flattening. */
  lemma {:induction false} FlattenAppend(keys: seq<string>, values: map<string, seq<string>>, name: string, value: string)
    requires forall i :: 0 <= i < |keys| ==> keys[i] in values
    requires forall i, j :: 0 <= i < j < |keys| ==> keys[i] != keys[j]
    requires name in keys
    ensures multiset(Flatten(keys, values[name := values[name] + [value]])) == multiset(Flatten(keys, values)) + multiset{value}
  {
    var prefix := keys[..|keys| - 1];
    var last := keys[|keys| - 1];
    var values' := values[name := values[name] + [value]];
    if last == name {
      assert name !in prefix;
      FlattenOther(prefix, values, name, values[name] + [value]);
    } else {
      assert name in prefix;
      FlattenAppend(prefix, values, name, value);
    }
  }

  /** One `dd` adds exactly its own text to the values of the table. */
  lemma AddFlatten(t: FeatureTable, name: string, value: string)
    requires Valid(t)
    ensures WellKeyed(Add(t, name, value))
    ensures multiset(AllValues(Add(t, name, value))) == multiset(AllValues(t)) + multiset{value}
  {
    AddValid(t, name, value);
    if name in t.values {
      FlattenAppend(t.keys, t.values, name, value);
    } else {
      var keys' := t.keys + [name];
      assert keys'[..|keys'| - 1] == t.keys;
      FlattenOther(t.keys, t.values, name, [value]);
    }
  }

  /** Concatenating all lists of the dict gives every `dd` text exactly once. */
  lemma {:induction false} FeaturesFlatten(title: string, elems: seq<Elem>)
    ensures WellKeyed(FeaturesOf(title, elems))
    ensures multiset(AllValues(FeaturesOf(title, elems))) == multiset(DefValues(elems))
  {
    FeaturesValid(title, elems);
    if elems != [] {
      var prefix := elems[..|elems| - 1];
      var s := Run(title, prefix);
      FeaturesFlatten(title, prefix);
      FeaturesValid(title, prefix);
      if elems[|elems| - 1].Def? {
        AddFlatten(s.table, s.current, elems[|elems| - 1].value);
      }
    }
  }

  /** Each `dd` text is in the list of the name current at its position. */
  lemma {:induction false} DefFiled(title: string, elems: seq<Elem>, j: nat)
    requires j < |elems| && elems[j].Def?
    ensures CurrentName(title, elems[..j]) in FeaturesOf(title, elems).values
    ensures elems[j].value in FeaturesOf(title, elems).values[CurrentName(title, elems[..j])]
  {
    var k := CurrentName(title, elems[..j]);
    ValuesForContains(title, elems, j);
    FeaturesAgree(title, elems, k);
  }

  lemma {:induction false} ValuesForContains(title: string, elems: seq<Elem>, j: nat)
    requires j < |elems| && elems[j].Def?
    ensures elems[j].value in ValuesFor(title, elems, CurrentName(title, elems[..j]))
  {
    var prefix := elems[..|elems| - 1];
    if j < |elems| - 1 {
      assert prefix[..j] == elems[..j];
      ValuesForContains(title, prefix, j);
    } else {
      assert prefix == elems[..j];
    }
  }

  /** Without a `dt` before it, a `dd` is filed under the product's `<h1>` title. */
  lemma OrphanDefUnderTitle(title: string, elems: seq<Elem>, j: nat)
    requires j < |elems| && elems[j].Def?
    requires forall i :: 0 <= i < j ==> elems[i].Def?
    ensures title in FeaturesOf(title, elems).values
    ensures elems[j].value in FeaturesOf(title, elems).values[title]
  {
    NoTermKeepsTitle(title, elems[..j]);
    DefFiled(title, elems, j);
  }

  lemma {:induction false} NoTermKeepsTitle(title: string, elems: seq<Elem>)
    requires forall i :: 0 <= i < |elems| ==> elems[i].Def?
    ensures CurrentName(title, elems) == title
  {
    if elems != [] {
      NoTermKeepsTitle(title, elems[..|elems| - 1]);
    }
  }

  /** A key exists only because some `dd` was filed under it: a `dt` alone creates nothing. */
  lemma KeyHasDef(title: string, elems: seq<Elem>, k: string)
    requires k in FeaturesOf(title, elems).values
    ensures exists j :: 0 <= j < |elems| && elems[j].Def? && CurrentName(title, elems[..j]) == k
  {
    FeaturesAgree(title, elems, k);
    ValuesForFrom(title, elems, k);
  }

  lemma {:induction false} ValuesForFrom(title: string, elems: seq<Elem>, k: string)
    requires ValuesFor(title, elems, k) != []
    ensures exists j :: 0 <= j < |elems| && elems[j].Def? && CurrentName(title, elems[..j]) == k
  {
    var prefix := elems[..|elems| - 1];
    var e := elems[|elems| - 1];
    if e.Def? && CurrentName(title, prefix) == k {
      assert elems[..|elems| - 1] == prefix;
    } else {
      ValuesForFrom(title, prefix, k);
      var j :| 0 <= j < |prefix| && prefix[j].Def? && CurrentName(title, prefix[..j]) == k;
      assert elems[..j] == prefix[..j];
    }
  }

  /** A `dt` followed by two `dd`s gives a two-valued feature; keys keep first-use order. */
  lemma MultiValuedExample(title: string)
    ensures FeaturesOf(title, [Term("Color"), Def("Red"), Def("Blue"), Term("Level"), Def("Beginner")])
         == FeatureTable(["Color", "Level"], map["Color" := ["Red", "Blue"], "Level" := ["Beginner"]])
  {
    var elems := [Term("Color"), Def("Red"), Def("Blue"), Term("Level"), Def("Beginner")];
    assert elems[..1][..0] == [];
    assert elems[..2][..1] == elems[..1];
    assert elems[..3][..2] == elems[..2];
    assert elems[..4][..3] == elems[..3];
    assert elems[..4] == elems[..|elems| - 1];
    assert ["Red"] + ["Blue"] == ["Red", "Blue"];
    assert Run(title, elems[..1]) == Scan("Color", Empty);
    assert Run(title, elems[..2]) == Scan("Color", FeatureTable(["Color"], map["Color" := ["Red"]]));
    assert Run(title, elems[..3]) == Scan("Color", FeatureTable(["Color"], map["Color" := ["Red", "Blue"]]));
    assert Run(title, elems[..4]) == Scan("Level", FeatureTable(["Color"], map["Color" := ["Red", "Blue"]]));
  }

  /**
   * The loop of main.py:105-114, carrying the current name in the variable that
   * held the `<h1>` title.
   */
  method CollectFeatures(title: string, elems: seq<Elem>) returns (data: FeatureTable)
    ensures data == FeaturesOf(title, elems)
  {
    var current := title;
    data := Empty;
    for i := 0 to |elems|
      invariant Run(title, elems[..i]) == Scan(current, data)
    {
      assert elems[..i + 1][..i] == elems[..i];
      match elems[i]
      case Term(name) =>
        current := name;
      case Def(value) =>
        ghost var expected := Add(data, current, value);
        if current !in data.values {
          data := FeatureTable(data.keys + [current], data.values[current := []]);
          assert data.values[current] + [value] == [value];
        }
        data := FeatureTable(data.keys, data.values[current := data.values[current] + [value]]);
        assert data.values == expected.values;
    }
    assert elems[..|elems|] == elems;
  }
}
