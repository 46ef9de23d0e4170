/** The structural difference of two JSON values as pointers with both values. */
module JsonDiff {
  import opened Options
  import opened JsonPointers

  datatype Json =
    | Null
    | Bool(b: bool)
    | Number(n: real)
    | Str(s: string)
    | Obj(fields: map<string, Json>)
    | Arr(items: seq<Json>)

  /** A value, or the marker for one that is not there. */
  type Slot = Option<Json>

  datatype Difference = Difference(path: seq<string>, left: Slot, right: Slot)

  function Field(fields: map<string, Json>, key: string): Slot { if key in fields then Some(fields[key]) else None }

  function Item(items: seq<Json>, i: nat): Slot { if i < |items| then Some(items[i]) else None }

  // ------------------------------------------------------------- sorted keys

  predicate Before(a: string, b: string) {
    b != [] && (a == [] || a[0] < b[0] || (a[0] == b[0] && Before(a[1..], b[1..])))
  }

  ghost predicate Least(key: string, keys: set<string>) {
    key in keys && forall other :: other in keys && other != key ==> Before(key, other)
  }

  lemma {:induction false} BeforeTotal(a: string, b: string)
    ensures a == b || Before(a, b) || Before(b, a)
  {
    if a != [] && b != [] && a[0] == b[0] {
      BeforeTotal(a[1..], b[1..]);
      assert a == [a[0]] + a[1..] && b == [b[0]] + b[1..];
    }
  }

  lemma {:induction false} BeforeTransitive(a: string, b: string, c: string)
    requires Before(a, b) && Before(b, c)
    ensures Before(a, c)
  {
    if a != [] && a[0] == b[0] && b[0] == c[0] { BeforeTransitive(a[1..], b[1..], c[1..]); }
  }

  lemma {:induction false} LeastExists(keys: set<string>)
    requires keys != {}
    ensures exists key :: Least(key, keys)
    decreases |keys|
  {
    var key :| key in keys;
    var rest := keys - {key};
    if rest == {} {
      assert keys == {key};
      assert Least(key, keys);
    } else {
      LeastExists(rest);
      var least :| Least(least, rest);
      BeforeTotal(key, least);
      var first := if Before(key, least) then key else least;
      forall other | other in keys && other != first
        ensures Before(first, other)
      {
        if first == key && other != least { BeforeTransitive(key, least, other); }
      }
      assert Least(first, keys);
    }
  }

  ghost function SortedKeys(keys: set<string>): seq<string>
    decreases |keys|
  {
    if keys == {} then [] else
      LeastExists(keys);
      var key :| Least(key, keys);
      [key] + SortedKeys(keys - {key})
  }

  lemma SortedKeysCons(keys: set<string>)
    requires keys != {}
    ensures SortedKeys(keys) != [] && Least(SortedKeys(keys)[0], keys)
    ensures SortedKeys(keys) == [SortedKeys(keys)[0]] + SortedKeys(keys - {SortedKeys(keys)[0]})
  {
    LeastExists(keys);
  }

  lemma {:induction false} SortedKeysMembers(keys: set<string>)
    ensures forall key :: key in SortedKeys(keys) <==> key in keys
    decreases |keys|
  {
    if keys != {} {
      SortedKeysCons(keys);
      var key := SortedKeys(keys)[0];
      assert key in keys;
      SortedKeysMembers(keys - {key});
      hide SortedKeys;
    }
  }

  /** The keys come each once and in ascending order. */
  lemma {:induction false} SortedKeysAre(keys: set<string>)
    ensures forall key :: key in SortedKeys(keys) <==> key in keys
    ensures forall i, k :: 0 <= i < k < |SortedKeys(keys)| ==>
      SortedKeys(keys)[i] != SortedKeys(keys)[k] && Before(SortedKeys(keys)[i], SortedKeys(keys)[k])
    decreases |keys|
  {
    assert keys == {} ==> SortedKeys(keys) == [];
    hide SortedKeys, Before;
    SortedKeysMembers(keys);
    if keys != {} {
      SortedKeysCons(keys);
      var sorted, key, rest := SortedKeys(keys), SortedKeys(keys)[0], SortedKeys(keys - {SortedKeys(keys)[0]});
      SortedKeysAre(keys - {key});
      forall i, k | 0 <= i < k < |sorted|
        ensures sorted[i] != sorted[k] && Before(sorted[i], sorted[k])
      {
        assert sorted[k] == rest[k - 1];
        if i == 0 { assert rest[k - 1] in keys - {key}; } else { assert sorted[i] == rest[i - 1]; }
      }
    }
  }

  // ------------------------------------------------------------- the difference

  function Under(token: string, ds: seq<Difference>): seq<Difference> {
    if ds == [] then []
    else Under(token, ds[..|ds| - 1]) + [ds[|ds| - 1].(path := [token] + ds[|ds| - 1].path)]
  }

  ghost function Diff(left: Json, right: Json): seq<Difference>
    decreases left, 2, 0
  {
    if left.Obj? && right.Obj? then DiffFields(left, right, SortedKeys(left.fields.Keys + right.fields.Keys))
    else if left.Arr? && right.Arr? then
      DiffItems(left, right, if |left.items| < |right.items| then |right.items| else |left.items|)
    else if left == right then [] else [Difference([], Some(left), Some(right))]
  }

  ghost function DiffFields(left: Json, right: Json, keys: seq<string>): seq<Difference>
    requires left.Obj? && right.Obj?
    decreases left, 1, |keys|
  {
    if keys == [] then []
    else
      var key := keys[|keys| - 1];
      DiffFields(left, right, keys[..|keys| - 1]) + Under(Escape(key),
        if key in left.fields && key in right.fields then Diff(left.fields[key], right.fields[key])
        else Apart(Field(left.fields, key), Field(right.fields, key)))
  }

  ghost function DiffItems(left: Json, right: Json, n: nat): seq<Difference>
    requires left.Arr? && right.Arr?
    decreases left, 1, n
  {
    if n == 0 then []
    else
      DiffItems(left, right, n - 1) + Under(Digits(n - 1),
        if n - 1 < |left.items| && n - 1 < |right.items| then Diff(left.items[n - 1], right.items[n - 1])
        else Apart(Item(left.items, n - 1), Item(right.items, n - 1)))
  }

  /** The comparison where at least one side is missing. */
  function Apart(left: Slot, right: Slot): seq<Difference> {
    if left == right then [] else [Difference([], left, right)]
  }

  ghost function DiffSlots(left: Slot, right: Slot): seq<Difference> {
    if left.Some? && right.Some? then Diff(left.value, right.value) else Apart(left, right)
  }

  lemma UnderAt(token: string, ds: seq<Difference>)
    ensures |Under(token, ds)| == |ds|
    ensures forall i {:trigger Under(token, ds)[i]} {:trigger ds[i]} :: 0 <= i < |ds| ==>
      Under(token, ds)[i] == ds[i].(path := [token] + ds[i].path)
  {
    if ds != [] { UnderAt(token, ds[..|ds| - 1]); }
  }

  // ------------------------------------------------------------- empty exactly when equal

  lemma {:induction false} EmptyIffEqual(left: Json, right: Json)
    ensures Diff(left, right) == [] <==> left == right
    decreases left, 2, 0
  {
    if left.Obj? && right.Obj? {
      var keys := SortedKeys(left.fields.Keys + right.fields.Keys);
      SortedKeysAre(left.fields.Keys + right.fields.Keys);
      FieldsEqual(left, right, keys);
      if Diff(left, right) == [] {
        forall key | key in left.fields.Keys + right.fields.Keys
          ensures Field(left.fields, key) == Field(right.fields, key)
        {
          assert key in keys;
        }
        SameFields(left.fields, right.fields);
      }
    } else if left.Arr? && right.Arr? {
      var n := if |left.items| < |right.items| then |right.items| else |left.items|;
      ItemsEqual(left, right, n);
      if Diff(left, right) == [] {
        SameItems(left.items, right.items, n);
      }
    }
  }

  predicate SameItem(a: seq<Json>, b: seq<Json>, i: nat) { Item(a, i) == Item(b, i) }

  lemma SameItems(a: seq<Json>, b: seq<Json>, n: nat)
    requires |a| <= n && |b| <= n && (|a| == n || |b| == n)
    requires SameUpTo(a, b, n)
    ensures a == b
  {
    assert n > 0 ==> SameItem(a, b, n - 1);
    forall i: nat | i < |a|
      ensures a[i] == b[i]
    {
      assert SameItem(a, b, i);
    }
  }

  lemma SameFields(a: map<string, Json>, b: map<string, Json>)
    requires forall key :: key in a.Keys + b.Keys ==> Field(a, key) == Field(b, key)
    ensures a == b
  {
    forall key | key in a || key in b
      ensures key in a && key in b && a[key] == b[key]
    {
      assert key in a.Keys + b.Keys;
      assert Field(a, key) == Field(b, key);
    }
  }

  lemma FieldsSnoc(left: Json, right: Json, keys: seq<string>)
    requires left.Obj? && right.Obj? && keys != []
    ensures DiffFields(left, right, keys) == DiffFields(left, right, keys[..|keys| - 1])
      + Under(Escape(keys[|keys| - 1]),
              DiffSlots(Field(left.fields, keys[|keys| - 1]), Field(right.fields, keys[|keys| - 1])))
  {
  }

  lemma ItemsSnoc(left: Json, right: Json, n: nat)
    requires left.Arr? && right.Arr? && n > 0
    ensures DiffItems(left, right, n)
      == DiffItems(left, right, n - 1)
        + Under(Digits(n - 1), DiffSlots(Item(left.items, n - 1), Item(right.items, n - 1)))
  {
  }

  lemma UnderEmpty(token: string, ds: seq<Difference>)
    ensures Under(token, ds) == [] <==> ds == []
  {
  }

  lemma {:induction false} FieldsEqual(left: Json, right: Json, keys: seq<string>)
    requires left.Obj? && right.Obj?
    ensures DiffFields(left, right, keys) == [] <==>
      forall key :: key in keys ==> Field(left.fields, key) == Field(right.fields, key)
    decreases left, 1, |keys|
  {
    hide Diff, Under;
    if keys != [] {
      var front, key := keys[..|keys| - 1], keys[|keys| - 1];
      FieldsEqual(left, right, front);
      assert keys == front + [key];
      FieldsSnoc(left, right, keys);
      if key in left.fields && key in right.fields { EmptyIffEqual(left.fields[key], right.fields[key]); }
      UnderEmpty(Escape(key), DiffSlots(Field(left.fields, key), Field(right.fields, key)));
    }
  }

  ghost predicate SameUpTo(a: seq<Json>, b: seq<Json>, n: nat) {
    forall i: nat {:trigger SameItem(a, b, i)} :: i < n ==> SameItem(a, b, i)
  }

  lemma SameUpToSnoc(a: seq<Json>, b: seq<Json>, n: nat)
    requires n > 0
    ensures SameUpTo(a, b, n) <==> SameUpTo(a, b, n - 1) && SameItem(a, b, n - 1)
  {
    hide SameItem;
  }

  lemma {:induction false} ItemsEqual(left: Json, right: Json, n: nat)
    requires left.Arr? && right.Arr?
    ensures DiffItems(left, right, n) == [] <==> SameUpTo(left.items, right.items, n)
    decreases left, 1, n
  {
    hide Diff, Under, Digits, SameUpTo, DiffItems, SameItem, DiffSlots;
    if n == 0 {
      NothingSame(left, right);
    } else {
      ItemsEqual(left, right, n - 1);
      ItemsSnoc(left, right, n);
      SameUpToSnoc(left.items, right.items, n);
      if n - 1 < |left.items| && n - 1 < |right.items| { EmptyIffEqual(left.items[n - 1], right.items[n - 1]); }
      SlotEmpty(left, right, n - 1);
      UnderEmpty(Digits(n - 1), DiffSlots(Item(left.items, n - 1), Item(right.items, n - 1)));
    }
  }

  lemma SlotEmpty(left: Json, right: Json, i: nat)
    requires left.Arr? && right.Arr?
    requires i < |left.items| && i < |right.items| ==>
      (Diff(left.items[i], right.items[i]) == [] <==> left.items[i] == right.items[i])
    ensures DiffSlots(Item(left.items, i), Item(right.items, i)) == [] <==> SameItem(left.items, right.items, i)
  {
    hide Diff;
  }

  lemma NothingSame(left: Json, right: Json)
    requires left.Arr? && right.Arr?
    ensures SameUpTo(left.items, right.items, 0) && DiffItems(left, right, 0) == []
  {
  }
}
