/** How fine the reported differences are, and in what order they come. */
module JsonDiffOrder {
  import opened Options
  import opened JsonPointers
  import opened JsonDiff
  import opened JsonDiffProperties

  // ------------------------------------------------------------- no coarser than needed

  /** The two sides are not both objects and not both arrays, whose parts would be compared. */
  predicate Unmixed(d: Difference) {
    d.left.Some? && d.right.Some? ==>
      !(d.left.value.Obj? && d.right.value.Obj?) && !(d.left.value.Arr? && d.right.value.Arr?)
  }

  ghost predicate AllFine(ds: seq<Difference>) { forall d {:trigger Unmixed(d)} :: d in ds ==> Unmixed(d) }

  lemma UnderFine(token: string, ds: seq<Difference>)
    requires AllFine(ds)
    ensures AllFine(Under(token, ds))
  {
    UnderAt(token, ds);
    forall d {:trigger Unmixed(d)} | d in Under(token, ds)
      ensures Unmixed(d)
    {
      var i :| 0 <= i < |Under(token, ds)| && Under(token, ds)[i] == d;
      assert Unmixed(ds[i]);
    }
  }

  /** A difference inside two objects or two arrays is reported where it is, not for the whole. */
  lemma {:induction false} DiffsAreFine(left: Json, right: Json)
    ensures AllFine(Diff(left, right))
    decreases left, 2, 0
  {
    if left.Obj? && right.Obj? {
      FieldsFine(left, right, SortedKeys(left.fields.Keys + right.fields.Keys));
    } else if left.Arr? && right.Arr? {
      ItemsFine(left, right, if |left.items| < |right.items| then |right.items| else |left.items|);
    }
  }

  lemma ApartFine(left: Slot, right: Slot)
    requires left.None? || right.None?
    ensures AllFine(Apart(left, right))
  {
  }

  lemma {:induction false} FieldsFine(left: Json, right: Json, keys: seq<string>)
    requires left.Obj? && right.Obj?
    ensures AllFine(DiffFields(left, right, keys))
    decreases left, 1, |keys|
  {
    hide Diff, Under, Escape, Unmixed;
    if keys != [] {
      var key := keys[|keys| - 1];
      var l, r := Field(left.fields, key), Field(right.fields, key);
      FieldsFine(left, right, keys[..|keys| - 1]);
      FieldsSnoc(left, right, keys);
      if key in left.fields && key in right.fields {
        DiffsAreFine(left.fields[key], right.fields[key]);
      } else {
        ApartFine(l, r);
      }
      UnderFine(Escape(key), DiffSlots(l, r));
    }
  }

  lemma {:induction false} ItemsFine(left: Json, right: Json, n: nat)
    requires left.Arr? && right.Arr?
    ensures AllFine(DiffItems(left, right, n))
    decreases left, 1, n
  {
    hide Diff, Under, Digits, Unmixed;
    if n > 0 {
      var l, r := Item(left.items, n - 1), Item(right.items, n - 1);
      ItemsFine(left, right, n - 1);
      ItemsSnoc(left, right, n);
      if n - 1 < |left.items| && n - 1 < |right.items| {
        DiffsAreFine(left.items[n - 1], right.items[n - 1]);
      } else {
        ApartFine(l, r);
      }
      UnderFine(Digits(n - 1), DiffSlots(l, r));
    }
  }

  // ------------------------------------------------------------- the order

  /** One path comes before another: where they part, by the name of the field, or by the
    * position in the array. */
  predicate PathLess(v: Slot, p: seq<string>, q: seq<string>)
    decreases |p|
  {
    && p != [] && q != []
    && if p[0] == q[0] then PathLess(Child(v, p[0]), p[1..], q[1..])
       else if v.Some? && v.value.Obj? then Before(Unescape(p[0]), Unescape(q[0]))
       else Value(p[0]) < Value(q[0])
  }

  ghost predicate Ascends(v: Slot, ds: seq<Difference>) {
    forall i, k {:trigger ds[i], ds[k]} :: 0 <= i < k < |ds| ==> PathLess(v, ds[i].path, ds[k].path)
  }

  /** Every path of `ds` begins with a token that comes before `token`. */
  ghost predicate AllBefore(v: Slot, ds: seq<Difference>, token: string) {
    forall i {:trigger ds[i]} :: 0 <= i < |ds| ==> FirstBefore(v, ds[i].path, token)
  }

  predicate FirstBefore(v: Slot, p: seq<string>, token: string) {
    && p != [] && p[0] != token
    && if v.Some? && v.value.Obj? then Before(Unescape(p[0]), Unescape(token)) else Value(p[0]) < Value(token)
  }

  lemma UnderAscends(v: Slot, before: seq<Difference>, token: string, ds: seq<Difference>)
    requires Ascends(v, before) && AllBefore(v, before, token) && Ascends(Child(v, token), ds)
    ensures Ascends(v, before + Under(token, ds))
  {
    hide Child;
    UnderAt(token, ds);
    var all, under := before + Under(token, ds), Under(token, ds);
    forall i, k {:trigger all[i], all[k]} | 0 <= i < k < |all|
      ensures PathLess(v, all[i].path, all[k].path)
    {
      if k < |before| {
        assert PathLess(v, before[i].path, before[k].path);
      } else {
        var b := k - |before|;
        assert all[k] == under[b] && under[b].path == [token] + ds[b].path;
        if i < |before| {
          assert FirstBefore(v, before[i].path, token);
        } else {
          var a := i - |before|;
          assert all[i] == under[a] && under[a].path == [token] + ds[a].path;
          assert PathLess(Child(v, token), ds[a].path, ds[b].path);
          assert under[a].path[1..] == ds[a].path && under[b].path[1..] == ds[b].path;
        }
      }
    }
  }

  ghost predicate KeysAscend(keys: seq<string>) {
    forall i, k :: 0 <= i < k < |keys| ==> Before(keys[i], keys[k]) && keys[i] != keys[k]
  }

  /** The differences come in the order of their paths. */
  lemma {:induction false} DiffAscends(left: Json, right: Json)
    ensures Ascends(Some(left), Diff(left, right)) && Ascends(Some(right), Diff(left, right))
    decreases left, 2, 0
  {
    if left.Obj? && right.Obj? {
      SortedKeysAre(left.fields.Keys + right.fields.Keys);
      FieldsAscend(left, right, SortedKeys(left.fields.Keys + right.fields.Keys));
    } else if left.Arr? && right.Arr? {
      ItemsAscend(left, right, if |left.items| < |right.items| then |right.items| else |left.items|);
    }
  }

  lemma OneAscends(v: Slot, left: Slot, right: Slot)
    ensures Ascends(v, Apart(left, right))
  {
  }

  lemma SlotsAscend(left: Slot, right: Slot)
    requires left.Some? && right.Some? ==>
      Ascends(left, Diff(left.value, right.value)) && Ascends(right, Diff(left.value, right.value))
    ensures Ascends(left, DiffSlots(left, right)) && Ascends(right, DiffSlots(left, right))
  {
    OneAscends(left, left, right);
    OneAscends(right, left, right);
  }

  ghost predicate StartsWith(p: seq<string>, keys: seq<string>) {
    p != [] && exists k {:trigger keys[k]} :: 0 <= k < |keys| && p[0] == Escape(keys[k])
  }

  /** The paths begin with one of the keys. */
  ghost predicate StartIn(ds: seq<Difference>, keys: seq<string>) {
    forall i {:trigger ds[i]} :: 0 <= i < |ds| ==> StartsWith(ds[i].path, keys)
  }

  lemma NoneAscend(v: Slot, keys: seq<string>)
    ensures Ascends(v, []) && StartIn([], keys)
  {
  }

  lemma KeysFront(keys: seq<string>)
    requires KeysAscend(keys) && keys != []
    ensures KeysAscend(keys[..|keys| - 1]) && keys == keys[..|keys| - 1] + [keys[|keys| - 1]]
  {
  }

  lemma {:induction false} FieldsAscend(left: Json, right: Json, keys: seq<string>)
    requires left.Obj? && right.Obj? && KeysAscend(keys)
    ensures var ds := DiffFields(left, right, keys);
      Ascends(Some(left), ds) && Ascends(Some(right), ds) && StartIn(ds, keys)
    decreases left, 1, |keys|
  {
    hide Diff, Under, Escape, Ascends, DiffSlots, AllBefore, StartIn, KeysAscend, Child;
    if keys == [] {
      NoneAscend(Some(left), keys);
      NoneAscend(Some(right), keys);
    } else {
      var front, key := keys[..|keys| - 1], keys[|keys| - 1];
      var l, r, before := Field(left.fields, key), Field(right.fields, key), DiffFields(left, right, front);
      KeysFront(keys);
      FieldsAscend(left, right, front);
      FieldsSnoc(left, right, keys);
      if key in left.fields && key in right.fields { DiffAscends(left.fields[key], right.fields[key]); }
      hide DiffFields;
      SlotsAscend(l, r);
      ChildField(left, key);
      ChildField(right, key);
      KeysBefore(Some(left), before, front, key);
      KeysBefore(Some(right), before, front, key);
      UnderAscends(Some(left), before, Escape(key), DiffSlots(l, r));
      UnderAscends(Some(right), before, Escape(key), DiffSlots(l, r));
      StartSnoc(before, front, key, DiffSlots(l, r));
    }
  }

  lemma KeysBefore(v: Slot, ds: seq<Difference>, front: seq<string>, key: string)
    requires v.Some? && v.value.Obj? && StartIn(ds, front) && KeysAscend(front + [key])
    ensures AllBefore(v, ds, Escape(key))
  {
    hide Escape, Before;
    EscapeRoundTrip(key);
    forall i {:trigger ds[i]} | 0 <= i < |ds|
      ensures FirstBefore(v, ds[i].path, Escape(key))
    {
      assert StartsWith(ds[i].path, front);
      var k :| 0 <= k < |front| && ds[i].path[0] == Escape(front[k]);
      EscapeRoundTrip(front[k]);
      assert (front + [key])[k] == front[k] && (front + [key])[|front|] == key;
    }
  }

  lemma StartSnoc(before: seq<Difference>, front: seq<string>, key: string, ds: seq<Difference>)
    requires StartIn(before, front)
    ensures StartIn(before + Under(Escape(key), ds), front + [key])
  {
    hide Escape, Under;
    UnderAt(Escape(key), ds);
    var all, keys := before + Under(Escape(key), ds), front + [key];
    assert keys[|front|] == key;
    forall i {:trigger all[i]} | 0 <= i < |all|
      ensures StartsWith(all[i].path, keys)
    {
      if i < |before| {
        assert StartsWith(before[i].path, front);
        var k :| 0 <= k < |front| && before[i].path[0] == Escape(front[k]);
        assert keys[k] == front[k];
      } else {
        assert all[i] == Under(Escape(key), ds)[i - |before|] && all[i].path[0] == Escape(key);
      }
    }
  }

  lemma {:induction false} ItemsAscend(left: Json, right: Json, n: nat)
    requires left.Arr? && right.Arr?
    ensures var ds := DiffItems(left, right, n);
      Ascends(Some(left), ds) && Ascends(Some(right), ds)
      && forall m :: m >= n ==> AllBefore(Some(left), ds, Digits(m)) && AllBefore(Some(right), ds, Digits(m))
    decreases left, 1, n
  {
    if n == 0 {
      hide Diff;
    } else {
      var l, r, before := Item(left.items, n - 1), Item(right.items, n - 1), DiffItems(left, right, n - 1);
      ItemsAscend(left, right, n - 1);
      ItemsSnoc(left, right, n);
      if n - 1 < |left.items| && n - 1 < |right.items| { DiffAscends(left.items[n - 1], right.items[n - 1]); }
      SlotsAscend(l, r);
      ChildItem(left, n - 1);
      ChildItem(right, n - 1);
      hide Diff, Under, Digits, Ascends, DiffItems, DiffSlots, AllBefore;
      UnderAscends(Some(left), before, Digits(n - 1), DiffSlots(l, r));
      UnderAscends(Some(right), before, Digits(n - 1), DiffSlots(l, r));
      forall m | m >= n
        ensures AllBefore(Some(left), DiffItems(left, right, n), Digits(m))
        ensures AllBefore(Some(right), DiffItems(left, right, n), Digits(m))
      {
        PositionsBefore(Some(left), before, n - 1, DiffSlots(l, r), m);
        PositionsBefore(Some(right), before, n - 1, DiffSlots(l, r), m);
      }
    }
  }

  lemma PositionsBefore(v: Slot, before: seq<Difference>, i: nat, ds: seq<Difference>, m: nat)
    requires v.Some? && !v.value.Obj? && i < m && AllBefore(v, before, Digits(m))
    ensures AllBefore(v, before + Under(Digits(i), ds), Digits(m))
  {
    hide Digits;
    UnderAt(Digits(i), ds);
    DigitsValue(i);
    DigitsValue(m);
    var all := before + Under(Digits(i), ds);
    forall k {:trigger all[k]} | 0 <= k < |all|
      ensures FirstBefore(v, all[k].path, Digits(m))
    {
      if k < |before| {
        assert FirstBefore(v, before[k].path, Digits(m));
      } else {
        assert all[k] == Under(Digits(i), ds)[k - |before|];
      }
    }
  }
}
