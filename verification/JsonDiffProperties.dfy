/** The reported differences: their pointers are distinct and lead to the reported values,
  * and replaying them on the left value gives the right one. */
module JsonDiffProperties {
  import opened Options
  import opened JsonPointers
  import opened JsonDiff

  /** The member or element a token names (section 4 of RFC 6901); an array position is
    * written in decimal without leading zeros. */
  function Child(v: Slot, token: string): Slot {
    match v
    case Some(Obj(fields)) => Field(fields, Unescape(token))
    case Some(Arr(items)) => if Digits(Value(token)) == token then Item(items, Value(token)) else None
    case _ => None
  }

  function Lookup(v: Slot, path: seq<string>): Slot
    decreases |path|
  {
    if path == [] then v else Lookup(Child(v, path[0]), path[1..])
  }

  ghost predicate Resolves(left: Slot, right: Slot, d: Difference) {
    && Lookup(left, d.path) == d.left && Lookup(right, d.path) == d.right
    && d.left != d.right && AllSlashFree(d.path)
  }

  ghost predicate AllResolve(left: Slot, right: Slot, ds: seq<Difference>) {
    forall d {:trigger Resolves(left, right, d)} :: d in ds ==> Resolves(left, right, d)
  }

  lemma UnderResolves(left: Slot, right: Slot, token: string, ds: seq<Difference>)
    requires SlashFree(token) && AllResolve(Child(left, token), Child(right, token), ds)
    ensures AllResolve(left, right, Under(token, ds))
  {
    hide Child;
    UnderAt(token, ds);
    forall d {:trigger Resolves(left, right, d)} | d in Under(token, ds)
      ensures Resolves(left, right, d)
    {
      var i :| 0 <= i < |Under(token, ds)| && Under(token, ds)[i] == d;
      assert Resolves(Child(left, token), Child(right, token), ds[i]);
      assert d.path[1..] == ds[i].path;
    }
  }

  lemma ChildField(v: Json, key: string)
    requires v.Obj?
    ensures Child(Some(v), Escape(key)) == Field(v.fields, key) && SlashFree(Escape(key))
  {
    EscapeRoundTrip(key);
    EscapeSlashFree(key);
  }

  lemma ChildItem(v: Json, i: nat)
    requires v.Arr?
    ensures Child(Some(v), Digits(i)) == Item(v.items, i) && SlashFree(Digits(i))
  {
    DigitsValue(i);
  }

  lemma ApartResolves(left: Slot, right: Slot)
    ensures AllResolve(left, right, Apart(left, right))
  {
  }

  /** Every pointer leads to the reported value on each side, and the two differ. */
  lemma {:induction false} DiffResolves(left: Json, right: Json)
    ensures AllResolve(Some(left), Some(right), Diff(left, right))
    decreases left, 2, 0
  {
    if left.Obj? && right.Obj? {
      FieldsResolve(left, right, SortedKeys(left.fields.Keys + right.fields.Keys));
    } else if left.Arr? && right.Arr? {
      ItemsResolve(left, right, if |left.items| < |right.items| then |right.items| else |left.items|);
    }
  }

  lemma {:induction false} FieldsResolve(left: Json, right: Json, keys: seq<string>)
    requires left.Obj? && right.Obj?
    ensures AllResolve(Some(left), Some(right), DiffFields(left, right, keys))
    decreases left, 1, |keys|
  {
    hide Diff, Under, Escape, Child, Resolves;
    if keys != [] {
      var key := keys[|keys| - 1];
      FieldsResolve(left, right, keys[..|keys| - 1]);
      FieldsSnoc(left, right, keys);
      if key in left.fields && key in right.fields { DiffResolves(left.fields[key], right.fields[key]); }
      ApartResolves(Field(left.fields, key), Field(right.fields, key));
      ChildField(left, key);
      ChildField(right, key);
      UnderResolves(Some(left), Some(right), Escape(key), DiffSlots(Field(left.fields, key), Field(right.fields, key)));
    }
  }

  lemma {:induction false} ItemsResolve(left: Json, right: Json, n: nat)
    requires left.Arr? && right.Arr?
    ensures AllResolve(Some(left), Some(right), DiffItems(left, right, n))
    decreases left, 1, n
  {
    hide Diff, Under, Digits, Child, Resolves;
    if n > 0 {
      ItemsResolve(left, right, n - 1);
      ItemsSnoc(left, right, n);
      if n - 1 < |left.items| && n - 1 < |right.items| { DiffResolves(left.items[n - 1], right.items[n - 1]); }
      ApartResolves(Item(left.items, n - 1), Item(right.items, n - 1));
      ChildItem(left, n - 1);
      ChildItem(right, n - 1);
      UnderResolves(Some(left), Some(right), Digits(n - 1),
                    DiffSlots(Item(left.items, n - 1), Item(right.items, n - 1)));
    }
  }

  // ------------------------------------------------------------- distinct pointers

  ghost predicate DistinctPaths(ds: seq<Difference>) {
    forall i, k {:trigger ds[i], ds[k]} :: 0 <= i < k < |ds| ==> ds[i].path != ds[k].path
  }

  /** Every path starts with one of the tokens. */
  ghost predicate HeadsIn(ds: seq<Difference>, tokens: set<string>) {
    forall i {:trigger ds[i]} :: 0 <= i < |ds| ==> ds[i].path != [] && ds[i].path[0] in tokens
  }

  lemma UnderDistinct(token: string, ds: seq<Difference>)
    requires DistinctPaths(ds)
    ensures DistinctPaths(Under(token, ds)) && HeadsIn(Under(token, ds), {token})
  {
    var us := Under(token, ds);
    UnderAt(token, ds);
    forall i, k {:trigger us[i], us[k]} | 0 <= i < k < |us|
      ensures us[i].path != us[k].path
    {
      assert us[i].path[1..] == ds[i].path && us[k].path[1..] == ds[k].path;
    }
  }

  lemma ConcatDistinct(a: seq<Difference>, b: seq<Difference>, tokens: set<string>, token: string)
    requires DistinctPaths(a) && DistinctPaths(b) && HeadsIn(a, tokens) && HeadsIn(b, {token}) && token !in tokens
    ensures DistinctPaths(a + b) && HeadsIn(a + b, tokens + {token})
  {
    var c := a + b;
    forall i, k {:trigger c[i], c[k]} | 0 <= i < k < |c|
      ensures c[i].path != c[k].path
    {
      if i < |a| && k >= |a| {
        assert c[i] == a[i] && c[k] == b[k - |a|];
      } else if i >= |a| {
        assert c[i] == b[i - |a|] && c[k] == b[k - |a|];
      }
    }
  }

  lemma {:induction false} DiffDistinct(left: Json, right: Json)
    ensures DistinctPaths(Diff(left, right))
    decreases left, 2, 0
  {
    if left.Obj? && right.Obj? {
      SortedKeysAre(left.fields.Keys + right.fields.Keys);
      FieldsDistinct(left, right, SortedKeys(left.fields.Keys + right.fields.Keys));
    } else if left.Arr? && right.Arr? {
      ItemsDistinct(left, right, if |left.items| < |right.items| then |right.items| else |left.items|);
    }
  }

  function Tokens(keys: seq<string>): set<string> {
    if keys == [] then {} else Tokens(keys[..|keys| - 1]) + {Escape(keys[|keys| - 1])}
  }

  lemma {:induction false} TokensApart(keys: seq<string>, key: string)
    requires key !in keys
    ensures Escape(key) !in Tokens(keys)
  {
    if keys != [] {
      TokensApart(keys[..|keys| - 1], key);
      EscapeRoundTrip(key);
      EscapeRoundTrip(keys[|keys| - 1]);
    }
  }

  lemma {:induction false} FieldsDistinct(left: Json, right: Json, keys: seq<string>)
    requires left.Obj? && right.Obj?
    requires forall i, k :: 0 <= i < k < |keys| ==> keys[i] != keys[k]
    ensures DistinctPaths(DiffFields(left, right, keys)) && HeadsIn(DiffFields(left, right, keys), Tokens(keys))
    decreases left, 1, |keys|
  {
    hide Diff, Under, Escape, DistinctPaths, HeadsIn;
    if keys == [] {
      NothingDistinct(Tokens(keys));
    } else {
      var front, key := keys[..|keys| - 1], keys[|keys| - 1];
      var here := DiffSlots(Field(left.fields, key), Field(right.fields, key));
      FieldsDistinct(left, right, front);
      FieldsSnoc(left, right, keys);
      TokensApart(front, key);
      if key in left.fields && key in right.fields { DiffDistinct(left.fields[key], right.fields[key]); }
      ApartDistinct(Field(left.fields, key), Field(right.fields, key));
      UnderDistinct(Escape(key), here);
      ConcatDistinct(DiffFields(left, right, front), Under(Escape(key), here), Tokens(front), Escape(key));
    }
  }

  lemma NothingDistinct(tokens: set<string>)
    ensures DistinctPaths([]) && HeadsIn([], tokens)
  {
  }

  lemma ApartDistinct(left: Slot, right: Slot)
    ensures DistinctPaths(Apart(left, right))
  {
  }

  function Positions(n: nat): set<string> { if n == 0 then {} else Positions(n - 1) + {Digits(n - 1)} }

  lemma {:induction false} PositionsApart(n: nat, i: nat)
    requires n <= i
    ensures Digits(i) !in Positions(n)
  {
    if n > 0 {
      PositionsApart(n - 1, i);
      DigitsValue(i);
      DigitsValue(n - 1);
    }
  }

  lemma {:induction false} ItemsDistinct(left: Json, right: Json, n: nat)
    requires left.Arr? && right.Arr?
    ensures DistinctPaths(DiffItems(left, right, n)) && HeadsIn(DiffItems(left, right, n), Positions(n))
    decreases left, 1, n
  {
    hide Diff, Under, Digits, DistinctPaths, HeadsIn;
    if n == 0 {
      NothingDistinct(Positions(0));
    } else {
      var here := DiffSlots(Item(left.items, n - 1), Item(right.items, n - 1));
      ItemsDistinct(left, right, n - 1);
      ItemsSnoc(left, right, n);
      PositionsApart(n - 1, n - 1);
      if n - 1 < |left.items| && n - 1 < |right.items| { DiffDistinct(left.items[n - 1], right.items[n - 1]); }
      ApartDistinct(Item(left.items, n - 1), Item(right.items, n - 1));
      UnderDistinct(Digits(n - 1), here);
      ConcatDistinct(DiffItems(left, right, n - 1), Under(Digits(n - 1), here), Positions(n - 1), Digits(n - 1));
    }
  }

  /** No two differences are reported under the same pointer text. */
  lemma PointersDistinct(left: Json, right: Json, i: nat, k: nat)
    requires i < k < |Diff(left, right)|
    ensures Pointer(Diff(left, right)[i].path) != Pointer(Diff(left, right)[k].path)
  {
    var ds := Diff(left, right);
    DiffDistinct(left, right);
    DiffResolves(left, right);
    assert Resolves(Some(left), Some(right), ds[i]) && Resolves(Some(left), Some(right), ds[k]);
    assert ds[i].path != ds[k].path;
    if Pointer(ds[i].path) == Pointer(ds[k].path) { PointerInjective(ds[i].path, ds[k].path); }
  }

  // ------------------------------------------------------------- replaying

  function PutField(fields: map<string, Json>, key: string, v: Slot): map<string, Json> {
    if v.Some? then fields[key := v.value] else fields - {key}
  }

  /** Writing at a position; an absence there ends the array. */
  function PutItem(items: seq<Json>, i: nat, v: Slot): seq<Json> {
    if v.None? then (if i < |items| then items[..i] else items)
    else if i < |items| then items[i := v.value]
    else if i == |items| then items + [v.value]
    else items
  }

  function Apply(v: Slot, path: seq<string>, right: Slot): Slot
    decreases |path|
  {
    if path == [] then right
    else
      var child := Apply(Child(v, path[0]), path[1..], right);
      match v
      case Some(Obj(fields)) => Some(Obj(PutField(fields, Unescape(path[0]), child)))
      case Some(Arr(items)) => Some(Arr(PutItem(items, Value(path[0]), child)))
      case _ => v
  }

  function Replay(v: Slot, ds: seq<Difference>): Slot {
    if ds == [] then v else Apply(Replay(v, ds[..|ds| - 1]), ds[|ds| - 1].path, ds[|ds| - 1].right)
  }

  lemma {:induction false} ReplayConcat(v: Slot, a: seq<Difference>, b: seq<Difference>)
    ensures Replay(v, a + b) == Replay(Replay(v, a), b)
  {
    hide Apply;
    if b == [] {
      ConcatNone(a);
    } else {
      ReplayConcat(v, a, b[..|b| - 1]);
      FrontOfConcat(a, b);
    }
  }

  lemma {:induction false} ReplayField(fields: map<string, Json>, key: string, ds: seq<Difference>)
    ensures Replay(Some(Obj(fields)), Under(Escape(key), ds))
      == Some(Obj(PutField(fields, key, Replay(Field(fields, key), ds))))
  {
    if ds == [] {
      assert PutField(fields, key, Field(fields, key)) == fields;
    } else {
      var front, last := ds[..|ds| - 1], ds[|ds| - 1];
      ReplayField(fields, key, front);
      var before := Replay(Field(fields, key), front);
      var put := PutField(fields, key, before);
      ChildField(Obj(put), key);
      EscapeRoundTrip(key);
      assert Field(put, key) == before;
      var us := Under(Escape(key), ds);
      assert us[..|us| - 1] == Under(Escape(key), front) && us[|us| - 1] == last.(path := [Escape(key)] + last.path);
      assert ([Escape(key)] + last.path)[1..] == last.path;
      PutTwice(fields, key, before, Replay(Field(fields, key), ds));
    }
  }

  lemma PutTwice(fields: map<string, Json>, key: string, a: Slot, b: Slot)
    ensures PutField(PutField(fields, key, a), key, b) == PutField(fields, key, b)
  {
  }

  /** What stays a value all along: only whole entries with a right value, or inner ones. */
  ghost predicate StaysPresent(ds: seq<Difference>) {
    forall i {:trigger ds[i]} :: 0 <= i < |ds| ==> ds[i].path != [] || ds[i].right.Some?
  }

  lemma {:induction false} PresentReplay(v: Slot, ds: seq<Difference>)
    requires v.Some? && StaysPresent(ds)
    ensures Replay(v, ds).Some?
  {
    if ds != [] {
      assert StaysPresent(ds[..|ds| - 1]);
      PresentReplay(v, ds[..|ds| - 1]);
    }
  }

  lemma {:induction false} ReplayItem(items: seq<Json>, i: nat, ds: seq<Difference>)
    requires i < |items| && StaysPresent(ds)
    ensures Replay(Some(Arr(items)), Under(Digits(i), ds)) == Some(Arr(PutItem(items, i, Replay(Some(items[i]), ds))))
  {
    if ds == [] {
      assert items[i := items[i]] == items;
    } else {
      var front, last := ds[..|ds| - 1], ds[|ds| - 1];
      assert StaysPresent(front);
      ReplayItem(items, i, front);
      PresentReplay(Some(items[i]), front);
      PresentReplay(Some(items[i]), ds);
      var before := Replay(Some(items[i]), front);
      ChildItem(Arr(PutItem(items, i, before)), i);
      DigitsValue(i);
      var us := Under(Digits(i), ds);
      assert us[..|us| - 1] == Under(Digits(i), front) && us[|us| - 1] == last.(path := [Digits(i)] + last.path);
      assert ([Digits(i)] + last.path)[1..] == last.path;
      var after := Replay(Some(items[i]), ds);
      assert PutItem(PutItem(items, i, before), i, after) == PutItem(items, i, after);
    }
  }

  lemma ReplayOne(items: seq<Json>, i: nat, left: Slot, right: Slot)
    ensures Replay(Some(Arr(items)), Under(Digits(i), [Difference([], left, right)]))
      == Some(Arr(PutItem(items, i, right)))
  {
    var d := Difference([Digits(i)], left, right);
    DigitsValue(i);
    UnderAt(Digits(i), [Difference([], left, right)]);
    assert [Digits(i)] + [] == [Digits(i)];
    assert Under(Digits(i), [Difference([], left, right)]) == [d];
    assert Replay(Some(Arr(items)), [d]) == Apply(Some(Arr(items)), d.path, right) by { assert [d][..0] == []; }
    assert d.path[1..] == [];
    assert Apply(Child(Some(Arr(items)), d.path[0]), d.path[1..], right) == right;
  }

  lemma DiffStays(left: Json, right: Json)
    ensures StaysPresent(Diff(left, right))
  {
    if left.Obj? && right.Obj? {
      SortedKeysAre(left.fields.Keys + right.fields.Keys);
      FieldsDistinct(left, right, SortedKeys(left.fields.Keys + right.fields.Keys));
    } else if left.Arr? && right.Arr? {
      ItemsDistinct(left, right, if |left.items| < |right.items| then |right.items| else |left.items|);
    }
  }

  /** Replaying the differences on the left value yields the right value. */
  lemma {:induction false} DiffReplays(left: Json, right: Json)
    ensures Replay(Some(left), Diff(left, right)) == Some(right)
    decreases left, 2, 0
  {
    if left.Obj? && right.Obj? {
      var keys := SortedKeys(left.fields.Keys + right.fields.Keys);
      SortedKeysAre(left.fields.Keys + right.fields.Keys);
      FieldsReplay(left, right, keys);
      SameFields(Replay(Some(left), DiffFields(left, right, keys)).value.fields, right.fields);
    } else if left.Arr? && right.Arr? {
      var n := if |left.items| < |right.items| then |right.items| else |left.items|;
      ItemsReplay(left, right, n);
      assert Merged(left.items, right.items, n) == right.items;
    } else if left != right {
      assert Replay(Some(left), []) == Some(left);
    }
  }

  /** The members named in `keys` are the right ones, the others the left ones. */
  ghost predicate Mixed(fields: map<string, Json>, left: map<string, Json>, right: map<string, Json>,
                        keys: seq<string>) {
    forall key {:trigger Field(fields, key)} :: Field(fields, key) == Field(if key in keys then right else left, key)
  }

  lemma MixedStep(fields: map<string, Json>, left: map<string, Json>, right: map<string, Json>, keys: seq<string>,
                  key: string)
    requires Mixed(fields, left, right, keys) && key !in keys
    ensures Field(fields, key) == Field(left, key)
    ensures Mixed(PutField(fields, key, Field(right, key)), left, right, keys + [key])
  {
    var put := PutField(fields, key, Field(right, key));
    forall k {:trigger Field(put, k)}
      ensures Field(put, k) == Field(if k in keys + [key] then right else left, k)
    {
      assert Field(fields, k) == Field(if k in keys then right else left, k);
    }
  }

  lemma {:induction false} FieldsReplay(left: Json, right: Json, keys: seq<string>)
    requires left.Obj? && right.Obj?
    requires forall i, k :: 0 <= i < k < |keys| ==> keys[i] != keys[k]
    ensures var r := Replay(Some(left), DiffFields(left, right, keys));
      r.Some? && r.value.Obj? && Mixed(r.value.fields, left.fields, right.fields, keys)
    decreases left, 1, |keys|
  {
    hide Diff, Under, Escape, Mixed, PutField, Apply;
    if keys == [] {
      NothingMixed(left.fields, right.fields);
    } else {
      var front, key := keys[..|keys| - 1], keys[|keys| - 1];
      var here := DiffSlots(Field(left.fields, key), Field(right.fields, key));
      FieldsReplay(left, right, front);
      FieldsSnoc(left, right, keys);
      var before := Replay(Some(left), DiffFields(left, right, front)).value.fields;
      ReplayConcat(Some(left), DiffFields(left, right, front), Under(Escape(key), here));
      ReplayField(before, key, here);
      MixedStep(before, left.fields, right.fields, front, key);
      if key in left.fields && key in right.fields { DiffReplays(left.fields[key], right.fields[key]); }
      ApartReplays(Field(left.fields, key), Field(right.fields, key));
      assert keys == front + [key];
    }
  }

  lemma NothingMixed(left: map<string, Json>, right: map<string, Json>)
    ensures Mixed(left, left, right, [])
  {
  }

  lemma ApartReplays(left: Slot, right: Slot)
    ensures Replay(left, Apart(left, right)) == right
  {
    if left != right {
      var d := Difference([], left, right);
      assert [d][..0] == [];
    }
  }

  /** The array after the first `n` positions have been compared. */
  function Merged(left: seq<Json>, right: seq<Json>, n: nat): seq<Json> {
    if n <= |right| then right[..n] + (if n <= |left| then left[n..] else []) else right
  }

  lemma {:induction false} ItemsReplay(left: Json, right: Json, n: nat)
    requires left.Arr? && right.Arr? && (n <= |left.items| || n <= |right.items|)
    ensures Replay(Some(left), DiffItems(left, right, n)) == Some(Arr(Merged(left.items, right.items, n)))
    decreases left, 1, n
  {
    hide Diff, Under, Digits, Apply, Merged, PutItem, DiffItems, Replay, StaysPresent;
    if n == 0 {
      MergedNone(left, right);
    } else {
      var i := n - 1;
      MergedStep(left.items, right.items, i);
      var before := Merged(left.items, right.items, i);
      var here := DiffSlots(Item(left.items, i), Item(right.items, i));
      ItemsReplay(left, right, i);
      ItemsSnoc(left, right, n);
      ReplayConcat(Some(left), DiffItems(left, right, i), Under(Digits(i), here));
      if i < |left.items| && i < |right.items| {
        DiffReplays(left.items[i], right.items[i]);
        DiffStays(left.items[i], right.items[i]);
        ReplayItem(before, i, here);
      } else {
        ReplayOne(before, i, Item(left.items, i), Item(right.items, i));
      }
    }
  }

  lemma MergedStep(left: seq<Json>, right: seq<Json>, i: nat)
    requires i < |left| || i < |right|
    ensures PutItem(Merged(left, right, i), i, Item(right, i)) == Merged(left, right, i + 1)
    ensures i < |left| && i < |right| ==> i < |Merged(left, right, i)| && Merged(left, right, i)[i] == left[i]
  {
  }

  lemma MergedNone(left: Json, right: Json)
    requires left.Arr? && right.Arr?
    ensures Replay(Some(left), DiffItems(left, right, 0)) == Some(Arr(Merged(left.items, right.items, 0)))
  {
    assert Merged(left.items, right.items, 0) == left.items;
  }

  // ------------------------------------------------------------- the pointers as they are built up

  datatype Reported = Reported(pointer: string, left: Slot, right: Slot)

  function Report(pointer: string, ds: seq<Difference>): seq<Reported> {
    if ds == [] then []
    else
      var last := ds[|ds| - 1];
      Report(pointer, ds[..|ds| - 1]) + [Reported(pointer + Pointer(last.path), last.left, last.right)]
  }

  /** Handing "pointer/token" down to a child reports what the child's paths say below it. */
  lemma {:induction false} ReportUnder(pointer: string, token: string, ds: seq<Difference>)
    ensures Report(pointer, Under(token, ds)) == Report(pointer + "/" + token, ds)
  {
    if ds != [] {
      var front, last := ds[..|ds| - 1], ds[|ds| - 1];
      var us := Under(token, ds);
      ReportUnder(pointer, token, front);
      assert us[..|us| - 1] == Under(token, front);
      assert ([token] + last.path)[1..] == last.path;
      assert pointer + Pointer([token] + last.path) == pointer + "/" + token + Pointer(last.path);
    }
  }

  lemma {:induction false} ReportConcat(pointer: string, a: seq<Difference>, b: seq<Difference>)
    ensures Report(pointer, a + b) == Report(pointer, a) + Report(pointer, b)
  {
    if b == [] {
      ConcatNone(a);
    } else {
      ReportConcat(pointer, a, b[..|b| - 1]);
      FrontOfConcat(a, b);
    }
  }

  /** The generator, with the pointer handed down as text. */
  ghost function Differences(left: Json, right: Json, pointer: string): seq<Reported>
    decreases left, 2, 0
  {
    if left.Obj? && right.Obj? then
      FieldDifferences(left, right, SortedKeys(left.fields.Keys + right.fields.Keys), pointer)
    else if left.Arr? && right.Arr? then
      ItemDifferences(left, right, if |left.items| < |right.items| then |right.items| else |left.items|, pointer)
    else if left == right then []
    else [Reported(pointer, Some(left), Some(right))]
  }

  ghost function FieldDifferences(left: Json, right: Json, keys: seq<string>, pointer: string): seq<Reported>
    requires left.Obj? && right.Obj?
    decreases left, 1, |keys|
  {
    if keys == [] then []
    else
      var key := keys[|keys| - 1];
      FieldDifferences(left, right, keys[..|keys| - 1], pointer)
      + if key in left.fields && key in right.fields then
          Differences(left.fields[key], right.fields[key], pointer + "/" + Escape(key))
        else MissingDifference(Field(left.fields, key), Field(right.fields, key), pointer + "/" + Escape(key))
  }

  ghost function ItemDifferences(left: Json, right: Json, n: nat, pointer: string): seq<Reported>
    requires left.Arr? && right.Arr?
    decreases left, 1, n
  {
    if n == 0 then []
    else
      ItemDifferences(left, right, n - 1, pointer)
      + if n - 1 < |left.items| && n - 1 < |right.items| then
          Differences(left.items[n - 1], right.items[n - 1], pointer + "/" + Digits(n - 1))
        else MissingDifference(Item(left.items, n - 1), Item(right.items, n - 1), pointer + "/" + Digits(n - 1))
  }

  function MissingDifference(left: Slot, right: Slot, pointer: string): seq<Reported> {
    if left == right then [] else [Reported(pointer, left, right)]
  }

  lemma ReportMissing(left: Slot, right: Slot, pointer: string)
    ensures MissingDifference(left, right, pointer) == Report(pointer, Apart(left, right))
  {
    if left != right {
      assert [Difference([], left, right)][..0] == [];
      assert pointer + "" == pointer;
    }
  }

  /** What the generator yields is the difference with every path written as a pointer. */
  lemma {:induction false} GeneratorReports(left: Json, right: Json, pointer: string)
    ensures Differences(left, right, pointer) == Report(pointer, Diff(left, right))
    decreases left, 2, 0
  {
    if left.Obj? && right.Obj? {
      FieldsReport(left, right, SortedKeys(left.fields.Keys + right.fields.Keys), pointer);
    } else if left.Arr? && right.Arr? {
      ItemsReport(left, right, if |left.items| < |right.items| then |right.items| else |left.items|, pointer);
    } else {
      ReportMissing(Some(left), Some(right), pointer);
    }
  }

  lemma {:induction false} FieldsReport(left: Json, right: Json, keys: seq<string>, pointer: string)
    requires left.Obj? && right.Obj?
    ensures FieldDifferences(left, right, keys, pointer) == Report(pointer, DiffFields(left, right, keys))
    decreases left, 1, |keys|
  {
    hide Diff, Under, Escape, Differences;
    if keys != [] {
      var key := keys[|keys| - 1];
      var here := DiffSlots(Field(left.fields, key), Field(right.fields, key));
      FieldsReport(left, right, keys[..|keys| - 1], pointer);
      FieldsSnoc(left, right, keys);
      if key in left.fields && key in right.fields {
        GeneratorReports(left.fields[key], right.fields[key], pointer + "/" + Escape(key));
      }
      ReportMissing(Field(left.fields, key), Field(right.fields, key), pointer + "/" + Escape(key));
      ReportConcat(pointer, DiffFields(left, right, keys[..|keys| - 1]), Under(Escape(key), here));
      ReportUnder(pointer, Escape(key), here);
    }
  }

  lemma {:induction false} ItemsReport(left: Json, right: Json, n: nat, pointer: string)
    requires left.Arr? && right.Arr?
    ensures ItemDifferences(left, right, n, pointer) == Report(pointer, DiffItems(left, right, n))
    decreases left, 1, n
  {
    hide Diff, Under, Digits, Differences;
    if n > 0 {
      var here := DiffSlots(Item(left.items, n - 1), Item(right.items, n - 1));
      ItemsReport(left, right, n - 1, pointer);
      ItemsSnoc(left, right, n);
      if n - 1 < |left.items| && n - 1 < |right.items| {
        GeneratorReports(left.items[n - 1], right.items[n - 1], pointer + "/" + Digits(n - 1));
      }
      ReportMissing(Item(left.items, n - 1), Item(right.items, n - 1), pointer + "/" + Digits(n - 1));
      ReportConcat(pointer, DiffItems(left, right, n - 1), Under(Digits(n - 1), here));
      ReportUnder(pointer, Digits(n - 1), here);
    }
  }
}
