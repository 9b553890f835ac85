/** Grouping the cleaned records by their `類型` (type) column and counting
    each group (app.py:108-123). pandas' `groupby` sorts the distinct keys,
    with Python's ordering of strings, and keeps the rows of each group in
    their original order. */
module Categories {
  import opened Seqs
  import opened Sheet
  import opened Wrappers

  const TypeColumn: string := "類型"
  const Uncategorized: string := "未分類"

  /** Python's `a < b` on strings: code point by code point, a proper
      prefix first. */
  predicate Below(a: string, b: string)
  {
    if a == [] then b != []
    else if b == [] then false
    else if a[0] != b[0] then a[0] < b[0]
    else Below(a[1..], b[1..])
  }

  lemma {:induction false} BelowIrreflexive(a: string)
    ensures !Below(a, a)
  {
    if a != [] {
      BelowIrreflexive(a[1..]);
    }
  }

  lemma {:induction false} BelowTransitive(a: string, b: string, c: string)
    requires Below(a, b) && Below(b, c)
    ensures Below(a, c)
  {
    if a != [] && b != [] && c != [] && a[0] == b[0] && b[0] == c[0] {
      BelowTransitive(a[1..], b[1..], c[1..]);
    }
  }

  lemma {:induction false} BelowTotal(a: string, b: string)
    requires a != b
    ensures Below(a, b) || Below(b, a)
  {
    if a != [] && b != [] && a[0] == b[0] {
      assert a == [a[0]] + a[1..] && b == [b[0]] + b[1..];
      BelowTotal(a[1..], b[1..]);
    }
  }

  /** Strictly increasing, hence without repeats. */
  predicate StrictlySorted(s: seq<string>)
  {
    forall i, j :: 0 <= i < j < |s| ==> Below(s[i], s[j])
  }

  /** `x` put into its place in the sorted `s`, unless it is there already. */
  function Insert(x: string, s: seq<string>): (r: seq<string>)
    requires StrictlySorted(s)
    ensures StrictlySorted(r)
    ensures forall y :: y in r <==> y in s || y == x
  {
    if s == [] then [x]
    else if x == s[0] then s
    else if Below(x, s[0]) then
      forall j | 0 < j < |s|
        ensures Below(x, s[j])
      {
        BelowTransitive(x, s[0], s[j]);
      }
      [x] + s
    else
      BelowTotal(x, s[0]);
      var rest := Insert(x, s[1..]);
      forall j | 0 <= j < |rest|
        ensures Below(s[0], rest[j])
      {
        assert rest[j] in rest;
        if rest[j] != x {
          var k :| 0 <= k < |s[1..]| && s[1..][k] == rest[j];
          assert s[k + 1] == rest[j];
        }
      }
      [s[0]] + rest
  }

  predicate Typed(records: seq<Record>)
  {
    forall i :: 0 <= i < |records| ==> TypeColumn in records[i]
  }

  function TypeOf(r: Record): string
    requires TypeColumn in r
  {
    r[TypeColumn]
  }

  /** The group keys `df.groupby('類型')` yields: the distinct type values,
      sorted. */
  function GroupKeys(records: seq<Record>): (keys: seq<string>)
    requires Typed(records)
    ensures StrictlySorted(keys)
    ensures forall i :: 0 <= i < |records| ==> TypeOf(records[i]) in keys
    ensures forall c :: c in keys ==> exists i :: 0 <= i < |records| && TypeOf(records[i]) == c
  {
    if records == [] then []
    else
      var n := |records| - 1;
      var keys := Insert(TypeOf(records[n]), GroupKeys(records[..n]));
      assert forall i :: 0 <= i < n ==> records[..n][i] == records[i];
      keys
  }

  /** The rows of group `c`, in their original order. */
  function Group(records: seq<Record>, c: string): (g: seq<Record>)
    requires Typed(records)
    ensures |g| <= |records|
  {
    if records == [] then []
    else
      var n := |records| - 1;
      Group(records[..n], c) + (if TypeOf(records[n]) == c then [records[n]] else [])
  }

  /** A row is in group `c` exactly when it is one of the rows and its type
      is `c`. */
  lemma {:induction false} GroupMembers(records: seq<Record>, c: string)
    requires Typed(records)
    ensures forall r :: r in Group(records, c) <==> r in records && TypeColumn in r && TypeOf(r) == c
  {
    if records != [] {
      var n := |records| - 1;
      GroupMembers(records[..n], c);
      assert records == records[..n] + [records[n]];
    }
  }

  /** The groups for the keys `cs`, in that order. */
  function Groups(records: seq<Record>, cs: seq<string>): (gs: seq<seq<Record>>)
    requires Typed(records)
    ensures |gs| == |cs|
  {
    seq(|cs|, i requires 0 <= i < |cs| => Group(records, cs[i]))
  }

  predicate Distinct(cs: seq<string>)
  {
    forall i, j :: 0 <= i < j < |cs| ==> cs[i] != cs[j]
  }

  lemma GroupsLast(records: seq<Record>, cs: seq<string>)
    requires Typed(records) && cs != []
    ensures Flatten(Groups(records, cs)) ==
      Flatten(Groups(records, cs[..|cs| - 1])) + Group(records, cs[|cs| - 1])
  {
    var m := |cs| - 1;
    assert Groups(records, cs) == Groups(records, cs[..m]) + [Group(records, cs[m])];
    FlattenAppend(Groups(records, cs[..m]), Group(records, cs[m]));
  }

  /** Adding one row adds it to the one group its type names, if any. */
  lemma {:induction false} GroupsStep(records: seq<Record>, r: Record, cs: seq<string>)
    requires Typed(records) && TypeColumn in r && Distinct(cs)
    ensures Typed(records + [r])
    ensures multiset(Flatten(Groups(records + [r], cs))) ==
      multiset(Flatten(Groups(records, cs))) + (if TypeOf(r) in cs then multiset{r} else multiset{})
  {
    var all := records + [r];
    assert all[..|records|] == records;
    if cs != [] {
      var m := |cs| - 1;
      var init := cs[..m];
      assert Distinct(init);
      GroupsStep(records, r, init);
      GroupsLast(all, cs);
      GroupsLast(records, cs);
      var f, fAll := Flatten(Groups(records, init)), Flatten(Groups(all, init));
      var g, gAll := Group(records, cs[m]), Group(all, cs[m]);
      var inInit := TypeOf(r) in init;
      var atLast := TypeOf(r) == cs[m];
      assert gAll == g + (if atLast then [r] else []);
      assert multiset(fAll) == multiset(f) + (if inInit then multiset{r} else multiset{});
      assert !(inInit && atLast);
      assert TypeOf(r) in cs <==> inInit || atLast by {
        assert cs == init + [cs[m]];
      }
      AddToOnePart(f, fAll, g, gAll, r, inInit, atLast);
    }
  }

  /** Multiset bookkeeping for GroupsStep, kept apart from records. */
  lemma AddToOnePart<T>(f: seq<T>, fAll: seq<T>, g: seq<T>, gAll: seq<T>, r: T, inF: bool, inG: bool)
    requires multiset(fAll) == multiset(f) + (if inF then multiset{r} else multiset{})
    requires gAll == g + (if inG then [r] else [])
    requires !(inF && inG)
    ensures multiset(fAll + gAll) == multiset(f + g) + (if inF || inG then multiset{r} else multiset{})
  {
  }

  /** Grouping by distinct keys that cover every row's type partitions the
      rows: every row lands in exactly one group, nothing is lost or
      duplicated. */
  lemma {:induction false} GroupsPartition(records: seq<Record>, cs: seq<string>)
    requires Typed(records) && Distinct(cs)
    requires forall i :: 0 <= i < |records| ==> TypeOf(records[i]) in cs
    ensures multiset(Flatten(Groups(records, cs))) == multiset(records)
  {
    if records == [] {
      if cs != [] {
        var m := |cs| - 1;
        GroupsPartition(records, cs[..m]);
        assert Groups(records, cs)[..m] == Groups(records, cs[..m]);
      }
    } else {
      var n := |records| - 1;
      assert records == records[..n] + [records[n]];
      GroupsPartition(records[..n], cs);
      GroupsStep(records[..n], records[n], cs);
    }
  }

  lemma SortedDistinct(s: seq<string>)
    requires StrictlySorted(s)
    ensures Distinct(s)
  {
    forall i, j | 0 <= i < j < |s|
      ensures s[i] != s[j]
    {
      if s[i] == s[j] {
        BelowIrreflexive(s[i]);
      }
    }
  }

  /** What lines 108-123 produce. */
  datatype Categorized = Categorized(categories: seq<string>, byCategory: map<string, seq<Record>>,
                                     stats: map<string, nat>)

  /** Each listed category has a group and a count, the count is the group's
      size, and nothing else is listed. */
  predicate Consistent(c: Categorized)
  {
    && Distinct(c.categories)
    && c.byCategory.Keys == c.stats.Keys == set k | k in c.categories
    && forall k :: k in c.stats ==> c.stats[k] == |c.byCategory[k]|
  }

  function GroupMap(records: seq<Record>, keys: seq<string>): map<string, seq<Record>>
    requires Typed(records)
  {
    map c | c in keys :: Group(records, c)
  }

  function CountMap(groups: map<string, seq<Record>>, keys: seq<string>): map<string, nat>
    requires forall c :: c in keys ==> c in groups
  {
    map c | c in keys :: |groups[c]|
  }

  /** The grouping loop (app.py:113-114) and the counting loop
      (app.py:117-119), over the keys pandas yields. */
  method GroupByType(records: seq<Record>) returns (categories: seq<string>,
      byCategory: map<string, seq<Record>>, stats: map<string, nat>)
    requires Typed(records)
    ensures categories == GroupKeys(records)
    ensures byCategory == GroupMap(records, categories)
    ensures stats == CountMap(byCategory, categories)
  {
    categories := GroupKeys(records);
    byCategory := map[];
    for i := 0 to |categories|
      invariant byCategory == GroupMap(records, categories[..i])
    {
      GroupMapStep(records, categories, i);
      byCategory := byCategory[categories[i] := Group(records, categories[i])];
    }
    AllKeys(categories);
    stats := map[];
    for i := 0 to |categories|
      invariant stats == CountMap(byCategory, categories[..i])
    {
      CountMapStep(byCategory, categories, i);
      stats := stats[categories[i] := |byCategory[categories[i]]|];
    }
  }

  lemma GroupMapStep(records: seq<Record>, keys: seq<string>, i: nat)
    requires Typed(records) && i < |keys|
    ensures GroupMap(records, keys[..i + 1]) == GroupMap(records, keys[..i])[keys[i] := Group(records, keys[i])]
  {
    assert keys[..i + 1] == keys[..i] + [keys[i]];
  }

  lemma CountMapStep(groups: map<string, seq<Record>>, keys: seq<string>, i: nat)
    requires i < |keys| && forall c :: c in keys ==> c in groups
    ensures forall c :: c in keys[..i + 1] ==> c in groups
    ensures CountMap(groups, keys[..i + 1]) == CountMap(groups, keys[..i])[keys[i] := |groups[keys[i]]|]
  {
    assert keys[..i + 1] == keys[..i] + [keys[i]];
  }

  lemma AllKeys(keys: seq<string>)
    ensures keys[..|keys|] == keys
  {
  }

  function Count(s: seq<string>, x: string): nat
  {
    if s == [] then 0 else Count(s[..|s| - 1], x) + (if s[|s| - 1] == x then 1 else 0)
  }

  /** app.py:108-123 on the cleaned table. With one `類型` column the rows
      are grouped by it; without one, every row goes to `未分類`; with
      several, pandas' `groupby` raises and the read fails. */
  function Categorize(t: Table): (r: Option<Categorized>)
    requires forall i :: 0 <= i < |t.records| ==> t.records[i].Keys == set h | h in t.columns
    ensures r.None? <==> Count(t.columns, TypeColumn) > 1
    ensures r.Some? ==> Consistent(r.value)
    ensures r.Some? && TypeColumn !in t.columns ==>
      r.value.categories == [Uncategorized] && r.value.stats == map[Uncategorized := |t.records|]
  {
    var n := Count(t.columns, TypeColumn);
    if n > 1 then None
    else if TypeColumn in t.columns then
      assert Typed(t.records);
      var keys := GroupKeys(t.records);
      SortedDistinct(keys);
      var groups := GroupMap(t.records, keys);
      Some(Categorized(keys, groups, CountMap(groups, keys)))
    else
      Some(Categorized([Uncategorized], map[Uncategorized := t.records], map[Uncategorized := |t.records|]))
  }

  /** The counts in category order, as the overview page lists them. */
  function StatsList(c: Categorized): (counts: seq<int>)
    requires Consistent(c)
    ensures |counts| == |c.categories|
  {
    seq(|c.categories|, i requires 0 <= i < |c.categories| => c.stats[c.categories[i]])
  }

  /** The per-category counts add up to `total_rows`, the number of rows
      read. */
  lemma StatsSumToTotal(t: Table)
    requires forall i :: 0 <= i < |t.records| ==> t.records[i].Keys == set h | h in t.columns
    requires Categorize(t).Some?
    ensures Sum(StatsList(Categorize(t).value)) == |t.records|
  {
    var c := Categorize(t).value;
    if TypeColumn in t.columns {
      assert Typed(t.records);
      var keys := GroupKeys(t.records);
      SortedDistinct(keys);
      GroupsPartition(t.records, keys);
      var gs := Groups(t.records, keys);
      FlattenLength(gs);
      assert Lengths(gs) == StatsList(c);
      calc {
        Sum(StatsList(c));
        |Flatten(gs)|;
        |multiset(Flatten(gs))|;
        |multiset(t.records)|;
        |t.records|;
      }
    } else {
      assert StatsList(c) == [|t.records|];
      assert StatsList(c)[..0] == [];
    }
  }

  /** Every row is in the group of its own category and in no other. */
  lemma RowInOneGroup(t: Table, i: nat, k: string)
    requires forall i :: 0 <= i < |t.records| ==> t.records[i].Keys == set h | h in t.columns
    requires Categorize(t).Some? && i < |t.records|
    requires k in Categorize(t).value.categories
    ensures var c := Categorize(t).value;
      t.records[i] in c.byCategory[k] <==>
        k == (if TypeColumn in t.columns then t.records[i][TypeColumn] else Uncategorized)
  {
    var c := Categorize(t).value;
    if TypeColumn in t.columns {
      assert Typed(t.records);
      GroupMembers(t.records, k);
      assert t.records[i] in t.records;
    }
  }
}
