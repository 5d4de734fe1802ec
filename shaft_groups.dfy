/**
 * `groupShafts` of the builder page (src/ArrowBuilderPage.tsx): shafts are
 * grouped by their "brand model" key in a JavaScript Map, which remembers
 * the order in which keys were first set, and each group is then sorted by
 * ascending spine.
 */
module ShaftGroups {
  import opened Catalog

  datatype Group = Group(key: string, items: seq<Shaft>)

  function Key(s: Shaft): string {
    s.brand + " " + s.model
  }

  // ---- specification ----

  /** The keys of `xs`, each once, in order of first appearance. */
  function DistinctKeys(xs: seq<Shaft>): seq<string> {
    if |xs| == 0 then []
    else
      var d := DistinctKeys(xs[..|xs| - 1]);
      if Key(xs[|xs| - 1]) in d then d else d + [Key(xs[|xs| - 1])]
  }

  /** The shafts of `xs` with key `k`, in input order. */
  function Members(xs: seq<Shaft>, k: string): seq<Shaft> {
    if |xs| == 0 then []
    else Members(xs[..|xs| - 1], k) + (if Key(xs[|xs| - 1]) == k then [xs[|xs| - 1]] else [])
  }

  predicate SortedBySpine(xs: seq<Shaft>) {
    forall i, j :: 0 <= i < j < |xs| ==> xs[i].spine <= xs[j].spine
  }

  /** Inserts `s` after every element whose spine is not greater. */
  function InsertBySpine(s: Shaft, sorted: seq<Shaft>): (r: seq<Shaft>)
    requires SortedBySpine(sorted)
    ensures SortedBySpine(r)
    ensures multiset(r) == multiset(sorted) + multiset{s}
  {
    if |sorted| == 0 then [s]
    else if s.spine < sorted[0].spine then [s] + sorted
    else
      var rest := InsertBySpine(s, sorted[1..]);
      forall j | 0 <= j < |rest|
        ensures sorted[0].spine <= rest[j].spine
      {
        assert rest[j] in multiset(rest);
        if rest[j] != s {
          assert rest[j] in sorted[1..];
        }
      }
      assert sorted == [sorted[0]] + sorted[1..];
      [sorted[0]] + rest
  }

  /** `items.slice().sort((a, b) => a.spine - b.spine)`: ascending by spine
      and a permutation of its input. */
  function SortBySpine(xs: seq<Shaft>): (r: seq<Shaft>)
    ensures SortedBySpine(r)
    ensures multiset(r) == multiset(xs)
  {
    if |xs| == 0 then []
    else
      assert xs == xs[..|xs| - 1] + [xs[|xs| - 1]];
      InsertBySpine(xs[|xs| - 1], SortBySpine(xs[..|xs| - 1]))
  }

  /** The groups `groupShafts` returns. */
  function Grouped(xs: seq<Shaft>): seq<Group> {
    var d := DistinctKeys(xs);
    seq(|d|, j requires 0 <= j < |d| => Group(d[j], SortBySpine(Members(xs, d[j]))))
  }

  // ---- the loop ----

  /** `groupShafts`: one pass filling the Map (`keys` is its insertion
      order), then one group per entry. */
  method GroupShafts(shafts: seq<Shaft>) returns (groups: seq<Group>)
    ensures groups == Grouped(shafts)
  {
    var keys: seq<string> := [];
    var m: map<string, seq<Shaft>> := map[];
    var i := 0;
    while i < |shafts|
      invariant 0 <= i <= |shafts|
      invariant keys == DistinctKeys(shafts[..i])
      invariant forall k :: k in m <==> k in keys
      invariant forall k :: k in m ==> m[k] == Members(shafts[..i], k)
    {
      var s := shafts[i];
      var key := s.brand + " " + s.model;
      assert shafts[..i + 1][..i] == shafts[..i];
      assert shafts[..i + 1][i] == s;
      if key !in m {
        MembersOfAbsentKey(shafts[..i], key);
        m := m[key := []];
        keys := keys + [key];
      }
      m := m[key := m[key] + [s]];
      i := i + 1;
    }
    assert shafts[..i] == shafts;
    groups := seq(|keys|, j requires 0 <= j < |keys| => Group(keys[j], SortBySpine(m[keys[j]])));
  }

  // ---- properties ----

  /** A key that never occurs has no members. */
  lemma {:induction false} MembersOfAbsentKey(xs: seq<Shaft>, k: string)
    requires k !in DistinctKeys(xs)
    ensures Members(xs, k) == []
  {
    if |xs| > 0 {
      MembersOfAbsentKey(xs[..|xs| - 1], k);
    }
  }

  /** The keys are exactly those that occur, each listed once. */
  lemma {:induction false} DistinctKeysExact(xs: seq<Shaft>)
    ensures forall k :: k in DistinctKeys(xs) <==> exists i :: 0 <= i < |xs| && Key(xs[i]) == k
    ensures forall p, q :: 0 <= p < q < |DistinctKeys(xs)| ==> DistinctKeys(xs)[p] != DistinctKeys(xs)[q]
  {
    if |xs| > 0 {
      var init := xs[..|xs| - 1];
      DistinctKeysExact(init);
      assert forall i :: 0 <= i < |init| ==> init[i] == xs[i];
    }
  }

  /** The members of a key all carry it, in input order, and are all of
      the input's shafts with that key. */
  lemma {:induction false} MembersExact(xs: seq<Shaft>, k: string)
    ensures forall s :: s in Members(xs, k) ==> Key(s) == k
    ensures forall s :: multiset(Members(xs, k))[s] == if Key(s) == k then multiset(xs)[s] else 0
  {
    if |xs| > 0 {
      var init := xs[..|xs| - 1];
      MembersExact(init, k);
      assert xs == init + [xs[|xs| - 1]];
    }
  }

  /** Index of the first shaft with key `k`. */
  function FirstIndex(xs: seq<Shaft>, k: string): (r: nat)
    requires k in DistinctKeys(xs)
    ensures r < |xs| && Key(xs[r]) == k
    ensures forall j :: 0 <= j < r ==> Key(xs[j]) != k
  {
    var init := xs[..|xs| - 1];
    if k in DistinctKeys(init) then
      var r := FirstIndex(init, k);
      assert forall j :: 0 <= j < |init| ==> init[j] == xs[j];
      r
    else
      DistinctKeysExact(init);
      assert forall j :: 0 <= j < |init| ==> init[j] == xs[j];
      |xs| - 1
  }

  /** Groups come in the order their keys first appear. */
  lemma {:induction false} FirstAppearanceOrder(xs: seq<Shaft>)
    ensures forall p, q :: 0 <= p < q < |DistinctKeys(xs)| ==>
              FirstIndex(xs, DistinctKeys(xs)[p]) < FirstIndex(xs, DistinctKeys(xs)[q])
  {
    if |xs| > 0 {
      var init := xs[..|xs| - 1];
      FirstAppearanceOrder(init);
      var d, e := DistinctKeys(init), DistinctKeys(xs);
      forall p, q | 0 <= p < q < |e|
        ensures FirstIndex(xs, e[p]) < FirstIndex(xs, e[q])
      {
        assert e[p] in d;
        assert FirstIndex(xs, e[p]) == FirstIndex(init, e[p]);
        if q < |d| {
          assert FirstIndex(xs, e[q]) == FirstIndex(init, e[q]);
        } else {
          assert FirstIndex(xs, e[q]) == |xs| - 1;
        }
      }
    }
  }

  /** Concatenation of all groups' items. */
  function Flatten(gs: seq<Group>): seq<Shaft> {
    if |gs| == 0 then [] else gs[0].items + Flatten(gs[1..])
  }

  /** Concatenation of the members of each key in turn. */
  function MembersOf(xs: seq<Shaft>, ks: seq<string>): seq<Shaft> {
    if |ks| == 0 then [] else Members(xs, ks[0]) + MembersOf(xs, ks[1..])
  }

  predicate NoDuplicates(ks: seq<string>) {
    forall p, q :: 0 <= p < q < |ks| ==> ks[p] != ks[q]
  }

  /** One more shaft adds itself once, under its own key if that is listed. */
  lemma {:induction false} MembersOfSnoc(xs: seq<Shaft>, s: Shaft, ks: seq<string>)
    requires NoDuplicates(ks)
    ensures multiset(MembersOf(xs + [s], ks))
            == multiset(MembersOf(xs, ks)) + (if Key(s) in ks then multiset{s} else multiset{})
  {
    if |ks| > 0 {
      assert (xs + [s])[..|xs + [s]| - 1] == xs;
      MembersOfSnoc(xs, s, ks[1..]);
      assert Key(s) in ks <==> Key(s) == ks[0] || Key(s) in ks[1..];
    }
  }

  lemma {:induction false} MembersOfAppend(xs: seq<Shaft>, ks: seq<string>, k: string)
    ensures MembersOf(xs, ks + [k]) == MembersOf(xs, ks) + Members(xs, k)
  {
    if |ks| == 0 {
      assert MembersOf(xs, [k]) == Members(xs, k) + MembersOf(xs, []);
    } else {
      assert (ks + [k])[1..] == ks[1..] + [k];
      MembersOfAppend(xs, ks[1..], k);
    }
  }

  /** Listing the members of every distinct key recovers the input. */
  lemma {:induction false} MembersOfDistinctKeys(xs: seq<Shaft>)
    ensures multiset(MembersOf(xs, DistinctKeys(xs))) == multiset(xs)
  {
    if |xs| > 0 {
      var init, s := xs[..|xs| - 1], xs[|xs| - 1];
      assert xs == init + [s];
      var d := DistinctKeys(init);
      MembersOfDistinctKeys(init);
      DistinctKeysDistinct(init);
      MembersOfSnoc(init, s, d);
      if Key(s) in d {
        assert DistinctKeys(xs) == d;
      } else {
        assert DistinctKeys(xs) == d + [Key(s)];
        MembersOfAppend(xs, d, Key(s));
        MembersOfAbsentKey(init, Key(s));
        assert Members(xs, Key(s)) == [s];
      }
    }
  }

  lemma DistinctKeysDistinct(xs: seq<Shaft>)
    ensures NoDuplicates(DistinctKeys(xs))
  {
    DistinctKeysExact(xs);
  }

  lemma {:induction false} FlattenCounts(gs: seq<Group>, xs: seq<Shaft>, ks: seq<string>)
    requires |gs| == |ks|
    requires forall j :: 0 <= j < |gs| ==> multiset(gs[j].items) == multiset(Members(xs, ks[j]))
    ensures multiset(Flatten(gs)) == multiset(MembersOf(xs, ks))
  {
    if |gs| > 0 {
      FlattenCounts(gs[1..], xs, ks[1..]);
    }
  }

  /** Together the groups hold every input shaft exactly as often as it
      occurs: the grouping is a partition of the input. */
  lemma GroupedIsPartition(xs: seq<Shaft>)
    ensures multiset(Flatten(Grouped(xs))) == multiset(xs)
  {
    var d := DistinctKeys(xs);
    FlattenCounts(Grouped(xs), xs, d);
    MembersOfDistinctKeys(xs);
  }

  /** The group keys are the distinct keys themselves. */
  lemma GroupKeysAreDistinctKeys(xs: seq<Shaft>)
    ensures |Grouped(xs)| == |DistinctKeys(xs)|
    ensures forall j :: 0 <= j < |Grouped(xs)| ==> Grouped(xs)[j].key == DistinctKeys(xs)[j]
  {
  }

  /** Every key that occurs has a group and every group's key occurs. */
  lemma GroupedCoversKeys(xs: seq<Shaft>)
    ensures forall i :: 0 <= i < |xs| ==> exists j :: 0 <= j < |Grouped(xs)| && Grouped(xs)[j].key == Key(xs[i])
    ensures forall j :: 0 <= j < |Grouped(xs)| ==> exists i :: 0 <= i < |xs| && Key(xs[i]) == Grouped(xs)[j].key
  {
    var g, d := Grouped(xs), DistinctKeys(xs);
    GroupKeysAreDistinctKeys(xs);
    DistinctKeysExact(xs);
    forall i | 0 <= i < |xs|
      ensures exists j :: 0 <= j < |g| && g[j].key == Key(xs[i])
    {
      assert Key(xs[i]) in d;
      var j :| 0 <= j < |d| && d[j] == Key(xs[i]);
      assert g[j].key == Key(xs[i]);
    }
    forall j | 0 <= j < |g|
      ensures exists i :: 0 <= i < |xs| && Key(xs[i]) == g[j].key
    {
      assert d[j] in d;
    }
  }

  /** No key has two groups, and groups come in first-appearance order. */
  lemma GroupedKeyOrder(xs: seq<Shaft>)
    ensures forall p, q :: 0 <= p < q < |Grouped(xs)| ==> Grouped(xs)[p].key != Grouped(xs)[q].key
    ensures forall p, q :: 0 <= p < q < |Grouped(xs)| ==>
              FirstIndex(xs, Grouped(xs)[p].key) < FirstIndex(xs, Grouped(xs)[q].key)
  {
    GroupKeysAreDistinctKeys(xs);
    DistinctKeysExact(xs);
    FirstAppearanceOrder(xs);
  }

  /** Each group holds only shafts of its key, sorted by ascending spine,
      and every input shaft of that key as often as it occurs. */
  lemma GroupedItems(xs: seq<Shaft>, j: int)
    requires 0 <= j < |Grouped(xs)|
    ensures var g := Grouped(xs)[j];
            && SortedBySpine(g.items)
            && (forall s :: s in g.items ==> Key(s) == g.key)
            && (forall s :: Key(s) == g.key ==> multiset(g.items)[s] == multiset(xs)[s])
  {
    var d := DistinctKeys(xs);
    MembersExact(xs, d[j]);
    assert Grouped(xs)[j].items == SortBySpine(Members(xs, d[j]));
    forall s | s in Grouped(xs)[j].items
      ensures Key(s) == d[j]
    {
      assert s in multiset(Members(xs, d[j]));
    }
  }
}
