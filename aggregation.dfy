/**
 * `working_df.groupby(selected_dims, dropna=False).agg({...: 'sum'})`: rows are
 * keyed by the tuple of their dimension cells, NaN included as an ordinary
 * value, and the four measures are summed per key.
 */
module Aggregation {
  import opened Table

  /** The group key: one cell per selected dimension, in selection order. */
  type Key = seq<Value>

  /**
   * A row as the group-by sees it: its key and its four measures. The grouping
   * itself only compares keys for equality, so it is stated for any key type.
   */
  datatype Entry<K> = Entry(key: K, m: Measures)

  /** One output row of the group-by: its key and the four sums. */
  datatype Group<K> = Group(key: K, sums: Measures)

  function KeyOf(row: Row, dims: seq<string>): Key {
    seq(|dims|, i requires 0 <= i < |dims| => CellOf(row, dims[i]))
  }

  function Entries(rows: seq<Row>, dims: seq<string>, roles: Roles): (es: seq<Entry<Key>>) {
    seq(|rows|, i requires 0 <= i < |rows| => Entry(KeyOf(rows[i], dims), MeasuresOf(rows[i], roles)))
  }

  /** The distinct keys of the entries, in the order they first occur. */
  function Keys<K(==)>(es: seq<Entry<K>>): (ks: seq<K>)
    ensures forall i, j :: 0 <= i < j < |ks| ==> ks[i] != ks[j]
    ensures forall i :: 0 <= i < |es| ==> es[i].key in ks
    ensures forall k :: k in ks ==> exists i :: 0 <= i < |es| && es[i].key == k
  {
    if es == [] then []
    else
      var init := es[..|es| - 1];
      var ks := Keys(init);
      var k := es[|es| - 1].key;
      assert forall i :: 0 <= i < |init| ==> init[i] == es[i];
      if k in ks then ks else ks + [k]
  }

  /** The four sums over the entries whose key is `k`. */
  function KeySum<K(==)>(es: seq<Entry<K>>, k: K): Measures {
    if es == [] then Zero
    else
      var last := es[|es| - 1];
      var sum := KeySum(es[..|es| - 1], k);
      if last.key == k then Add(sum, last.m) else sum
  }

  /** The four sums over all entries: the grand totals. */
  function EntriesTotal<K>(es: seq<Entry<K>>): Measures {
    if es == [] then Zero else Add(EntriesTotal(es[..|es| - 1]), es[|es| - 1].m)
  }

  /** One group per key of `ks`, in that order, each with the sums of its entries. */
  function GroupsFor<K(==)>(ks: seq<K>, es: seq<Entry<K>>): (gs: seq<Group<K>>)
    ensures |gs| == |ks|
    ensures forall i :: 0 <= i < |ks| ==> gs[i] == Group(ks[i], KeySum(es, ks[i]))
  {
    if ks == [] then []
    else
      var k := ks[|ks| - 1];
      GroupsFor(ks[..|ks| - 1], es) + [Group(k, KeySum(es, k))]
  }

  /** The group-by result over the entries: one group per distinct key. */
  function GroupBy<K(==)>(es: seq<Entry<K>>): seq<Group<K>> {
    GroupsFor(Keys(es), es)
  }

  /** The group-by result for a table. */
  function Aggregate(rows: seq<Row>, dims: seq<string>, roles: Roles): seq<Group<Key>> {
    GroupBy(Entries(rows, dims, roles))
  }

  /** The sums of the four measure columns of a group-by result. */
  function Total<K>(gs: seq<Group<K>>): Measures {
    if gs == [] then Zero else Add(Total(gs[..|gs| - 1]), gs[|gs| - 1].sums)
  }

  /** The four grand sums of a table's measure columns. */
  function RowsTotal(rows: seq<Row>, roles: Roles): Measures {
    if rows == [] then Zero else Add(RowsTotal(rows[..|rows| - 1], roles), MeasuresOf(rows[|rows| - 1], roles))
  }

  /** The group-by: sums per key, then one output row per key in first-seen order. */
  method GroupSum(rows: array<Row>, dims: seq<string>, roles: Roles) returns (groups: seq<Group<Key>>)
    ensures groups == Aggregate(rows[..], dims, roles)
  {
    ghost var es := Entries(rows[..], dims, roles);
    var keys, sums := SumByKey(rows, dims, roles);
    groups := [];
    for j := 0 to |keys|
      invariant groups == GroupsFor(keys[..j], es)
    {
      GroupsForPrefix(keys, j, es);
      groups := groups + [Group(keys[j], sums[keys[j]])];
    }
    assert keys[..|keys|] == keys;
  }

  lemma GroupsForPrefix<K>(ks: seq<K>, j: nat, es: seq<Entry<K>>)
    requires j < |ks|
    ensures GroupsFor(ks[..j + 1], es) == GroupsFor(ks[..j], es) + [Group(ks[j], KeySum(es, ks[j]))]
  {
    assert ks[..j + 1][..j] == ks[..j];
  }

  /** The pass over the rows: a dictionary from key to running sums, and the keys in first-seen order. */
  method SumByKey(rows: array<Row>, dims: seq<string>, roles: Roles)
    returns (keys: seq<Key>, sums: map<Key, Measures>)
    ensures keys == Keys(Entries(rows[..], dims, roles))
    ensures forall k :: k in sums <==> k in keys
    ensures forall k :: k in sums ==> sums[k] == KeySum(Entries(rows[..], dims, roles), k)
  {
    ghost var es := Entries(rows[..], dims, roles);
    keys, sums := [], map[];
    for i := 0 to rows.Length
      invariant (keys, sums) == Tally(es[..i])
    {
      var e := Entry(KeyOf(rows[i], dims), MeasuresOf(rows[i], roles));
      assert es[i] == e;
      TallyAppend(es[..i], e);
      assert es[..i] + [e] == es[..i + 1];
      if e.key in sums {
        sums := sums[e.key := Add(sums[e.key], e.m)];
      } else {
        keys := keys + [e.key];
        sums := sums[e.key := e.m];
      }
    }
    assert es[..rows.Length] == es;
    TallyIsKeySums(es);
  }

  /** The dictionary pass as a value: the keys in first-seen order and the running sums per key. */
  function Tally<K(==)>(es: seq<Entry<K>>): (seq<K>, map<K, Measures>) {
    if es == [] then ([], map[])
    else
      var (keys, sums) := Tally(es[..|es| - 1]);
      var e := es[|es| - 1];
      if e.key in sums then (keys, sums[e.key := Add(sums[e.key], e.m)])
      else (keys + [e.key], sums[e.key := e.m])
  }

  lemma {:induction false} TallyAppend<K>(es: seq<Entry<K>>, e: Entry<K>)
    ensures var (keys, sums) := Tally(es);
      Tally(es + [e]) == if e.key in sums then (keys, sums[e.key := Add(sums[e.key], e.m)])
                         else (keys + [e.key], sums[e.key := e.m])
  {
    assert (es + [e])[..|es|] == es;
  }

  /** The pass yields the distinct keys and, for each, the sums of its entries. */
  lemma {:induction false} TallyIsKeySums<K>(es: seq<Entry<K>>)
    ensures var (keys, sums) := Tally(es);
      && keys == Keys(es)
      && (forall k :: k in sums <==> k in keys)
      && (forall k :: k in sums ==> sums[k] == KeySum(es, k))
  {
    if es != [] {
      var init := es[..|es| - 1];
      TallyIsKeySums(init);
      var (keys, sums) := Tally(init);
      assert init + [es[|es| - 1]] == es;
      SumStep(init, keys, sums, es[|es| - 1]);
    }
  }

  /** One step of the pass: the running keys and sums over `es`, updated with `e`, are those over `es + [e]`. */
  lemma {:induction false} SumStep<K>(es: seq<Entry<K>>, keys: seq<K>, sums: map<K, Measures>, e: Entry<K>)
    requires keys == Keys(es)
    requires forall k :: k in sums <==> k in keys
    requires forall k :: k in sums ==> sums[k] == KeySum(es, k)
    ensures var keys' := if e.key in sums then keys else keys + [e.key];
      var sums' := if e.key in sums then sums[e.key := Add(sums[e.key], e.m)] else sums[e.key := e.m];
      && keys' == Keys(es + [e])
      && (forall k :: k in sums' <==> k in keys')
      && (forall k :: k in sums' ==> sums'[k] == KeySum(es + [e], k))
  {
    assert (es + [e])[..|es|] == es;
    if e.key !in sums {
      KeySumOfAbsentKey(es, e.key);
    }
    forall k | true ensures KeySum(es + [e], k) == if e.key == k then Add(KeySum(es, k), e.m) else KeySum(es, k) {
      KeySumAppend(es, e, k);
    }
  }

  /** One more entry adds to the sums of its own key only. */
  lemma {:induction false} KeySumAppend<K>(es: seq<Entry<K>>, e: Entry<K>, k: K)
    ensures KeySum(es + [e], k) == if e.key == k then Add(KeySum(es, k), e.m) else KeySum(es, k)
  {
    assert (es + [e])[..|es|] == es;
  }

  /** A key that no entry has sums to zero. */
  lemma {:induction false} KeySumOfAbsentKey<K>(es: seq<Entry<K>>, k: K)
    requires k !in Keys(es)
    ensures KeySum(es, k) == Zero
  {
    if es != [] {
      KeySumOfAbsentKey(es[..|es| - 1], k);
    }
  }

  /** One more entry adds its measures to its own group's sums and to no other. */
  lemma {:induction false} GroupsForAppend<K>(ks: seq<K>, es: seq<Entry<K>>, e: Entry<K>)
    requires forall i, j :: 0 <= i < j < |ks| ==> ks[i] != ks[j]
    ensures var before := Total(GroupsFor(ks, es));
      Total(GroupsFor(ks, es + [e])) == if e.key in ks then Add(before, e.m) else before
  {
    if ks != [] {
      var init := ks[..|ks| - 1];
      var k := ks[|ks| - 1];
      var es' := es + [e];
      GroupsForAppend(init, es, e);
      assert es'[..|es|] == es;
      var before, after := GroupsFor(init, es), GroupsFor(init, es');
      var gBefore, gAfter := Group(k, KeySum(es, k)), Group(k, KeySum(es', k));
      assert GroupsFor(ks, es) == before + [gBefore];
      assert GroupsFor(ks, es') == after + [gAfter];
      assert (before + [gBefore])[..|before|] == before;
      assert (after + [gAfter])[..|after|] == after;
      if e.key == k {
        assert e.key !in init;
      } else if e.key in init {
        assert Total(after) == Add(Total(before), e.m);
      }
    }
  }

  /** The group-by keeps the grand totals: the groups' sums add up to the entries' sums. */
  lemma {:induction false} GroupByKeepsTotals<K>(es: seq<Entry<K>>)
    ensures Total(GroupBy(es)) == EntriesTotal(es)
  {
    if es != [] {
      var init := es[..|es| - 1];
      var e := es[|es| - 1];
      var ks := Keys(init);
      assert es == init + [e];
      GroupByKeepsTotals(init);
      GroupsForAppend(ks, init, e);
      if e.key !in ks {
        KeySumOfAbsentKey(init, e.key);
        assert (ks + [e.key])[..|ks|] == ks;
      }
    }
  }

  /** The entries of a table carry its rows' measures. */
  lemma {:induction false} EntriesTotalIsRowsTotal(rows: seq<Row>, dims: seq<string>, roles: Roles)
    ensures EntriesTotal(Entries(rows, dims, roles)) == RowsTotal(rows, roles)
  {
    if rows != [] {
      var init := rows[..|rows| - 1];
      EntriesTotalIsRowsTotal(init, dims, roles);
      assert Entries(rows, dims, roles)[..|init|] == Entries(init, dims, roles);
    }
  }

  /** The group-by keeps the grand totals of the table's measure columns. */
  lemma {:induction false} AggregateKeepsTotals(rows: seq<Row>, dims: seq<string>, roles: Roles)
    ensures Total(Aggregate(rows, dims, roles)) == RowsTotal(rows, roles)
  {
    GroupByKeepsTotals(Entries(rows, dims, roles));
    EntriesTotalIsRowsTotal(rows, dims, roles);
  }

  /** Exactly one group per distinct key of the rows, holding the sums of the rows with that key. */
  lemma {:induction false} OneGroupPerKey(rows: seq<Row>, dims: seq<string>, roles: Roles)
    ensures var gs := Aggregate(rows, dims, roles);
      && (forall i, j :: 0 <= i < j < |gs| ==> gs[i].key != gs[j].key)
      && (forall i :: 0 <= i < |rows| ==> exists g :: g in gs && g.key == KeyOf(rows[i], dims))
      && (forall g :: g in gs ==>
            && g.sums == KeySum(Entries(rows, dims, roles), g.key)
            && exists i :: 0 <= i < |rows| && KeyOf(rows[i], dims) == g.key)
  {
    var es := Entries(rows, dims, roles);
    var gs := Aggregate(rows, dims, roles);
    forall i | 0 <= i < |rows| ensures exists g :: g in gs && g.key == KeyOf(rows[i], dims) {
      assert es[i].key == KeyOf(rows[i], dims);
      GroupOfEntry(es, i);
    }
    forall g | g in gs ensures exists i :: 0 <= i < |rows| && KeyOf(rows[i], dims) == g.key {
      EntryOfGroup(es, g);
      var i :| 0 <= i < |es| && es[i].key == g.key;
      assert KeyOf(rows[i], dims) == g.key;
    }
  }

  /** Every entry's key has a group. */
  lemma {:induction false} GroupOfEntry<K>(es: seq<Entry<K>>, i: nat)
    requires i < |es|
    ensures exists g :: g in GroupBy(es) && g.key == es[i].key
  {
    var ks := Keys(es);
    var j :| 0 <= j < |ks| && ks[j] == es[i].key;
    assert GroupBy(es)[j] in GroupBy(es);
  }

  /** Every group has an entry with its key, and holds the sums of its key. */
  lemma {:induction false} EntryOfGroup<K>(es: seq<Entry<K>>, g: Group<K>)
    requires g in GroupBy(es)
    ensures g.sums == KeySum(es, g.key)
    ensures exists i :: 0 <= i < |es| && es[i].key == g.key
  {
    var ks := Keys(es);
    var gs := GroupBy(es);
    var j :| 0 <= j < |gs| && gs[j] == g;
    assert ks[j] in ks;
  }

  /**
   * `dropna=False`: rows are never dropped for a missing key cell, and two rows
   * whose dimension cells agree, missing ones included, fall into one group.
   */
  lemma {:induction false} MissingCellsGroupTogether(rows: seq<Row>, dims: seq<string>, roles: Roles, i: nat, j: nat)
    requires i < |rows| && j < |rows|
    requires forall k :: 0 <= k < |dims| ==> CellOf(rows[i], dims[k]) == CellOf(rows[j], dims[k])
    ensures exists g :: g in Aggregate(rows, dims, roles) && g.key == KeyOf(rows[i], dims) && g.key == KeyOf(rows[j], dims)
  {
    var es := Entries(rows, dims, roles);
    assert KeyOf(rows[i], dims) == KeyOf(rows[j], dims);
    assert es[i].key == KeyOf(rows[i], dims);
    GroupOfEntry(es, i);
  }

  /** A missing key cell is a key value of its own: it never shares a group with a present value. */
  lemma {:induction false} MissingKeyIsDistinct(a: Row, b: Row, dims: seq<string>, k: nat)
    requires k < |dims| && CellOf(a, dims[k]) == Missing && CellOf(b, dims[k]) != Missing
    ensures KeyOf(a, dims) != KeyOf(b, dims)
  {
    assert KeyOf(a, dims)[k] != KeyOf(b, dims)[k];
  }
}
