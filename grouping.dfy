/** Insertion-ordered grouping, as Python code builds it with a dict of lists
    or with a list of `{key: ..., items: [...]}` records: the first time a key
    is seen a new entry is appended at the end, later values are appended to
    that key's list. */
module Grouping {
  import opened Seqs

  datatype Bucket<K, V> = Bucket(key: K, items: seq<V>)

  function Keys<K, V>(g: seq<Bucket<K, V>>): seq<K> {
    seq(|g|, i requires 0 <= i < |g| => g[i].key)
  }

  function Firsts<K, V>(ps: seq<(K, V)>): seq<K> {
    seq(|ps|, i requires 0 <= i < |ps| => ps[i].0)
  }

  /** The values paired with `k` in `ps`, in order. */
  function ValuesFor<K(==), V>(ps: seq<(K, V)>, k: K): seq<V>
    decreases |ps|
  {
    if ps == [] then []
    else
      var last := ps[|ps| - 1];
      ValuesFor(ps[..|ps| - 1], k) + (if last.0 == k then [last.1] else [])
  }

  /** Append `v` to the list of every entry keyed `k`; a new entry `[v]` at the
      end when there is none. */
  function Add<K(==), V>(g: seq<Bucket<K, V>>, k: K, v: V): seq<Bucket<K, V>> {
    if k in Keys(g) then
      seq(|g|, i requires 0 <= i < |g| =>
        if g[i].key == k then Bucket(k, g[i].items + [v]) else g[i])
    else g + [Bucket(k, [v])]
  }

  /** Like `Add`, but a value already in the entry's list is not appended again. */
  function AddNew<K(==), V(==)>(g: seq<Bucket<K, V>>, k: K, v: V): seq<Bucket<K, V>> {
    if k in Keys(g) then
      seq(|g|, i requires 0 <= i < |g| =>
        if g[i].key == k && v !in g[i].items then Bucket(k, g[i].items + [v]) else g[i])
    else g + [Bucket(k, [v])]
  }

  /** The grouping `Add` builds from the pairs, one after the other. */
  function GroupAll<K(==), V>(ps: seq<(K, V)>): seq<Bucket<K, V>>
    decreases |ps|
  {
    if ps == [] then []
    else
      var last := ps[|ps| - 1];
      Add(GroupAll(ps[..|ps| - 1]), last.0, last.1)
  }

  /** The grouping `AddNew` builds from the pairs, one after the other. */
  function GroupNew<K(==), V(==)>(ps: seq<(K, V)>): seq<Bucket<K, V>>
    decreases |ps|
  {
    if ps == [] then []
    else
      var last := ps[|ps| - 1];
      AddNew(GroupNew(ps[..|ps| - 1]), last.0, last.1)
  }

  lemma GroupAllSnoc<K, V>(ps: seq<(K, V)>, p: (K, V))
    ensures GroupAll(ps + [p]) == Add(GroupAll(ps), p.0, p.1)
  {
    assert (ps + [p])[..|ps|] == ps;
  }

  lemma GroupNewSnoc<K, V>(ps: seq<(K, V)>, p: (K, V))
    ensures GroupNew(ps + [p]) == AddNew(GroupNew(ps), p.0, p.1)
  {
    assert (ps + [p])[..|ps|] == ps;
  }

  lemma AddAt<K, V>(g: seq<Bucket<K, V>>, k: K, v: V)
    ensures Keys(Add(g, k, v)) == if k in Keys(g) then Keys(g) else Keys(g) + [k]
    ensures forall i | 0 <= i < |g| :: Add(g, k, v)[i].items == g[i].items + (if g[i].key == k then [v] else [])
    ensures k !in Keys(g) ==> Add(g, k, v)[|g|].items == [v]
  {
    forall i | 0 <= i < |g| ensures Add(g, k, v)[i].items == g[i].items + (if g[i].key == k then [v] else []) {
      assert Keys(g)[i] == g[i].key;
    }
  }

  lemma AddNewAt<K, V>(g: seq<Bucket<K, V>>, k: K, v: V)
    ensures Keys(AddNew(g, k, v)) == if k in Keys(g) then Keys(g) else Keys(g) + [k]
    ensures forall i | 0 <= i < |g| ::
      AddNew(g, k, v)[i].items == (if g[i].key == k && v !in g[i].items then g[i].items + [v] else g[i].items)
    ensures k !in Keys(g) ==> AddNew(g, k, v)[|g|].items == [v]
  {
    forall i | 0 <= i < |g| ensures AddNew(g, k, v)[i].items ==
      (if g[i].key == k && v !in g[i].items then g[i].items + [v] else g[i].items)
    {
      assert Keys(g)[i] == g[i].key;
    }
  }

  lemma DedupSnoc<T>(x: seq<T>, v: T)
    ensures Dedup(x + [v]) == if v in Dedup(x) then Dedup(x) else Dedup(x) + [v]
  {
    assert (x + [v])[..|x|] == x;
  }

  lemma DedupStep<T>(items: seq<T>, x: seq<T>, v: T, same: bool)
    requires items == Dedup(x)
    ensures (if same && v !in items then items + [v] else items) == Dedup(x + (if same then [v] else []))
  {
    if same {
      DedupSnoc(x, v);
    } else {
      assert x + [] == x;
    }
  }

  lemma {:induction false} ValuesForAbsent<K, V>(ps: seq<(K, V)>, k: K)
    requires k !in Firsts(ps)
    ensures ValuesFor(ps, k) == []
    decreases |ps|
  {
    if ps != [] {
      var init := ps[..|ps| - 1];
      assert Firsts(ps)[|ps| - 1] == ps[|ps| - 1].0;
      assert Firsts(init) == Firsts(ps)[..|ps| - 1];
      ValuesForAbsent(init, k);
    }
  }

  /** A value is listed under `k` exactly when the pair `(k, v)` occurs. */
  lemma {:induction false} ValuesForMembers<K, V>(ps: seq<(K, V)>, k: K, v: V)
    ensures v in ValuesFor(ps, k) <==> (k, v) in ps
    decreases |ps|
  {
    if ps != [] {
      var init := ps[..|ps| - 1];
      ValuesForMembers(init, k, v);
      assert ps == init + [ps[|ps| - 1]];
    }
  }

  lemma ValuesForSnoc<K, V>(ps: seq<(K, V)>, p: (K, V), k: K)
    ensures ValuesFor(ps + [p], k) == ValuesFor(ps, k) + (if p.0 == k then [p.1] else [])
  {
    assert (ps + [p])[..|ps|] == ps;
  }

  /** One `Add` keeps each entry listing the values of its key. */
  lemma AddKeepsValues<K, V>(g: seq<Bucket<K, V>>, ps: seq<(K, V)>, k: K, v: V)
    requires forall i | 0 <= i < |g| :: g[i].items == ValuesFor(ps, g[i].key)
    requires k !in Keys(g) ==> ValuesFor(ps, k) == []
    ensures var g' := Add(g, k, v);
      forall i | 0 <= i < |g'| :: g'[i].items == ValuesFor(ps + [(k, v)], g'[i].key)
  {
    var g' := Add(g, k, v);
    AddAt(g, k, v);
    forall i | 0 <= i < |g'| ensures g'[i].items == ValuesFor(ps + [(k, v)], g'[i].key) {
      assert Keys(g')[i] == g'[i].key;
      ValuesForSnoc(ps, (k, v), g'[i].key);
      if i < |g| {
        assert Keys(g)[i] == g[i].key;
      }
    }
  }

  /** One `AddNew` keeps each entry listing the values of its key, first
      seen first and once each. */
  lemma AddNewKeepsValues<K, V>(g: seq<Bucket<K, V>>, ps: seq<(K, V)>, k: K, v: V)
    requires forall i | 0 <= i < |g| :: g[i].items == Dedup(ValuesFor(ps, g[i].key))
    requires k !in Keys(g) ==> ValuesFor(ps, k) == []
    ensures var g' := AddNew(g, k, v);
      forall i | 0 <= i < |g'| :: g'[i].items == Dedup(ValuesFor(ps + [(k, v)], g'[i].key))
  {
    var g' := AddNew(g, k, v);
    AddNewAt(g, k, v);
    forall i | 0 <= i < |g'| ensures g'[i].items == Dedup(ValuesFor(ps + [(k, v)], g'[i].key)) {
      var key := g'[i].key;
      assert Keys(g')[i] == key;
      ValuesForSnoc(ps, (k, v), key);
      if i < |g| {
        assert Keys(g)[i] == g[i].key;
        DedupStep(g[i].items, ValuesFor(ps, key), v, key == k);
      } else {
        DedupSnoc([], v);
      }
    }
  }

  lemma InitLast<K, V>(ps: seq<(K, V)>)
    requires ps != []
    ensures ps[..|ps| - 1] + [(ps[|ps| - 1].0, ps[|ps| - 1].1)] == ps
  {
  }

  lemma FirstsSnoc<K, V>(ps: seq<(K, V)>)
    requires ps != []
    ensures Firsts(ps) == Firsts(ps[..|ps| - 1]) + [ps[|ps| - 1].0]
  {
  }

  /** The keys are the distinct first components in first-seen order. */
  lemma {:induction false} GroupAllKeys<K, V>(ps: seq<(K, V)>)
    ensures Keys(GroupAll(ps)) == Dedup(Firsts(ps))
    decreases |ps|
  {
    if ps != [] {
      var init, p := ps[..|ps| - 1], ps[|ps| - 1];
      GroupAllKeys(init);
      FirstsSnoc(ps);
      DedupSnoc(Firsts(init), p.0);
      AddAt(GroupAll(init), p.0, p.1);
    }
  }

  /** Each entry lists every value paired with its key, in order. */
  lemma {:induction false} GroupAllValues<K, V>(ps: seq<(K, V)>)
    ensures forall i | 0 <= i < |GroupAll(ps)| :: GroupAll(ps)[i].items == ValuesFor(ps, GroupAll(ps)[i].key)
    decreases |ps|
  {
    if ps != [] {
      var init, p := ps[..|ps| - 1], ps[|ps| - 1];
      var g := GroupAll(init);
      GroupAllValues(init);
      GroupAllKeys(init);
      if p.0 !in Keys(g) {
        ValuesForAbsent(init, p.0);
      }
      AddKeepsValues(g, init, p.0, p.1);
      InitLast(ps);
    }
  }

  lemma GroupAllShape<K, V>(ps: seq<(K, V)>)
    ensures Keys(GroupAll(ps)) == Dedup(Firsts(ps))
    ensures forall i | 0 <= i < |GroupAll(ps)| :: GroupAll(ps)[i].items == ValuesFor(ps, GroupAll(ps)[i].key)
  {
    GroupAllKeys(ps);
    GroupAllValues(ps);
  }

  lemma {:induction false} GroupNewKeys<K, V>(ps: seq<(K, V)>)
    ensures Keys(GroupNew(ps)) == Dedup(Firsts(ps))
    decreases |ps|
  {
    if ps != [] {
      var init, p := ps[..|ps| - 1], ps[|ps| - 1];
      GroupNewKeys(init);
      FirstsSnoc(ps);
      DedupSnoc(Firsts(init), p.0);
      AddNewAt(GroupNew(init), p.0, p.1);
    }
  }

  lemma {:induction false} GroupNewValues<K, V>(ps: seq<(K, V)>)
    ensures forall i | 0 <= i < |GroupNew(ps)| :: GroupNew(ps)[i].items == Dedup(ValuesFor(ps, GroupNew(ps)[i].key))
    decreases |ps|
  {
    if ps != [] {
      var init, p := ps[..|ps| - 1], ps[|ps| - 1];
      var g := GroupNew(init);
      GroupNewValues(init);
      GroupNewKeys(init);
      if p.0 !in Keys(g) {
        ValuesForAbsent(init, p.0);
      }
      AddNewKeepsValues(g, init, p.0, p.1);
      InitLast(ps);
    }
  }

  /** As `GroupAllShape`, with each entry's values in first-seen order and
      without repeats. */
  lemma GroupNewShape<K, V>(ps: seq<(K, V)>)
    ensures Keys(GroupNew(ps)) == Dedup(Firsts(ps))
    ensures forall i | 0 <= i < |GroupNew(ps)| :: GroupNew(ps)[i].items == Dedup(ValuesFor(ps, GroupNew(ps)[i].key))
  {
    GroupNewKeys(ps);
    GroupNewValues(ps);
  }
}
