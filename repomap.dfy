/** The converter from the repository CSV table to the JSON repository map
    leapp reads: which source repositories map to which targets, and the
    repository records grouped by PES id. */
module RepoMap {
  import opened Seqs
  import opened Grouping

  /** One CSV row, as `csv.reader` yields it. */
  type Row = seq<string>

  /** A repository record of the map (its JSON object). */
  datatype RepoEntry = RepoEntry(majorVersion: string, repoid: string, arch: string, channel: string, repoType: string)

  /** A map from source to targets of one major-version pair. */
  datatype Mapping = Mapping(sourceMajorVersion: string, targetMajorVersion: string, entries: seq<Bucket<string, string>>)

  /** The document the converter prints. */
  datatype RepoMapDoc = RepoMapDoc(
    datetime: string,
    versionFormat: string,
    mapping: seq<Mapping>,
    repositories: seq<Bucket<string, RepoEntry>>)

  const Timestamp := "202204020934Z"
  const VersionFormat := "1.0.0"

  /** Only rows of nine fields are read; the others are skipped (line 12). */
  predicate Usable(row: Row) {
    |row| == 9
  }

  /** The version-7 record of a row (line 23). */
  function Entry7(row: Row): RepoEntry
    requires Usable(row)
  {
    RepoEntry("7", row[0], row[5], row[7], row[6])
  }

  /** The version-8 record of a row (line 32). */
  function Entry8(row: Row): RepoEntry
    requires Usable(row)
  {
    RepoEntry("8", row[1], row[5], row[8], row[6])
  }

  function UsableRows(rows: seq<Row>): (r: seq<Row>)
    ensures forall i | 0 <= i < |r| :: Usable(r[i])
    decreases |rows|
  {
    if rows == [] then []
    else
      var init, row := rows[..|rows| - 1], rows[|rows| - 1];
      UsableRows(init) + (if Usable(row) then [row] else [])
  }

  /** The (source, target) pairs of the usable rows, in order. */
  function MapPairs(rows: seq<Row>): seq<(string, string)>
    decreases |rows|
  {
    if rows == [] then []
    else
      var init, row := rows[..|rows| - 1], rows[|rows| - 1];
      MapPairs(init) + (if Usable(row) then [(row[0], row[2])] else [])
  }

  /** The (PES id, record) pairs of the usable rows, in order: each row gives
      its version-7 record under `row[0]`, then its version-8 one under
      `row[2]`. */
  function RepoPairs(rows: seq<Row>): seq<(string, RepoEntry)>
    decreases |rows|
  {
    if rows == [] then []
    else
      var init, row := rows[..|rows| - 1], rows[|rows| - 1];
      RepoPairs(init) + (if Usable(row) then [(row[0], Entry7(row)), (row[2], Entry8(row))] else [])
  }

  function Extended(b: Bucket<string, string>, source: string, target: string): Bucket<string, string> {
    if b.key == source && target !in b.items then Bucket(source, b.items + [target]) else b
  }

  /** Lines 13-20: extend the target list of the entry for `source` unless it
      already holds `target`; a new entry when there is none. */
  method AddTarget(entries: seq<Bucket<string, string>>, source: string, target: string)
    returns (r: seq<Bucket<string, string>>)
    ensures r == AddNew(entries, source, target)
  {
    var found := false;
    r := entries;
    var i := 0;
    while i < |r|
      invariant 0 <= i <= |r| == |entries|
      invariant found <==> exists j | 0 <= j < i :: entries[j].key == source
      invariant forall j | 0 <= j < i :: r[j] == Extended(entries[j], source, target)
      invariant forall j | i <= j < |r| :: r[j] == entries[j]
    {
      if r[i].key == source {
        found := true;
        if target !in r[i].items {
          r := r[i := Bucket(source, r[i].items + [target])];
        }
      }
      i := i + 1;
    }
    assert found <==> source in Keys(entries) by {
      assert forall j | 0 <= j < |entries| :: Keys(entries)[j] == entries[j].key;
    }
    if !found {
      assert r == entries;
      r := r + [Bucket(source, [target])];
    }
  }

  /** Lines 22-29 and 31-38: append `e` to the entries of `pesid`; a new
      repository when there is none. */
  method AddEntry(repos: seq<Bucket<string, RepoEntry>>, pesid: string, e: RepoEntry)
    returns (r: seq<Bucket<string, RepoEntry>>)
    ensures r == Add(repos, pesid, e)
  {
    var found := false;
    r := repos;
    var i := 0;
    while i < |r|
      invariant 0 <= i <= |r| == |repos|
      invariant found <==> exists j | 0 <= j < i :: repos[j].key == pesid
      invariant forall j | 0 <= j < i :: r[j] == (if repos[j].key == pesid then Bucket(pesid, repos[j].items + [e]) else repos[j])
      invariant forall j | i <= j < |r| :: r[j] == repos[j]
    {
      if r[i].key == pesid {
        found := true;
        r := r[i := Bucket(pesid, r[i].items + [e])];
      }
      i := i + 1;
    }
    assert found <==> pesid in Keys(repos) by {
      assert forall j | 0 <= j < |repos| :: Keys(repos)[j] == repos[j].key;
    }
    if !found {
      assert r == repos;
      r := r + [Bucket(pesid, [e])];
    }
  }

  /** One usable row (lines 13-38). */
  method AddRow(entries: seq<Bucket<string, string>>, repos: seq<Bucket<string, RepoEntry>>, row: Row)
    returns (entries': seq<Bucket<string, string>>, repos': seq<Bucket<string, RepoEntry>>)
    requires Usable(row)
    ensures entries' == AddNew(entries, row[0], row[2])
    ensures repos' == Add(Add(repos, row[0], Entry7(row)), row[2], Entry8(row))
  {
    entries' := AddTarget(entries, row[0], row[2]);
    repos' := AddEntry(repos, row[0], Entry7(row));
    repos' := AddEntry(repos', row[2], Entry8(row));
  }

  /** The row loop (lines 11-38). */
  method Collect(rows: seq<Row>)
    returns (mappingEntries: seq<Bucket<string, string>>, repositories: seq<Bucket<string, RepoEntry>>)
    ensures mappingEntries == GroupNew(MapPairs(rows))
    ensures repositories == GroupAll(RepoPairs(rows))
  {
    mappingEntries, repositories := [], [];
    var i := 0;
    while i < |rows|
      invariant 0 <= i <= |rows|
      invariant mappingEntries == GroupNew(MapPairs(rows[..i]))
      invariant repositories == GroupAll(RepoPairs(rows[..i]))
    {
      PairsStep(rows, i);
      if |rows[i]| == 9 {
        mappingEntries, repositories := AddRow(mappingEntries, repositories, rows[i]);
      }
      i := i + 1;
    }
    assert rows[..|rows|] == rows;
  }

  /** What one more row does to the groupings built so far. */
  lemma PairsStep(rows: seq<Row>, i: nat)
    requires i < |rows|
    ensures var row, x, y := rows[i], MapPairs(rows[..i]), RepoPairs(rows[..i]);
      if Usable(row) then
        && GroupNew(MapPairs(rows[..i + 1])) == AddNew(GroupNew(x), row[0], row[2])
        && GroupAll(RepoPairs(rows[..i + 1])) == Add(Add(GroupAll(y), row[0], Entry7(row)), row[2], Entry8(row))
      else
        && MapPairs(rows[..i + 1]) == x
        && RepoPairs(rows[..i + 1]) == y
  {
    MapPairsStep(rows, i);
    RepoPairsStep(rows, i);
  }

  /** One more row extends the mapping pairs by its own pair, if usable. */
  lemma MapPairsStep(rows: seq<Row>, i: nat)
    requires i < |rows|
    ensures var row, x := rows[i], MapPairs(rows[..i]);
      && (Usable(row) ==> GroupNew(MapPairs(rows[..i + 1])) == AddNew(GroupNew(x), row[0], row[2]))
      && (!Usable(row) ==> MapPairs(rows[..i + 1]) == x)
  {
    var row := rows[i];
    assert rows[..i + 1][..i] == rows[..i] && rows[..i + 1][i] == row;
    var x := MapPairs(rows[..i]);
    if Usable(row) {
      assert MapPairs(rows[..i + 1]) == x + [(row[0], row[2])];
      GroupNewSnoc(x, (row[0], row[2]));
    } else {
      assert x + [] == x;
    }
  }

  /** One more row files its two records after those already filed, if
      usable. */
  lemma RepoPairsStep(rows: seq<Row>, i: nat)
    requires i < |rows|
    ensures var row, y := rows[i], RepoPairs(rows[..i]);
      && (Usable(row) ==> GroupAll(RepoPairs(rows[..i + 1])) == Add(Add(GroupAll(y), row[0], Entry7(row)), row[2], Entry8(row)))
      && (!Usable(row) ==> RepoPairs(rows[..i + 1]) == y)
  {
    var row := rows[i];
    assert rows[..i + 1][..i] == rows[..i] && rows[..i + 1][i] == row;
    var y := RepoPairs(rows[..i]);
    if Usable(row) {
      var a, b := (row[0], Entry7(row)), (row[2], Entry8(row));
      assert RepoPairs(rows[..i + 1]) == y + [a, b];
      assert y + [a, b] == y + [a] + [b];
      GroupAllSnoc(y, a);
      GroupAllSnoc(y + [a], b);
    } else {
      assert y + [] == y;
    }
  }

  /** Line 42: the entries without repeats; the order of a Python set is not
      fixed, so only the elements are promised. */
  method DistinctEntries(entries: seq<RepoEntry>) returns (r: seq<RepoEntry>)
    ensures Distinct(r)
    ensures forall e :: e in r <==> e in entries
  {
    r := [];
    var i := 0;
    while i < |entries|
      invariant 0 <= i <= |entries|
      invariant r == Dedup(entries[..i])
    {
      assert entries[..i + 1][..i] == entries[..i];
      if entries[i] !in r {
        r := r + [entries[i]];
      }
      i := i + 1;
    }
    assert entries[..|entries|] == entries;
  }

  /** Lines 41-42 over all repositories. */
  method DedupRepositories(repos: seq<Bucket<string, RepoEntry>>) returns (r: seq<Bucket<string, RepoEntry>>)
    ensures Keys(r) == Keys(repos)
    ensures forall i | 0 <= i < |r| :: Distinct(r[i].items)
    ensures forall i | 0 <= i < |r| :: forall e :: e in r[i].items <==> e in repos[i].items
  {
    r := repos;
    var i := 0;
    while i < |r|
      invariant 0 <= i <= |r| == |repos|
      invariant forall j | 0 <= j < |r| :: r[j].key == repos[j].key
      invariant forall j | 0 <= j < i :: Distinct(r[j].items)
      invariant forall j | 0 <= j < i :: forall e :: e in r[j].items <==> e in repos[j].items
      invariant forall j | i <= j < |r| :: r[j] == repos[j]
    {
      var items := DistinctEntries(r[i].items);
      r := r[i := Bucket(r[i].key, items)];
      i := i + 1;
    }
  }

  /** The whole converter (lines 9-45), the printing left out. */
  method BuildRepoMap(rows: seq<Row>) returns (doc: RepoMapDoc)
    ensures doc.datetime == Timestamp && doc.versionFormat == VersionFormat
    ensures doc.mapping == [Mapping("7", "8", GroupNew(MapPairs(rows)))]
    ensures Keys(doc.repositories) == Keys(GroupAll(RepoPairs(rows)))
    ensures forall i | 0 <= i < |doc.repositories| :: Distinct(doc.repositories[i].items)
    ensures forall i | 0 <= i < |doc.repositories| :: forall e ::
      e in doc.repositories[i].items <==> e in GroupAll(RepoPairs(rows))[i].items
  {
    var mappingEntries, repositories := Collect(rows);
    var deduped := DedupRepositories(repositories);
    doc := RepoMapDoc(Timestamp, VersionFormat, [Mapping("7", "8", mappingEntries)], deduped);
  }

  // ---- properties ----

  /** Rows whose length is not nine have no effect. */
  lemma {:induction false} OnlyUsableRowsMatter(rows: seq<Row>)
    ensures MapPairs(rows) == MapPairs(UsableRows(rows))
    ensures RepoPairs(rows) == RepoPairs(UsableRows(rows))
    decreases |rows|
  {
    if rows != [] {
      var init, row := rows[..|rows| - 1], rows[|rows| - 1];
      OnlyUsableRowsMatter(init);
      var u := UsableRows(init);
      if Usable(row) {
        assert (u + [row])[..|u|] == u;
      } else {
        assert u + [] == u;
      }
    }
  }

  /** A pair is listed exactly when a usable row has that source and target. */
  lemma {:induction false} MapPairsMembers(rows: seq<Row>, s: string, t: string)
    ensures (s, t) in MapPairs(rows) <==>
      exists j | 0 <= j < |rows| :: Usable(rows[j]) && rows[j][0] == s && rows[j][2] == t
    decreases |rows|
  {
    if rows != [] {
      var init := rows[..|rows| - 1];
      MapPairsMembers(init, s, t);
      assert forall j | 0 <= j < |init| :: init[j] == rows[j];
    }
  }

  /** A record is listed under a PES id exactly when a usable row gives it:
      its version-7 record under `row[0]`, its version-8 one under `row[2]`. */
  lemma {:induction false} RepoPairsMembers(rows: seq<Row>, k: string, e: RepoEntry)
    ensures (k, e) in RepoPairs(rows) <==>
      exists j | 0 <= j < |rows| :: Usable(rows[j]) &&
        ((k == rows[j][0] && e == Entry7(rows[j])) || (k == rows[j][2] && e == Entry8(rows[j])))
    decreases |rows|
  {
    if rows != [] {
      var init := rows[..|rows| - 1];
      RepoPairsMembers(init, k, e);
      assert forall j | 0 <= j < |init| :: init[j] == rows[j];
    }
  }

  /** The mapping entries have pairwise distinct sources in first-seen order;
      each lists every target seen for its source, once, in first-seen order. */
  lemma MappingShape(rows: seq<Row>)
    ensures var m := GroupNew(MapPairs(rows));
      && Distinct(Keys(m))
      && Keys(m) == Dedup(Firsts(MapPairs(rows)))
      && (forall i | 0 <= i < |m| :: m[i].items == Dedup(ValuesFor(MapPairs(rows), m[i].key)))
      && (forall i | 0 <= i < |m| :: Distinct(m[i].items))
      && (forall i, t | 0 <= i < |m| :: t in m[i].items <==> (m[i].key, t) in MapPairs(rows))
  {
    var ps := MapPairs(rows);
    var m := GroupNew(ps);
    GroupNewShape(ps);
    forall i, t | 0 <= i < |m| ensures t in m[i].items <==> (m[i].key, t) in ps {
      ValuesForMembers(ps, m[i].key, t);
    }
  }

  /** The repositories have pairwise distinct PES ids in first-seen order,
      each listing every record given for it, in row order. */
  lemma RepositoriesShape(rows: seq<Row>)
    ensures var g := GroupAll(RepoPairs(rows));
      && Distinct(Keys(g))
      && Keys(g) == Dedup(Firsts(RepoPairs(rows)))
      && (forall i | 0 <= i < |g| :: g[i].items == ValuesFor(RepoPairs(rows), g[i].key))
      && (forall i, e | 0 <= i < |g| :: e in g[i].items <==> (g[i].key, e) in RepoPairs(rows))
  {
    var ps := RepoPairs(rows);
    var g := GroupAll(ps);
    GroupAllShape(ps);
    forall i, e | 0 <= i < |g| ensures e in g[i].items <==> (g[i].key, e) in ps {
      ValuesForMembers(ps, g[i].key, e);
    }
  }

  /** Every usable row contributes its version-7 record under `row[0]` and
      its version-8 record under `row[2]`. */
  lemma RowContributes(rows: seq<Row>, j: nat)
    requires j < |rows| && Usable(rows[j])
    ensures var g := GroupAll(RepoPairs(rows));
      && (exists i | 0 <= i < |g| :: g[i].key == rows[j][0] && Entry7(rows[j]) in g[i].items)
      && (exists i | 0 <= i < |g| :: g[i].key == rows[j][2] && Entry8(rows[j]) in g[i].items)
  {
    var ps := RepoPairs(rows);
    var g := GroupAll(ps);
    var row := rows[j];
    RepositoriesShape(rows);
    RepoPairsMembers(rows, row[0], Entry7(row));
    RepoPairsMembers(rows, row[2], Entry8(row));
    InKeys(ps, g, row[0], Entry7(row));
    InKeys(ps, g, row[2], Entry8(row));
  }

  lemma InKeys(ps: seq<(string, RepoEntry)>, g: seq<Bucket<string, RepoEntry>>, k: string, e: RepoEntry)
    requires (k, e) in ps
    requires Keys(g) == Dedup(Firsts(ps))
    requires forall i, e' | 0 <= i < |g| :: e' in g[i].items <==> (g[i].key, e') in ps
    ensures exists i | 0 <= i < |g| :: g[i].key == k && e in g[i].items
  {
    var n :| 0 <= n < |ps| && ps[n] == (k, e);
    assert Firsts(ps)[n] == k;
    var i :| 0 <= i < |Keys(g)| && Keys(g)[i] == k;
    assert g[i].key == k;
  }
}
