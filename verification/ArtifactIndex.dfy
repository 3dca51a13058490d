/**
 The artifact index of the file store (src/storage/fileStateStore.ts): artifact records by id, and the ids each job
 or worker owns. A JavaScript `Map` is a table that remembers the order its keys were first set in.
 */
module ArtifactIndex {
  import opened Wrappers

  datatype Artifact = Artifact(
    artifactId: string, kind: string, path: string, repoPath: string, createdAt: string,
    jobId: Option<string>, workerId: Option<string>)

  function OwnerKey(a: Artifact): string {
    if a.jobId.Some? then "job:" + a.jobId.value
    else if a.workerId.Some? then "worker:" + a.workerId.value
    else "unknown"
  }

  /** Two records have the same owner: their job if they name one, or else their worker, or else nobody. */
  predicate SameOwner(a: Artifact, b: Artifact) {
    if a.jobId.Some? || b.jobId.Some? then a.jobId == b.jobId else a.workerId == b.workerId
  }

  /** Their owner keys are the same exactly then. */
  lemma OwnerKeysMean(a: Artifact, b: Artifact)
    ensures OwnerKey(a) == OwnerKey(b) <==> SameOwner(a, b)
  {
    var x, y := OwnerKey(a), OwnerKey(b);
    assert a.jobId.Some? ==> x[0] == 'j' && x[4..] == a.jobId.value;
    assert b.jobId.Some? ==> y[0] == 'j' && y[4..] == b.jobId.value;
    assert a.jobId.None? && a.workerId.Some? ==> x[0] == 'w' && x[7..] == a.workerId.value;
    assert b.jobId.None? && b.workerId.Some? ==> y[0] == 'w' && y[7..] == b.workerId.value;
    assert a.jobId.None? && a.workerId.None? ==> x[0] == 'u';
    assert b.jobId.None? && b.workerId.None? ==> y[0] == 'u';
  }

  type Rows = map<string, Artifact>

  datatype Table = Table(order: seq<string>, rows: Rows) {
    ghost predicate Valid() {
      && (forall i, j :: 0 <= i < j < |order| ==> order[i] != order[j])
      && (forall id :: id in order <==> id in rows)
      && (forall id :: id in rows ==> rows[id].artifactId == id)
    }

    function Set(a: Artifact): Table {
      Table(if a.artifactId in rows then order else order + [a.artifactId], rows[a.artifactId := a])
    }

    function Values(): seq<Artifact>
      requires Valid()
    {
      seq(|order|, i requires 0 <= i < |order| => assert order[i] in order; rows[order[i]])
    }
  }

  datatype Cache = Cache(items: seq<Artifact>, byId: Table, ownerArtifactIds: map<string, set<string>>)

  function Ids(items: seq<Artifact>): set<string> {
    set a | a in items :: a.artifactId
  }

  /** What a list of records says about each id: a later record replaces an earlier one. */
  function LastWins(items: seq<Artifact>): Rows
    decreases |items|
  {
    if items == [] then map[]
    else
      var last := items[|items| - 1];
      LastWins(items[..|items| - 1])[last.artifactId := last]
  }

  /** The index by owner is exactly the inverse of the index by id, with no empty sets. */
  ghost predicate Inverse(rows: Rows, owners: map<string, set<string>>) {
    && (forall o, id :: (o in owners && id in owners[o]) <==> (id in rows && OwnerKey(rows[id]) == o))
    && (forall o :: o in owners ==> owners[o] != {})
  }

  ghost predicate Indexed(cache: Cache) {
    cache.byId.Valid() && cache.items == cache.byId.Values() && Inverse(cache.byId.rows, cache.ownerArtifactIds)
  }

  lemma {:induction false} LastWinsKeys(items: seq<Artifact>)
    ensures LastWins(items).Keys == Ids(items)
    decreases |items|
  {
    if items != [] {
      var front, last := items[..|items| - 1], items[|items| - 1];
      LastWinsKeys(front);
      assert items == front + [last];
      assert Ids(items) == Ids(front) + {last.artifactId};
    }
  }

  /** The record kept for an id is the last one given for it. */
  lemma {:induction false} LastWinsAt(items: seq<Artifact>, k: nat)
    requires k < |items| && forall j :: k < j < |items| ==> items[j].artifactId != items[k].artifactId
    ensures items[k].artifactId in LastWins(items) && LastWins(items)[items[k].artifactId] == items[k]
    decreases |items|
  {
    if k < |items| - 1 {
      LastWinsAt(items[..|items| - 1], k);
    }
  }

  lemma {:induction false} LastWinsConcat(a: seq<Artifact>, b: seq<Artifact>)
    ensures LastWins(a + b) == LastWins(a) + LastWins(b)
    decreases |b|
  {
    if b == [] {
      assert a + b == a;
    } else {
      LastWinsConcat(a, b[..|b| - 1]);
      assert (a + b)[..|a + b| - 1] == a + b[..|b| - 1];
    }
  }

  lemma ValueAt(t: Table, k: nat)
    requires t.Valid() && k < |t.order|
    ensures t.order[k] in t.rows && t.Values()[k] == t.rows[t.order[k]] && t.Values()[k].artifactId == t.order[k]
  {
    assert t.order[k] in t.order;
  }

  lemma ReadBack(t: Table, k: nat)
    requires t.Valid() && k < |t.order|
    ensures t.order[k] in LastWins(t.Values()) && LastWins(t.Values())[t.order[k]] == t.rows[t.order[k]]
  {
    ValueAt(t, k);
    forall j | k < j < |t.order| ensures t.Values()[j].artifactId != t.Values()[k].artifactId {
      ValueAt(t, j);
    }
    LastWinsAt(t.Values(), k);
  }

  /** Listing a table and reading it back gives the same rows. */
  lemma TableRoundTrip(t: Table)
    requires t.Valid()
    ensures LastWins(t.Values()) == t.rows
  {
    LastWinsKeys(t.Values());
    forall id | id in t.rows ensures id in LastWins(t.Values()) && LastWins(t.Values())[id] == t.rows[id] {
      assert id in t.order;
      var k :| 0 <= k < |t.order| && t.order[k] == id;
      ReadBack(t, k);
    }
    forall id | id in Ids(t.Values()) ensures id in t.rows {
      var a :| a in t.Values() && a.artifactId == id;
      var k :| 0 <= k < |t.Values()| && t.Values()[k] == a;
      ValueAt(t, k);
    }
  }

  lemma SetKeepsTable(t: Table, a: Artifact)
    requires t.Valid()
    ensures t.Set(a).Valid()
  {
    var t' := t.Set(a);
    forall id ensures id in t'.order <==> id in t'.rows {
      assert id in t.order <==> id in t.rows;
    }
  }

  function Unlink(owners: map<string, set<string>>, owner: string, id: string): map<string, set<string>> {
    if owner !in owners then owners
    else if owners[owner] - {id} == {} then owners - {owner}
    else owners[owner := owners[owner] - {id}]
  }

  /** The two index updates of one record keep the indexes inverse. */
  lemma RelinkKeepsInverse(rows: Rows, owners: map<string, set<string>>, a: Artifact)
    requires Inverse(rows, owners)
    ensures var unlinked := if a.artifactId in rows && OwnerKey(rows[a.artifactId]) != OwnerKey(a)
                            then Unlink(owners, OwnerKey(rows[a.artifactId]), a.artifactId) else owners;
      var linked := if OwnerKey(a) in unlinked then unlinked[OwnerKey(a)] else {};
      Inverse(rows[a.artifactId := a], unlinked[OwnerKey(a) := linked + {a.artifactId}])
  {
    if a.artifactId in rows {
      var previous := OwnerKey(rows[a.artifactId]);
      assert previous in owners && a.artifactId in owners[previous];
    }
  }

  /** `buildArtifactIndexCache`. */
  method BuildArtifactIndexCache(items: seq<Artifact>) returns (cache: Cache)
    ensures Indexed(cache) && cache.byId.rows == LastWins(items)
  {
    var byId := Table([], map[]);
    var ownerArtifactIds: map<string, set<string>> := map[];
    var index := 0;
    while index < |items|
      invariant 0 <= index <= |items|
      invariant byId.Valid() && byId.rows == LastWins(items[..index])
      invariant Inverse(byId.rows, ownerArtifactIds)
    {
      var item := items[index];
      ghost var rows, owners := byId.rows, ownerArtifactIds;
      if item.artifactId in byId.rows && OwnerKey(byId.rows[item.artifactId]) != OwnerKey(item) {
        ownerArtifactIds := Unlink(ownerArtifactIds, OwnerKey(byId.rows[item.artifactId]), item.artifactId);
      }
      SetKeepsTable(byId, item);
      byId := byId.Set(item);
      var ownerIds := if OwnerKey(item) in ownerArtifactIds then ownerArtifactIds[OwnerKey(item)] else {};
      ownerArtifactIds := ownerArtifactIds[OwnerKey(item) := ownerIds + {item.artifactId}];
      RelinkKeepsInverse(rows, owners, item);
      assert items[..index + 1][..|items[..index + 1]| - 1] == items[..index];
      index := index + 1;
    }
    assert items[..index] == items;
    cache := Cache(byId.Values(), byId, ownerArtifactIds);
  }

  /**
   The rows after one owner's references are replaced: its old ones go, the new ones come, taking over where they must.
   */
  function Replaced(rows: Rows, ownerKey: string, next: seq<Artifact>): Rows {
    (map id | id in rows && OwnerKey(rows[id]) != ownerKey :: rows[id]) + LastWins(next)
  }

  method Delete(t: Table, ids: set<string>) returns (deleted: Table)
    requires t.Valid()
    ensures deleted.Valid() && deleted.rows == t.rows - ids
  {
    deleted := Table([], t.rows - ids);
    var index := 0;
    while index < |t.order|
      invariant 0 <= index <= |t.order|
      invariant forall id :: id in deleted.order <==> id in t.order[..index] && id !in ids
      invariant forall i, j :: 0 <= i < j < |deleted.order| ==> deleted.order[i] != deleted.order[j]
      invariant deleted.rows == t.rows - ids
    {
      var id := t.order[index];
      assert t.order[..index + 1] == t.order[..index] + [id];
      assert id !in t.order[..index];
      if id !in ids {
        deleted := deleted.(order := deleted.order + [id]);
      }
      index := index + 1;
    }
    assert t.order[..index] == t.order;
  }

  function OwnedIds(owners: map<string, set<string>>, o: string): set<string> {
    if o in owners then owners[o] else {}
  }

  lemma OwnedIff(rows: Rows, owners: map<string, set<string>>, o: string, id: string)
    requires Inverse(rows, owners)
    ensures id in OwnedIds(owners, o) <==> id in rows && OwnerKey(rows[id]) == o
  {
    assert o in owners && id in owners[o] <==> id in rows && OwnerKey(rows[id]) == o;
  }

  /** `replaceArtifactReferencesForOwner`. */
  method ReplaceArtifactReferencesForOwner(cache: Option<Cache>, ownerKey: string, nextReferences: seq<Artifact>)
    returns (next: Cache)
    ensures Indexed(next)
    ensures next.byId.rows == Replaced(LastWins(if cache.Some? then cache.value.items else []), ownerKey,
            nextReferences)
  {
    var artifactCache := BuildArtifactIndexCache(if cache.Some? then cache.value.items else []);
    var owners := artifactCache.ownerArtifactIds;
    var existingIds := OwnedIds(owners, ownerKey);
    var byId := Delete(artifactCache.byId, existingIds);
    ghost var rows := artifactCache.byId.rows;
    assert byId.rows == map id | id in rows && OwnerKey(rows[id]) != ownerKey :: rows[id] by {
      forall id | id in rows ensures id in existingIds <==> OwnerKey(rows[id]) == ownerKey {
        OwnedIff(rows, owners, ownerKey, id);
      }
    }
    TableRoundTrip(byId);
    LastWinsConcat(byId.Values(), nextReferences);
    next := BuildArtifactIndexCache(byId.Values() + nextReferences);
  }

  /** A cache lists its rows: replacing in a cache is `Replaced` on its rows. */
  lemma CacheRows(cache: Cache)
    requires Indexed(cache)
    ensures LastWins(cache.items) == cache.byId.rows
  {
    TableRoundTrip(cache.byId);
  }

  ghost predicate AllOwnedBy(items: seq<Artifact>, o: string) {
    forall a :: a in items ==> OwnerKey(a) == o
  }

  /** The records kept are among those given. */
  lemma {:induction false} LastWinsFrom(items: seq<Artifact>, id: string)
    requires id in LastWins(items)
    ensures LastWins(items)[id] in items
    decreases |items|
  {
    if items[|items| - 1].artifactId != id {
      LastWinsFrom(items[..|items| - 1], id);
    }
  }

  lemma ReplacedAt(rows: Rows, ownerKey: string, next: seq<Artifact>, id: string)
    requires AllOwnedBy(next, ownerKey)
    ensures var rows' := Replaced(rows, ownerKey, next);
      if id in Ids(next) then id in rows' && OwnerKey(rows'[id]) == ownerKey
          else (id in rows' <==> id in rows && OwnerKey(rows[id]) != ownerKey)
               && (id in rows' ==> rows'[id] == rows[id])
  {
    LastWinsKeys(next);
    if id in Ids(next) {
      LastWinsFrom(next, id);
    }
  }

  /** The owner gets exactly the new ids; every other owner loses exactly the ids taken over. */
  lemma ReplaceOwners(rows: Rows, owners: map<string, set<string>>, ownerKey: string, next: seq<Artifact>,
      owners': map<string, set<string>>)
    requires Inverse(rows, owners) && Inverse(Replaced(rows, ownerKey, next), owners') && AllOwnedBy(next, ownerKey)
    ensures OwnedIds(owners', ownerKey) == Ids(next)
    ensures forall o :: o != ownerKey ==> OwnedIds(owners', o) == OwnedIds(owners, o) - Ids(next)
  {
    forall o, id ensures id in OwnedIds(owners', o) <==>
        if o == ownerKey then id in Ids(next) else id in OwnedIds(owners, o) - Ids(next) {
      ReplacedAt(rows, ownerKey, next, id);
      OwnedIff(rows, owners, o, id);
      OwnedIff(Replaced(rows, ownerKey, next), owners', o, id);
    }
  }

  // ---- Replacing against rebuilding ----

  /** What each owner's result file lists at present. */
  type Contents = map<string, seq<Artifact>>

  ghost predicate Owned(contents: Contents) {
    forall o :: o in contents ==> AllOwnedBy(contents[o], o)
  }

  ghost predicate Disjoint(contents: Contents) {
    forall o, p :: o in contents && p in contents && o != p ==> Ids(contents[o]) !! Ids(contents[p])
  }

  /** All references in the order the owners are listed in, which is what `rebuildArtifactIndex` reads. */
  function Collected(order: seq<string>, contents: Contents): seq<Artifact>
    requires forall o :: o in order ==> o in contents
  {
    if order == [] then [] else contents[order[0]] + Collected(order[1..], contents)
  }

  function Rebuilt(order: seq<string>, contents: Contents): Rows
    requires forall o :: o in order ==> o in contents
  {
    LastWins(Collected(order, contents))
  }

  /** Owner `order[k]` is the last that lists this id. */
  ghost predicate Wins(order: seq<string>, contents: Contents, k: nat, id: string)
    requires forall o :: o in order ==> o in contents
    requires k < |order|
  {
    && id in Ids(contents[order[k]])
    && forall j :: k < j < |order| ==> id !in Ids(contents[order[j]])
  }

  /** A rebuild keeps, for each listed id, the record of the last owner that lists it. */
  lemma {:induction false} RebuiltAt(order: seq<string>, contents: Contents, id: string)
    requires forall o :: o in order ==> o in contents
    ensures id in Rebuilt(order, contents) <==> exists k :: 0 <= k < |order| && id in Ids(contents[order[k]])
    ensures forall k :: 0 <= k < |order| && Wins(order, contents, k, id) ==>
      id in LastWins(contents[order[k]]) && id in Rebuilt(order, contents)
      && Rebuilt(order, contents)[id] == LastWins(contents[order[k]])[id]
  {
    if order != [] {
      var rest := order[1..];
      RebuiltAt(rest, contents, id);
      LastWinsConcat(contents[order[0]], Collected(rest, contents));
      LastWinsKeys(contents[order[0]]);
      assert id in Rebuilt(order, contents) <==> id in Ids(contents[order[0]]) || id in Rebuilt(rest, contents);
      forall k | 0 <= k < |rest| ensures rest[k] == order[k + 1] {}
      forall k | 0 <= k < |order| && Wins(order, contents, k, id)
        ensures id in LastWins(contents[order[k]]) && id in Rebuilt(order, contents)
        ensures Rebuilt(order, contents)[id] == LastWins(contents[order[k]])[id]
      {
        LastWinsKeys(contents[order[k]]);
        if k > 0 {
          assert Wins(rest, contents, k - 1, id);
        } else {
          assert id !in Rebuilt(rest, contents);
        }
      }
    }
  }

  lemma LastOwner(order: seq<string>, contents: Contents, id: string, from: nat) returns (k: nat)
    requires forall o :: o in order ==> o in contents
    requires from < |order| && id in Ids(contents[order[from]])
    ensures from <= k < |order| && Wins(order, contents, k, id)
    decreases |order| - from
  {
    if j :| from < j < |order| && id in Ids(contents[order[j]]) {
      k := LastOwner(order, contents, id, j);
    } else {
      k := from;
    }
  }

  /** The rows hold what the owners list, each record under its own owner. */
  ghost predicate Represents(rows: Rows, contents: Contents) {
    && (forall id :: id in rows ==>
          var o := OwnerKey(rows[id]);
          o in contents && id in LastWins(contents[o]) && rows[id] == LastWins(contents[o])[id])
    && (forall o, id :: o in contents && id in LastWins(contents[o]) ==> id in rows)
  }

  lemma RebuiltRepresents(order: seq<string>, contents: Contents)
    requires (forall o :: o in order <==> o in contents) && Owned(contents)
    ensures Represents(Rebuilt(order, contents), contents)
  {
    var rows := Rebuilt(order, contents);
    forall id | id in rows
      ensures var o := OwnerKey(rows[id]);
        o in contents && id in LastWins(contents[o]) && rows[id] == LastWins(contents[o])[id]
    {
      RebuiltAt(order, contents, id);
      var from :| 0 <= from < |order| && id in Ids(contents[order[from]]);
      var k := LastOwner(order, contents, id, from);
      LastWinsFrom(contents[order[k]], id);
    }
    forall o, id | o in contents && id in LastWins(contents[o]) ensures id in rows {
      LastWinsKeys(contents[o]);
      var k :| 0 <= k < |order| && order[k] == o;
      RebuiltAt(order, contents, id);
    }
  }

  lemma ReplacedRepresents(rows: Rows, contents: Contents, o: string, next: seq<Artifact>)
    requires Represents(rows, contents) && AllOwnedBy(next, o) && Disjoint(contents) && Disjoint(contents[o := next])
    ensures Represents(Replaced(rows, o, next), contents[o := next])
  {
    var rows', contents' := Replaced(rows, o, next), contents[o := next];
    LastWinsKeys(next);
    forall id | id in rows'
      ensures var p := OwnerKey(rows'[id]);
        p in contents' && id in LastWins(contents'[p]) && rows'[id] == LastWins(contents'[p])[id]
    {
      if id in LastWins(next) {
        LastWinsFrom(next, id);
      }
    }
    forall p, id | p in contents' && id in LastWins(contents'[p]) ensures id in rows' {
      if p != o {
        LastWinsKeys(contents[p]);
        var q := OwnerKey(rows[id]);
        LastWinsKeys(contents[q]);
        assert id in Ids(contents[p]) && id in Ids(contents[q]);
        assert q == p;
      }
    }
  }

  lemma RepresentedAlike(a: Rows, b: Rows, contents: Contents, id: string)
    requires Represents(a, contents) && Represents(b, contents) && Disjoint(contents) && id in a
    ensures id in b && b[id] == a[id]
  {
    var o := OwnerKey(a[id]);
    assert o in contents && id in LastWins(contents[o]) && id in b;
    var p := OwnerKey(b[id]);
    LastWinsKeys(contents[o]);
    LastWinsKeys(contents[p]);
    assert o == p;
  }

  lemma RepresentationIsUnique(a: Rows, b: Rows, contents: Contents)
    requires Represents(a, contents) && Represents(b, contents) && Disjoint(contents)
    ensures a == b
  {
    forall id | id in a ensures id in b && b[id] == a[id] {
      RepresentedAlike(a, b, contents, id);
    }
    forall id | id in b ensures id in a {
      RepresentedAlike(b, a, contents, id);
    }
  }

  datatype Replacement = Replacement(ownerKey: string, references: seq<Artifact>)

  function RowsAfter(rows: Rows, steps: seq<Replacement>): Rows
    decreases |steps|
  {
    if steps == [] then rows else RowsAfter(Replaced(rows, steps[0].ownerKey, steps[0].references), steps[1..])
  }

  /** A run of replacements on a cache. */
  method ReplaceAll(cache: Cache, steps: seq<Replacement>) returns (next: Cache)
    requires Indexed(cache)
    ensures Indexed(next) && next.byId.rows == RowsAfter(cache.byId.rows, steps)
    decreases |steps|
  {
    if steps == [] {
      return cache;
    }
    CacheRows(cache);
    next := ReplaceArtifactReferencesForOwner(Some(cache), steps[0].ownerKey, steps[0].references);
    next := ReplaceAll(next, steps[1..]);
  }

  function ContentsAfter(contents: Contents, steps: seq<Replacement>): Contents
    decreases |steps|
  {
    if steps == [] then contents else ContentsAfter(contents[steps[0].ownerKey := steps[0].references], steps[1..])
  }

  /** At every moment of the run the owners list disjoint ids, each under its own key. */
  ghost predicate AlwaysDisjoint(contents: Contents, steps: seq<Replacement>)
    decreases |steps|
  {
    && Owned(contents) && Disjoint(contents)
    && (steps != [] ==> AlwaysDisjoint(contents[steps[0].ownerKey := steps[0].references], steps[1..]))
  }

  lemma {:induction false} RunRepresents(rows: Rows, contents: Contents, steps: seq<Replacement>)
    requires Represents(rows, contents) && AlwaysDisjoint(contents, steps)
    ensures Represents(RowsAfter(rows, steps), ContentsAfter(contents, steps))
    ensures Owned(ContentsAfter(contents, steps)) && Disjoint(ContentsAfter(contents, steps))
    decreases |steps|
  {
    if steps != [] {
      var next := contents[steps[0].ownerKey := steps[0].references];
      assert Owned(next) && Disjoint(next);
      assert AllOwnedBy(next[steps[0].ownerKey], steps[0].ownerKey);
      ReplacedRepresents(rows, contents, steps[0].ownerKey, steps[0].references);
      RunRepresents(Replaced(rows, steps[0].ownerKey, steps[0].references), next, steps[1..]);
    }
  }

  /**
   With disjoint owners, replacing owner by owner always gives what a rebuild from scratch would, in any listing order.
   */
  lemma ReplacementsEqualRebuild(before: seq<string>, contents: Contents, steps: seq<Replacement>, after: seq<string>)
    requires AlwaysDisjoint(contents, steps)
    requires forall o :: o in before <==> o in contents
    requires forall o :: o in after <==> o in ContentsAfter(contents, steps)
    ensures RowsAfter(Rebuilt(before, contents), steps) == Rebuilt(after, ContentsAfter(contents, steps))
  {
    RebuiltRepresents(before, contents);
    RunRepresents(Rebuilt(before, contents), contents, steps);
    RebuiltRepresents(after, ContentsAfter(contents, steps));
    RepresentationIsUnique(RowsAfter(Rebuilt(before, contents), steps), Rebuilt(after, ContentsAfter(contents, steps)),
                           ContentsAfter(contents, steps));
  }

  /**
   No owner stands in the way of replacing the references of `order[k]`: none listed later claims a new id, and none
   listed earlier waits behind an id that is given up.
   */
  ghost predicate Uncontested(order: seq<string>, contents: Contents, k: nat, next: seq<Artifact>)
    requires forall o :: o in order ==> o in contents
    requires k < |order|
  {
    && (forall id, j :: id in Ids(next) && k < j < |order| ==> id !in Ids(contents[order[j]]))
    && (forall id, j :: id !in Ids(next) && Wins(order, contents, k, id) && 0 <= j < k ==>
         id !in Ids(contents[order[j]]))
  }

  /** The row of one id, if it has one. */
  function RowOf(rows: Rows, id: string): Option<Artifact> {
    if id in rows then Some(rows[id]) else None
  }

  /** The row of an id after a rebuild is its winner's. */
  lemma WinnersRow(order: seq<string>, contents: Contents, k: nat, id: string)
    requires (forall o :: o in order ==> o in contents) && k < |order| && AllOwnedBy(contents[order[k]], order[k])
    requires Wins(order, contents, k, id)
    ensures id in LastWins(contents[order[k]]) && id in Rebuilt(order, contents)
    ensures Rebuilt(order, contents)[id] == LastWins(contents[order[k]])[id]
            && OwnerKey(Rebuilt(order, contents)[id]) == order[k]
  {
    RebuiltAt(order, contents, id);
    LastWinsFrom(contents[order[k]], id);
  }

  /** A new id: the replacement keeps its new record, and so does the rebuild unless a later owner lists the id. */
  lemma NewIdContest(order: seq<string>, contents: Contents, k: nat, next: seq<Artifact>, id: string)
    requires (forall o :: o in order ==> o in contents) && Owned(contents)
    requires forall i, j :: 0 <= i < j < |order| ==> order[i] != order[j]
    requires k < |order| && AllOwnedBy(next, order[k]) && id in Ids(next)
    ensures RowOf(Replaced(Rebuilt(order, contents), order[k], next), id) ==
            RowOf(Rebuilt(order, contents[order[k] := next]), id)
            <==> forall j :: k < j < |order| ==> id !in Ids(contents[order[j]])
  {
    var contents' := contents[order[k] := next];
    LastWinsKeys(next);
    LastWinsFrom(next, id);
    var w := LastOwner(order, contents', id, k);
    WinnersRow(order, contents', w, id);
    if w == k {
      forall j | k < j < |order| ensures id !in Ids(contents[order[j]]) {
        assert contents'[order[j]] == contents[order[j]];
      }
    } else {
      assert contents'[order[w]] == contents[order[w]];
    }
  }

  /**
   Any other id: the replacement drops it if this owner held it, and so does the rebuild unless an earlier owner lists
   it.
   */
  lemma OtherIdContest(order: seq<string>, contents: Contents, k: nat, next: seq<Artifact>, id: string)
    requires (forall o :: o in order ==> o in contents) && Owned(contents)
    requires forall i, j :: 0 <= i < j < |order| ==> order[i] != order[j]
    requires k < |order| && AllOwnedBy(next, order[k]) && id !in Ids(next)
    ensures RowOf(Replaced(Rebuilt(order, contents), order[k], next), id) ==
            RowOf(Rebuilt(order, contents[order[k] := next]), id)
            <==> (Wins(order, contents, k, id) ==> forall j :: 0 <= j < k ==> id !in Ids(contents[order[j]]))
  {
    var contents' := contents[order[k] := next];
    LastWinsKeys(next);
    if j :| 0 <= j < |order| && id in Ids(contents[order[j]]) {
      var w := LastOwner(order, contents, id, j);
      WinnersRow(order, contents, w, id);
      if w == k {
        GivenUpId(order, contents, k, next, id);
      } else {
        forall i | w < i < |order| ensures id !in Ids(contents'[order[i]]) {
          assert i == k || contents'[order[i]] == contents[order[i]];
        }
        assert contents'[order[w]] == contents[order[w]];
        WinnersRow(order, contents', w, id);
      }
    } else {
      forall j | 0 <= j < |order| ensures id !in Ids(contents'[order[j]]) {
        assert j == k || contents'[order[j]] == contents[order[j]];
      }
      RebuiltAt(order, contents, id);
      RebuiltAt(order, contents', id);
    }
  }

  lemma GivenUpId(order: seq<string>, contents: Contents, k: nat, next: seq<Artifact>, id: string)
    requires forall o :: o in order ==> o in contents
    requires forall i, j :: 0 <= i < j < |order| ==> order[i] != order[j]
    requires k < |order| && id !in Ids(next) && Wins(order, contents, k, id)
    ensures id !in Rebuilt(order, contents[order[k] := next]) <==> forall j :: 0 <= j < k ==>
            id !in Ids(contents[order[j]])
  {
    var contents' := contents[order[k] := next];
    RebuiltAt(order, contents', id);
    forall j | 0 <= j < |order| && j != k ensures contents'[order[j]] == contents[order[j]] {}
  }

  /** In general: a replacement gives what a rebuild in the same listing order would, exactly when it is uncontested. */
  lemma ReplacementEqualsRebuildIff(order: seq<string>, contents: Contents, k: nat, next: seq<Artifact>)
    requires (forall o :: o in order ==> o in contents) && Owned(contents)
    requires forall i, j :: 0 <= i < j < |order| ==> order[i] != order[j]
    requires k < |order| && AllOwnedBy(next, order[k])
    ensures Replaced(Rebuilt(order, contents), order[k], next) == Rebuilt(order, contents[order[k] := next])
            <==> Uncontested(order, contents, k, next)
  {
    var a, b := Replaced(Rebuilt(order, contents), order[k], next), Rebuilt(order, contents[order[k] := next]);
    forall id ensures id in Ids(next) ==>
      (RowOf(a, id) == RowOf(b, id) <==> forall j :: k < j < |order| ==> id !in Ids(contents[order[j]]))
    {
      if id in Ids(next) {
        NewIdContest(order, contents, k, next, id);
      }
    }
    forall id ensures id !in Ids(next) ==>
      (RowOf(a, id) == RowOf(b, id) <==>
        (Wins(order, contents, k, id) ==> forall j :: 0 <= j < k ==> id !in Ids(contents[order[j]])))
    {
      if id !in Ids(next) {
        OtherIdContest(order, contents, k, next, id);
      }
    }
    if forall id :: RowOf(a, id) == RowOf(b, id) {
      assert a == b by {
        forall id ensures id in a <==> id in b { assert RowOf(a, id) == RowOf(b, id); }
        forall id | id in a ensures a[id] == b[id] { assert RowOf(a, id) == RowOf(b, id); }
      }
    }
  }

  /** A takeover that is given up again: the replacements lose an artifact that a rebuild still finds. */
  lemma TakeoverLosesArtifact(kind: string, path: string)
    ensures var mine := Artifact("x", kind, path, "r", "t", Some("1"), None);
      var theirs := Artifact("x", kind, path, "r", "t", Some("2"), None);
      var steps := [Replacement("job:2", [theirs]), Replacement("job:2", [])];
      var contents := map["job:1" := [mine], "job:2" := []];
      && "x" !in RowsAfter(Rebuilt(["job:1", "job:2"], contents), steps)
      && ContentsAfter(contents, steps) == contents && "x" in Rebuilt(["job:1", "job:2"], contents)
  {
    var mine := Artifact("x", kind, path, "r", "t", Some("1"), None);
    var theirs := Artifact("x", kind, path, "r", "t", Some("2"), None);
    var contents: Contents := map["job:1" := [mine], "job:2" := []];
    var order := ["job:1", "job:2"];
    assert order[1..] == ["job:2"] && order[1..][1..] == [];
    assert Collected(order[1..], contents) == contents["job:2"] + Collected([], contents) == [];
    assert Collected(order, contents) == contents["job:1"] + Collected(order[1..], contents) == [mine];
    assert [mine][..0] == [] && [theirs][..0] == [];
    var rows := Rebuilt(order, contents);
    assert LastWins([mine]) == map["x" := mine];
    assert rows == map["x" := mine];
    var taken := Replaced(rows, "job:2", [theirs]);
    assert LastWins([theirs]) == map["x" := theirs];
    assert taken == map["x" := theirs];
    assert OwnerKey(theirs) == "job:2";
    assert Replaced(taken, "job:2", []) == map[];
    var steps := [Replacement("job:2", [theirs]), Replacement("job:2", [])];
    assert steps[1..] == [Replacement("job:2", [])] && steps[1..][1..] == [];
    assert RowsAfter(taken, steps[1..]) == RowsAfter(map[], []);
    assert ContentsAfter(contents["job:2" := [theirs]], steps[1..]) == ContentsAfter(contents, []);
  }
}
