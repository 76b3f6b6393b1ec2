/**
 * The demo-list importer of the Google Maps list collection
 * (nomad/app/data/importGoogleMapsLists.ts).
 *
 * The collection is a sequence of documents in the order a read returns them.
 * A run first inserts every demo list whose name is not yet present, then reads
 * the collection again and deletes every document with an id and a name
 * whose name an earlier document with an id already carries.
 */
module ListImport {

  /** A list document as the importer reads it. An `id` of 0 stands for an id
      that is missing or empty, a `listName` of "" for a name that is missing or
      empty: the source treats both alike (they are falsy). */
  datatype Doc = Doc(id: nat, listName: string)

  /** What an insert into the collection comes back with. */
  datatype AddOutcome = Added(id: nat) | Rejected

  predicate HasIdAndName(d: Doc) {
    d.id != 0 && d.listName != ""
  }

  /** The non-empty names among the first `n` documents, whether or not they have an id. */
  function NamesUpTo(s: seq<Doc>, n: nat): set<string>
    requires n <= |s|
  {
    if n == 0 then {}
    else NamesUpTo(s, n - 1) + (if s[n - 1].listName != "" then {s[n - 1].listName} else {})
  }

  /** The names the cleanup pass has put into `seen` after the first `n`
      documents: those of documents with an id and a name. */
  function SeenUpTo(s: seq<Doc>, n: nat): set<string>
    requires n <= |s|
  {
    if n == 0 then {}
    else SeenUpTo(s, n - 1) + (if HasIdAndName(s[n - 1]) then {s[n - 1].listName} else {})
  }

  /** The non-empty names of a collection. */
  function ExistingNames(s: seq<Doc>): set<string> {
    NamesUpTo(s, |s|)
  }

  /** The ids present in a collection. */
  function Ids(docs: seq<Doc>): set<nat>
    decreases |docs|
  {
    if docs == [] then {}
    else (if docs[0].id != 0 then {docs[0].id} else {}) + Ids(docs[1..])
  }

  /** No two documents share a (present) id. */
  predicate DistinctIds(docs: seq<Doc>)
    decreases |docs|
  {
    docs == [] || ((docs[0].id == 0 || docs[0].id !in Ids(docs[1..])) && DistinctIds(docs[1..]))
  }

  lemma {:induction false} DistinctIdsConcat(a: seq<Doc>, b: seq<Doc>)
    ensures Ids(a + b) == Ids(a) + Ids(b)
    ensures DistinctIds(a + b) <==> DistinctIds(a) && DistinctIds(b) && Ids(a) !! Ids(b)
  {
    if a == [] {
      assert a + b == b;
    } else {
      assert (a + b)[0] == a[0] && (a + b)[1..] == a[1..] + b;
      DistinctIdsConcat(a[1..], b);
    }
  }

  /** The collection after deleting the document with the given id. */
  function RemoveId(docs: seq<Doc>, id: nat): seq<Doc>
    decreases |docs|
  {
    if docs == [] then []
    else (if docs[0].id == id then [] else [docs[0]]) + RemoveId(docs[1..], id)
  }

  lemma {:induction false} RemoveIdKeepsDistinct(docs: seq<Doc>, id: nat)
    requires DistinctIds(docs)
    ensures Ids(RemoveId(docs, id)) <= Ids(docs)
    ensures DistinctIds(RemoveId(docs, id))
  {
    if docs != [] {
      var head := if docs[0].id == id then [] else [docs[0]];
      RemoveIdKeepsDistinct(docs[1..], id);
      DistinctIdsConcat(head, RemoveId(docs[1..], id));
    }
  }

  lemma {:induction false} RemoveIdConcat(a: seq<Doc>, b: seq<Doc>, id: nat)
    ensures RemoveId(a + b, id) == RemoveId(a, id) + RemoveId(b, id)
  {
    if a != [] {
      assert (a + b)[0] == a[0] && (a + b)[1..] == a[1..] + b;
      RemoveIdConcat(a[1..], b, id);
    } else {
      assert a + b == b;
    }
  }

  lemma {:induction false} RemoveIdAbsent(docs: seq<Doc>, id: nat)
    requires id != 0 && id !in Ids(docs)
    ensures RemoveId(docs, id) == docs
  {
    if docs != [] {
      RemoveIdAbsent(docs[1..], id);
      assert docs == [docs[0]] + docs[1..];
    }
  }

  /** Deleting the one document `d` that sits between `before` and `after`. */
  lemma RemoveTheOne(before: seq<Doc>, d: Doc, after: seq<Doc>)
    requires d.id != 0 && DistinctIds(before + [d] + after)
    ensures RemoveId(before + [d] + after, d.id) == before + after
  {
    DistinctIdsConcat(before + [d], after);
    DistinctIdsConcat(before, [d]);
    RemoveIdConcat(before + [d], after, d.id);
    RemoveIdConcat(before, [d], d.id);
    RemoveIdAbsent(before, d.id);
    RemoveIdAbsent(after, d.id);
    assert [d][1..] == [];
  }

  /**
   * The Google Maps list collection of the document store (nomad/app/data/googleMapsDb.ts).
   * Ids are handed out from a counter, so an insert never reuses an id.
   */
  class ListStore {
    var docs: seq<Doc>
    var nextId: nat

    ghost predicate Valid()
      reads this
    {
      0 < nextId && DistinctIds(docs) && forall id :: id in Ids(docs) ==> id < nextId
    }

    constructor ()
      ensures Valid() && docs == []
    {
      docs := [];
      nextId := 1;
    }

    /** Reads the whole collection, in collection order. */
    method GetAll() returns (snapshot: seq<Doc>)
      ensures snapshot == docs
    {
      snapshot := docs;
    }

    /** Inserts a list under a new id; `fails` says whether the store rejects the call. */
    method Add(listName: string, fails: bool) returns (outcome: AddOutcome)
      requires Valid()
      modifies this
      ensures Valid()
      ensures fails ==> outcome == Rejected && docs == old(docs) && nextId == old(nextId)
      ensures !fails ==> outcome == Added(old(nextId)) && old(nextId) !in Ids(old(docs))
      ensures !fails ==> docs == old(docs) + [Doc(old(nextId), listName)] && nextId == old(nextId) + 1
    {
      if fails {
        return Rejected;
      }
      var d := Doc(nextId, listName);
      DistinctIdsConcat(docs, [d]);
      assert [d][1..] == [];
      docs := docs + [d];
      outcome := Added(nextId);
      nextId := nextId + 1;
    }

    /** Deletes the document with the given id. */
    method Delete(id: nat)
      requires Valid()
      modifies this
      ensures Valid()
      ensures docs == RemoveId(old(docs), id) && nextId == old(nextId)
    {
      RemoveIdKeepsDistinct(docs, id);
      docs := RemoveId(docs, id);
    }
  }

  /** The names the import pass inserts while it goes through the first `n` demo
      lists, in order: each list whose name is not in `existing` and whose
      insert is not among the `failing` indices. */
  function InsertedUpTo(demo: seq<string>, existing: set<string>, failing: set<nat>, n: nat): seq<string>
    requires n <= |demo|
  {
    if n == 0 then []
    else
      InsertedUpTo(demo, existing, failing, n - 1)
        + (if demo[n - 1] !in existing && n - 1 !in failing then [demo[n - 1]] else [])
  }

  function Inserted(demo: seq<string>, existing: set<string>, failing: set<nat>): seq<string> {
    InsertedUpTo(demo, existing, failing, |demo|)
  }

  /** The documents the store creates for the inserted names, with consecutive ids. */
  function NewDocs(names: seq<string>, firstId: nat): seq<Doc> {
    seq(|names|, k requires 0 <= k < |names| => Doc(firstId + k, names[k]))
  }

  /** Document `i` has an id and a name that an earlier document with an id already carries. */
  predicate IsLaterDuplicate(s: seq<Doc>, i: nat)
    requires i < |s|
  {
    HasIdAndName(s[i]) && s[i].listName in SeenUpTo(s, i)
  }

  /** The first `n` documents without their later duplicates, in order. */
  function KeptUpTo(s: seq<Doc>, n: nat): seq<Doc>
    requires n <= |s|
  {
    if n == 0 then []
    else KeptUpTo(s, n - 1) + (if IsLaterDuplicate(s, n - 1) then [] else [s[n - 1]])
  }

  /** The collection with every later duplicate removed, the rest kept in order. */
  function Deduplicated(s: seq<Doc>): seq<Doc> {
    KeptUpTo(s, |s|)
  }

  /** The collection after one importer run that starts from `docs`, with the
      store's id counter at `firstId`. */
  function Run(docs: seq<Doc>, firstId: nat, demo: seq<string>, failing: set<nat>): seq<Doc> {
    Deduplicated(docs + NewDocs(Inserted(demo, ExistingNames(docs), failing), firstId))
  }

  lemma SplitAt<T>(s: seq<T>, i: nat)
    requires i < |s|
    ensures s[i..] == [s[i]] + s[i + 1..]
  {
  }

  /** The import loop: every demo list whose name is not among the names read
      before the loop gets an insert; a rejected insert is skipped and the loop
      goes on. */
  method ImportPass(store: ListStore, demo: seq<string>, failing: set<nat>)
    requires store.Valid()
    modifies store
    ensures store.Valid()
    ensures var added := Inserted(demo, ExistingNames(old(store.docs)), failing);
      store.docs == old(store.docs) + NewDocs(added, old(store.nextId))
      && store.nextId == old(store.nextId) + |added|
  {
    var existingLists := store.GetAll();
    var existingNames := ExistingNames(existingLists);
    ghost var firstId := store.nextId;

    for i := 0 to |demo|
      invariant store.Valid()
      invariant store.nextId == firstId + |InsertedUpTo(demo, existingNames, failing, i)|
      invariant store.docs == existingLists + NewDocs(InsertedUpTo(demo, existingNames, failing, i), firstId)
    {
      if demo[i] in existingNames {
        continue;
      }
      ghost var before := InsertedUpTo(demo, existingNames, failing, i);
      var outcome := store.Add(demo[i], i in failing);
      assert NewDocs(before + [demo[i]], firstId) == NewDocs(before, firstId) + [Doc(firstId + |before|, demo[i])];
    }
  }

  /** The cleanup loop: re-reads the collection and deletes every document whose
      name a document with an id already carried, keeping the first. */
  method CleanupPass(store: ListStore)
    requires store.Valid()
    modifies store
    ensures store.Valid()
    ensures store.docs == Deduplicated(old(store.docs)) && store.nextId == old(store.nextId)
  {
    var allLists := store.GetAll();
    var seen: set<string> := {};
    for i := 0 to |allLists|
      invariant store.Valid() && store.nextId == old(store.nextId)
      invariant seen == SeenUpTo(allLists, i)
      invariant store.docs == KeptUpTo(allLists, i) + allLists[i..]
    {
      var l := allLists[i];
      SplitAt(allLists, i);
      ghost var kept := KeptUpTo(allLists, i);
      assert store.docs == kept + [l] + allLists[i + 1..];
      ghost var rest := allLists[i + 1..];
      if l.listName == "" || l.id == 0 {
        assert KeptUpTo(allLists, i + 1) == kept + [l];
        assert SeenUpTo(allLists, i + 1) == seen;
        assert store.docs == KeptUpTo(allLists, i + 1) + rest;
        continue;
      }
      if l.listName in seen {
        assert KeptUpTo(allLists, i + 1) == kept;
        RemoveTheOne(kept, l, rest);
        store.Delete(l.id);
        assert store.docs == KeptUpTo(allLists, i + 1) + rest;
      } else {
        assert KeptUpTo(allLists, i + 1) == kept + [l];
        seen := seen + {l.listName};
        assert store.docs == KeptUpTo(allLists, i + 1) + rest;
      }
    }
  }

  /**
   * importDemoGoogleMapsLists. `demo` holds the names of the demo lists in
   * order; `failing` holds the indices of the demo lists whose insert the store
   * rejects (the source catches that and goes on).
   */
  method ImportDemoGoogleMapsLists(store: ListStore, demo: seq<string>, failing: set<nat>)
    requires store.Valid()
    modifies store
    ensures store.Valid()
    ensures store.docs == Run(old(store.docs), old(store.nextId), demo, failing)
  {
    ImportPass(store, demo, failing);
    CleanupPass(store);
  }

  // ---------------------------------------------------------------------------
  // Names and ids of a collection

  lemma {:induction false} NamesHas(s: seq<Doc>, n: nat, i: nat)
    requires i < n <= |s|
    ensures s[i].listName != "" ==> s[i].listName in NamesUpTo(s, n)
    ensures HasIdAndName(s[i]) ==> s[i].listName in SeenUpTo(s, n)
  {
    if i < n - 1 {
      NamesHas(s, n - 1, i);
    }
  }

  lemma {:induction false} SeenWitness(s: seq<Doc>, n: nat, name: string) returns (j: nat)
    requires n <= |s| && name in SeenUpTo(s, n)
    ensures j < n && HasIdAndName(s[j]) && s[j].listName == name
  {
    if HasIdAndName(s[n - 1]) && s[n - 1].listName == name {
      j := n - 1;
    } else {
      j := SeenWitness(s, n - 1, name);
    }
  }

  lemma {:induction false} SeenWithinNames(s: seq<Doc>, n: nat)
    requires n <= |s|
    ensures SeenUpTo(s, n) <= NamesUpTo(s, n)
  {
    if n > 0 {
      SeenWithinNames(s, n - 1);
    }
  }

  /** The names of the first `n` documents of `a + b` are those of `a` alone. */
  lemma {:induction false} NamesOfPrefix(a: seq<Doc>, b: seq<Doc>, n: nat)
    requires n <= |a|
    ensures NamesUpTo(a + b, n) == NamesUpTo(a, n) && SeenUpTo(a + b, n) == SeenUpTo(a, n)
  {
    if n > 0 {
      NamesOfPrefix(a, b, n - 1);
    }
  }

  lemma {:induction false} NamesConcat(a: seq<Doc>, b: seq<Doc>, m: nat)
    requires m <= |b|
    ensures NamesUpTo(a + b, |a| + m) == NamesUpTo(a, |a|) + NamesUpTo(b, m)
    ensures SeenUpTo(a + b, |a| + m) == SeenUpTo(a, |a|) + SeenUpTo(b, m)
  {
    if m == 0 {
      NamesOfPrefix(a, b, |a|);
    } else {
      NamesConcat(a, b, m - 1);
    }
  }

  lemma {:induction false} IdsHas(s: seq<Doc>, i: nat)
    requires i < |s| && s[i].id != 0
    ensures s[i].id in Ids(s)
  {
    if i > 0 {
      IdsHas(s[1..], i - 1);
    }
  }

  /** Two documents at different places never share a present id. */
  lemma {:induction false} DistinctIdsAt(s: seq<Doc>, i: nat, j: nat)
    requires i < j < |s| && DistinctIds(s) && s[i].id != 0
    ensures s[i].id != s[j].id
  {
    if i == 0 {
      if s[j].id != 0 {
        assert s[1..][j - 1] == s[j];
        IdsHas(s[1..], j - 1);
      }
    } else {
      DistinctIdsAt(s[1..], i - 1, j - 1);
    }
  }

  // ---------------------------------------------------------------------------
  // The import pass

  /** A name is inserted exactly when some demo list carries it, it was not
      present before the run, and that list's insert did not fail. In
      particular a name present before the run is never inserted. */
  lemma {:induction false} InsertedIff(demo: seq<string>, existing: set<string>, failing: set<nat>, n: nat, x: string)
    requires n <= |demo|
    ensures x in InsertedUpTo(demo, existing, failing, n)
        <==> exists i :: 0 <= i < n && demo[i] == x && x !in existing && i !in failing
  {
    if n > 0 {
      InsertedIff(demo, existing, failing, n - 1, x);
    }
  }

  /** When every demo name is already present, the import pass inserts nothing. */
  lemma {:induction false} NothingInsertedWhenAllPresent(demo: seq<string>, existing: set<string>, failing: set<nat>, n: nat)
    requires n <= |demo|
    requires forall i :: 0 <= i < |demo| ==> demo[i] in existing
    ensures InsertedUpTo(demo, existing, failing, n) == []
  {
    if n > 0 {
      NothingInsertedWhenAllPresent(demo, existing, failing, n - 1);
    }
  }

  /** How many times `x` occurs in `s`. */
  function Count(s: seq<string>, x: string): nat {
    if s == [] then 0
    else Count(s[..|s| - 1], x) + (if s[|s| - 1] == x then 1 else 0)
  }

  lemma CountSnoc(s: seq<string>, y: string, x: string)
    ensures Count(s + [y], x) == Count(s, x) + (if y == x then 1 else 0)
  {
    assert (s + [y])[..|s|] == s;
  }

  lemma {:induction false} InsertedGrows(demo: seq<string>, existing: set<string>, failing: set<nat>, n: nat, m: nat, x: string)
    requires n <= m <= |demo|
    ensures Count(InsertedUpTo(demo, existing, failing, n), x) <= Count(InsertedUpTo(demo, existing, failing, m), x)
  {
    if n < m {
      InsertedGrows(demo, existing, failing, n, m - 1, x);
      var prev := InsertedUpTo(demo, existing, failing, m - 1);
      if demo[m - 1] !in existing && m - 1 !in failing {
        CountSnoc(prev, demo[m - 1], x);
      } else {
        assert InsertedUpTo(demo, existing, failing, m) == prev;
      }
    }
  }

  /** The set of existing names is fixed before the loop, so two demo lists with
      the same new name are both inserted. */
  lemma SameNewNameInsertedTwice(demo: seq<string>, existing: set<string>, failing: set<nat>, i: nat, j: nat)
    requires i < j < |demo| && demo[i] == demo[j]
    requires demo[i] !in existing && i !in failing && j !in failing
    ensures Count(Inserted(demo, existing, failing), demo[i]) >= 2
  {
    var x := demo[i];
    CountSnoc(InsertedUpTo(demo, existing, failing, i), x, x);
    InsertedGrows(demo, existing, failing, i + 1, j, x);
    CountSnoc(InsertedUpTo(demo, existing, failing, j), x, x);
    InsertedGrows(demo, existing, failing, j + 1, |demo|, x);
  }

  /** A rejected insert costs exactly its own list: every other list is
      processed as if it had succeeded. */
  lemma {:induction false} FailureDropsOnlyItsOwnList(demo: seq<string>, existing: set<string>, failing: set<nat>, k: nat, n: nat, x: string)
    requires n <= |demo|
    ensures Count(InsertedUpTo(demo, existing, failing, n), x)
         == Count(InsertedUpTo(demo, existing, failing + {k}, n), x)
            + (if k < n && demo[k] == x && x !in existing && k !in failing then 1 else 0)
  {
    if n > 0 {
      var d := n - 1;
      FailureDropsOnlyItsOwnList(demo, existing, failing, k, d, x);
      var a := InsertedUpTo(demo, existing, failing, d);
      var b := InsertedUpTo(demo, existing, failing + {k}, d);
      if demo[d] !in existing && d !in failing {
        CountSnoc(a, demo[d], x);
        if d != k {
          CountSnoc(b, demo[d], x);
        } else {
          assert InsertedUpTo(demo, existing, failing + {k}, n) == b;
        }
      } else {
        assert InsertedUpTo(demo, existing, failing, n) == a;
        assert InsertedUpTo(demo, existing, failing + {k}, n) == b;
      }
    }
  }

  // ---------------------------------------------------------------------------
  // The cleanup pass

  /** Each name appears at most once among the documents with an id and a name. */
  predicate UniqueNames(s: seq<Doc>) {
    forall i, j :: 0 <= i < j < |s| && HasIdAndName(s[i]) && HasIdAndName(s[j])
      ==> s[i].listName != s[j].listName
  }

  lemma {:induction false} KeptComesFrom(s: seq<Doc>, n: nat, k: nat) returns (j: nat)
    requires n <= |s| && k < |KeptUpTo(s, n)|
    ensures j < n && s[j] == KeptUpTo(s, n)[k]
  {
    var prev := KeptUpTo(s, n - 1);
    if k < |prev| {
      j := KeptComesFrom(s, n - 1, k);
    } else {
      j := n - 1;
    }
  }

  /** Cleanup only deletes later duplicates, so the names in the collection, and
      the names of documents with an id, are the same before and after. */
  lemma {:induction false} CleanupKeepsNames(s: seq<Doc>, n: nat)
    requires n <= |s|
    ensures var r := KeptUpTo(s, n);
      NamesUpTo(r, |r|) == NamesUpTo(s, n) && SeenUpTo(r, |r|) == SeenUpTo(s, n)
  {
    if n > 0 {
      CleanupKeepsNames(s, n - 1);
      if IsLaterDuplicate(s, n - 1) {
        DroppingKeepsNames(s, n);
      } else {
        KeepingKeepsNames(s, n);
      }
    }
  }

  /** The step of CleanupKeepsNames where document n - 1 is a later duplicate. */
  lemma DroppingKeepsNames(s: seq<Doc>, n: nat)
    requires 0 < n <= |s| && IsLaterDuplicate(s, n - 1)
    requires var r := KeptUpTo(s, n - 1);
      NamesUpTo(r, |r|) == NamesUpTo(s, n - 1) && SeenUpTo(r, |r|) == SeenUpTo(s, n - 1)
    ensures var r := KeptUpTo(s, n);
      NamesUpTo(r, |r|) == NamesUpTo(s, n) && SeenUpTo(r, |r|) == SeenUpTo(s, n)
  {
    var d := s[n - 1];
    assert KeptUpTo(s, n) == KeptUpTo(s, n - 1);
    SeenWithinNames(s, n - 1);
    assert d.listName in NamesUpTo(s, n - 1);
    assert NamesUpTo(s, n) == NamesUpTo(s, n - 1) + {d.listName};
    assert SeenUpTo(s, n) == SeenUpTo(s, n - 1) + {d.listName};
  }

  /** The step of CleanupKeepsNames where document n - 1 is kept. */
  lemma KeepingKeepsNames(s: seq<Doc>, n: nat)
    requires 0 < n <= |s| && !IsLaterDuplicate(s, n - 1)
    requires var r := KeptUpTo(s, n - 1);
      NamesUpTo(r, |r|) == NamesUpTo(s, n - 1) && SeenUpTo(r, |r|) == SeenUpTo(s, n - 1)
    ensures var r := KeptUpTo(s, n);
      NamesUpTo(r, |r|) == NamesUpTo(s, n) && SeenUpTo(r, |r|) == SeenUpTo(s, n)
  {
    NamesConcat(KeptUpTo(s, n - 1), [s[n - 1]], 1);
  }

  /** After cleanup each non-empty name appears at most once among documents with an id. */
  lemma {:induction false} CleanupLeavesUniqueNames(s: seq<Doc>, n: nat)
    requires n <= |s|
    ensures UniqueNames(KeptUpTo(s, n))
  {
    if n > 0 {
      var prev := KeptUpTo(s, n - 1);
      CleanupLeavesUniqueNames(s, n - 1);
      if !IsLaterDuplicate(s, n - 1) {
        var r := prev + [s[n - 1]];
        CleanupKeepsNames(s, n - 1);
        forall i | 0 <= i < |prev| && HasIdAndName(r[i]) && HasIdAndName(s[n - 1])
          ensures r[i].listName != s[n - 1].listName
        {
          NamesHas(prev, |prev|, i);
        }
      }
    }
  }

  /** A collection whose names are already unique is left as it is. */
  lemma {:induction false} CleanupOfUniqueChangesNothing(s: seq<Doc>, n: nat)
    requires n <= |s| && UniqueNames(s)
    ensures KeptUpTo(s, n) == s[..n]
  {
    if n > 0 {
      CleanupOfUniqueChangesNothing(s, n - 1);
      if IsLaterDuplicate(s, n - 1) {
        var j := SeenWitness(s, n - 1, s[n - 1].listName);
        assert false;
      }
      assert s[..n] == s[..n - 1] + [s[n - 1]];
    }
  }

  /** Running the cleanup twice is the same as running it once. */
  lemma CleanupIdempotent(s: seq<Doc>)
    ensures Deduplicated(Deduplicated(s)) == Deduplicated(s)
  {
    var r := Deduplicated(s);
    CleanupLeavesUniqueNames(s, |s|);
    CleanupOfUniqueChangesNothing(r, |r|);
    assert r[..|r|] == r;
  }

  /** With distinct ids, cleanup deletes a document exactly when it is a later
      duplicate: a document without a name or an id is never deleted, and the
      first document with an id of each name is kept. */
  lemma {:induction false} CleanupDeletesExactlyLaterDuplicates(s: seq<Doc>, n: nat, i: nat)
    requires i < n <= |s| && DistinctIds(s)
    ensures s[i] in KeptUpTo(s, n) <==> !IsLaterDuplicate(s, i)
  {
    var prev := KeptUpTo(s, n - 1);
    if i == n - 1 {
      if IsLaterDuplicate(s, i) && s[i] in prev {
        var k :| 0 <= k < |prev| && prev[k] == s[i];
        var j := KeptComesFrom(s, n - 1, k);
        DistinctIdsAt(s, j, i);
        assert false;
      }
    } else {
      CleanupDeletesExactlyLaterDuplicates(s, n - 1, i);
      if s[i] == s[n - 1] && s[i].id != 0 {
        DistinctIdsAt(s, i, n - 1);
        assert false;
      }
    }
  }

  // ---------------------------------------------------------------------------
  // A whole run

  /** If every insert of a run succeeds and every demo list has a name, a second
      run inserts nothing and deletes nothing. */
  lemma SecondRunChangesNothing(docs: seq<Doc>, firstId: nat, demo: seq<string>, nextFirstId: nat, failing: set<nat>)
    requires forall i :: 0 <= i < |demo| ==> demo[i] != ""
    ensures var once := Run(docs, firstId, demo, {});
      Inserted(demo, ExistingNames(once), failing) == []
      && Run(once, nextFirstId, demo, failing) == once
  {
    var existing := ExistingNames(docs);
    var added := Inserted(demo, existing, {});
    var created := NewDocs(added, firstId);
    var all := docs + created;
    var once := Deduplicated(all);
    CleanupKeepsNames(all, |all|);
    NamesConcat(docs, created, |created|);
    forall i | 0 <= i < |demo| ensures demo[i] in ExistingNames(once) {
      if demo[i] !in existing {
        InsertedIff(demo, existing, {}, |demo|, demo[i]);
        var j :| 0 <= j < |added| && added[j] == demo[i];
        NamesHas(created, |created|, j);
      }
    }
    NothingInsertedWhenAllPresent(demo, ExistingNames(once), failing, |demo|);
    assert once + NewDocs([], nextFirstId) == once;
    CleanupIdempotent(all);
  }
}
