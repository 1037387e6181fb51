/** Tables keyed by unique names and the update-or-insert loops that write them. */
module Upserts {
  import opened Wrappers

  datatype Table<R> = Table(rows: map<string, R>, nextId: nat)

  /** An imported item: the name it is found by and the fields it writes. */
  datatype Entry<P> = Entry(name: string, patch: P)

  /** An existing row is updated in place; otherwise a blank row with the next identifier is. */
  function Upsert<R, P>(assign: (R, P) -> R, blank: nat -> R, t: Table<R>, e: Entry<P>): Table<R> {
    if e.name in t.rows then t.(rows := t.rows[e.name := assign(t.rows[e.name], e.patch)])
    else Table(t.rows[e.name := assign(blank(t.nextId), e.patch)], t.nextId + 1)
  }

  function UpsertAll<R, P>(assign: (R, P) -> R, blank: nat -> R, t: Table<R>, entries: seq<Entry<P>>): Table<R> {
    if entries == [] then t
    else Upsert(assign, blank, UpsertAll(assign, blank, t, entries[..|entries| - 1]), entries[|entries| - 1])
  }

  /** What the entries of one name write together. */
  function Combined<P>(merge: (P, P) -> P, entries: seq<Entry<P>>, name: string): Option<P> {
    if entries == [] then None
    else
      var e := entries[|entries| - 1];
      var before := Combined(merge, entries[..|entries| - 1], name);
      if e.name != name then before
      else if before.None? then Some(e.patch)
      else Some(merge(before.value, e.patch))
  }

  /** Two assignments in a row are one assignment of the merged fields. */
  ghost predicate MergesAt<R, P>(assign: (R, P) -> R, merge: (P, P) -> P, r: R, p: P, q: P) {
    assign(assign(r, p), q) == assign(r, merge(p, q))
  }

  ghost predicate Merges<R(!new), P(!new)>(assign: (R, P) -> R, merge: (P, P) -> P) {
    forall r, p, q :: MergesAt(assign, merge, r, p, q)
  }

  /** Assigning the same fields twice is assigning them once. */
  ghost predicate AbsorbsAt<R, P>(assign: (R, P) -> R, r: R, p: P) {
    assign(assign(r, p), p) == assign(r, p)
  }

  ghost predicate Absorbs<R(!new), P(!new)>(assign: (R, P) -> R) {
    forall r, p :: AbsorbsAt(assign, r, p)
  }

  ghost predicate Named<P>(entries: seq<Entry<P>>, name: string) {
    exists e :: e in entries && e.name == name
  }

  lemma {:induction false} CombinedIffNamed<P>(merge: (P, P) -> P, entries: seq<Entry<P>>, name: string)
    ensures Combined(merge, entries, name).Some? <==> Named(entries, name)
  {
    if entries != [] {
      var front, e := entries[..|entries| - 1], entries[|entries| - 1];
      assert entries == front + [e];
      CombinedIffNamed(merge, front, name);
    }
  }

  /** The row of a name after a run of upserts; it starts from the stored row or else from a blank one with a new identifier. */
  lemma {:induction false} RowAfter<R(!new), P(!new)>(assign: (R, P) -> R, merge: (P, P) -> P, blank: nat -> R,
                                                      t: Table<R>, entries: seq<Entry<P>>, name: string)
    returns (start: R, id: nat)
    requires Merges(assign, merge)
    ensures var after := UpsertAll(assign, blank, t, entries);
            match Combined(merge, entries, name)
            case None => (name in after.rows <==> name in t.rows) && (name in t.rows ==> after.rows[name] == t.rows[name])
            case Some(p) => name in after.rows && after.rows[name] == assign(start, p)
    ensures if name in t.rows then start == t.rows[name] else start == blank(id) && t.nextId <= id
    ensures t.nextId <= UpsertAll(assign, blank, t, entries).nextId
  {
    if entries == [] {
      id := t.nextId;
      start := if name in t.rows then t.rows[name] else blank(id);
    } else {
      var front, e := entries[..|entries| - 1], entries[|entries| - 1];
      start, id := RowAfter(assign, merge, blank, t, front, name);
      var before := UpsertAll(assign, blank, t, front);
      var earlier := Combined(merge, front, name);
      if e.name == name && name !in before.rows {
        id := before.nextId;
        start := blank(id);
      } else if e.name == name && earlier.Some? {
        assert MergesAt(assign, merge, start, earlier.value, e.patch);
      }
    }
  }

  /** Where the later of two assignments wins, the last entry of a name says what is written. */
  lemma {:induction false} LastEntryWins<P(!new)>(merge: (P, P) -> P, entries: seq<Entry<P>>, i: nat)
    requires i < |entries| && forall j :: i < j < |entries| ==> entries[j].name != entries[i].name
    requires forall p, q :: merge(p, q) == q
    ensures Combined(merge, entries, entries[i].name) == Some(entries[i].patch)
  {
    if i < |entries| - 1 {
      LastEntryWins(merge, entries[..|entries| - 1], i);
    }
  }

  lemma {:induction false} PresentNamesAddNothing<R, P>(assign: (R, P) -> R, blank: nat -> R, t: Table<R>, entries: seq<Entry<P>>)
    requires forall e :: e in entries ==> e.name in t.rows
    ensures UpsertAll(assign, blank, t, entries).nextId == t.nextId
    ensures UpsertAll(assign, blank, t, entries).rows.Keys == t.rows.Keys
  {
    if entries != [] {
      var front, e := entries[..|entries| - 1], entries[|entries| - 1];
      assert entries == front + [e];
      PresentNamesAddNothing(assign, blank, t, front);
    }
  }

  lemma NamesAfter<R(!new), P(!new)>(assign: (R, P) -> R, merge: (P, P) -> P, blank: nat -> R,
                                     t: Table<R>, entries: seq<Entry<P>>, name: string)
    requires Merges(assign, merge)
    ensures name in UpsertAll(assign, blank, t, entries).rows <==> name in t.rows || Named(entries, name)
  {
    CombinedIffNamed(merge, entries, name);
    var start, id := RowAfter(assign, merge, blank, t, entries, name);
  }

  /** Running the same upserts again changes nothing, however often a name repeats. */
  lemma UpsertAllIdempotent<R(!new), P(!new)>(assign: (R, P) -> R, merge: (P, P) -> P, blank: nat -> R,
                                              t: Table<R>, entries: seq<Entry<P>>)
    requires Merges(assign, merge) && Absorbs(assign)
    ensures var once := UpsertAll(assign, blank, t, entries);
            UpsertAll(assign, blank, once, entries) == once
  {
    var once := UpsertAll(assign, blank, t, entries);
    var twice := UpsertAll(assign, blank, once, entries);
    forall e | e in entries ensures e.name in once.rows {
      NamesAfter(assign, merge, blank, t, entries, e.name);
    }
    PresentNamesAddNothing(assign, blank, once, entries);
    forall name | name in once.rows ensures twice.rows[name] == once.rows[name] {
      var start, id := RowAfter(assign, merge, blank, t, entries, name);
      var again, id' := RowAfter(assign, merge, blank, once, entries, name);
      var written := Combined(merge, entries, name);
      if written.Some? {
        assert AbsorbsAt(assign, start, written.value);
      }
    }
    assert twice.rows == once.rows;
  }

  ghost predicate DistinctNames<P>(entries: seq<Entry<P>>) {
    forall j, k :: 0 <= j < k < |entries| ==> entries[j].name != entries[k].name
  }

  lemma {:induction false} CombinedOfOne<P>(merge: (P, P) -> P, entries: seq<Entry<P>>, i: nat)
    requires i < |entries| && DistinctNames(entries)
    ensures Combined(merge, entries, entries[i].name) == Some(entries[i].patch)
  {
    var front := entries[..|entries| - 1];
    if i == |entries| - 1 {
      CombinedIffNamed(merge, front, entries[i].name);
    } else {
      CombinedOfOne(merge, front, i);
    }
  }

  lemma WrittenOnce<R(!new), P(!new)>(assign: (R, P) -> R, merge: (P, P) -> P, blank: nat -> R,
                                      t: Table<R>, entries: seq<Entry<P>>, e: Entry<P>)
    requires Merges(assign, merge) && DistinctNames(entries)
    requires e in entries && e.name in t.rows
    ensures e.name in UpsertAll(assign, blank, t, entries).rows
    ensures UpsertAll(assign, blank, t, entries).rows[e.name] == assign(t.rows[e.name], e.patch)
  {
    var i :| 0 <= i < |entries| && entries[i] == e;
    CombinedOfOne(merge, entries, i);
    var start, id := RowAfter(assign, merge, blank, t, entries, e.name);
  }

  ghost predicate WritesWhatIsThere<R, P>(assign: (R, P) -> R, t: Table<R>, e: Entry<P>) {
    e.name in t.rows && assign(t.rows[e.name], e.patch) == t.rows[e.name]
  }

  lemma {:induction false} WritingWhatIsThere<R, P>(assign: (R, P) -> R, blank: nat -> R, t: Table<R>, entries: seq<Entry<P>>)
    requires forall e :: e in entries ==> WritesWhatIsThere(assign, t, e)
    ensures UpsertAll(assign, blank, t, entries) == t
  {
    if entries != [] {
      var front, e := entries[..|entries| - 1], entries[|entries| - 1];
      assert entries == front + [e];
      WritingWhatIsThere(assign, blank, t, front);
      assert WritesWhatIsThere(assign, t, e);
      assert t.rows[e.name := t.rows[e.name]] == t.rows;
    }
  }

  /** Entries with distinct names of present rows leave a table alone exactly when each writes what is there. */
  lemma UpsertAllUnchangedIff<R(!new), P(!new)>(assign: (R, P) -> R, merge: (P, P) -> P, blank: nat -> R,
                                                t: Table<R>, entries: seq<Entry<P>>)
    requires Merges(assign, merge) && DistinctNames(entries)
    requires forall e :: e in entries ==> e.name in t.rows
    ensures UpsertAll(assign, blank, t, entries) == t
       <==> forall e :: e in entries ==> WritesWhatIsThere(assign, t, e)
  {
    if UpsertAll(assign, blank, t, entries) == t {
      UnchangedWritesWhatIsThere(assign, merge, blank, t, entries);
    }
    if forall e :: e in entries ==> WritesWhatIsThere(assign, t, e) {
      WritingWhatIsThere(assign, blank, t, entries);
    }
  }

  lemma UnchangedWritesWhatIsThere<R(!new), P(!new)>(assign: (R, P) -> R, merge: (P, P) -> P, blank: nat -> R,
                                                     t: Table<R>, entries: seq<Entry<P>>)
    requires Merges(assign, merge) && DistinctNames(entries)
    requires forall e :: e in entries ==> e.name in t.rows
    requires UpsertAll(assign, blank, t, entries) == t
    ensures forall e :: e in entries ==> WritesWhatIsThere(assign, t, e)
  {
    forall e | e in entries
      ensures WritesWhatIsThere(assign, t, e)
    {
      WrittenOnce(assign, merge, blank, t, entries, e);
    }
  }

  // ----- Identifiers

  ghost predicate IdsUnique<R>(idOf: R -> nat, t: Table<R>) {
    && (forall a :: a in t.rows ==> idOf(t.rows[a]) < t.nextId)
    && (forall a, b :: a in t.rows && b in t.rows && idOf(t.rows[a]) == idOf(t.rows[b]) ==> a == b)
  }

  lemma {:induction false} UpsertAllKeepsIds<R(!new), P(!new)>(assign: (R, P) -> R, blank: nat -> R, idOf: R -> nat,
                                                               t: Table<R>, entries: seq<Entry<P>>)
    requires IdsUnique(idOf, t)
    requires forall r, p :: idOf(assign(r, p)) == idOf(r)
    requires forall k :: idOf(blank(k)) == k
    ensures IdsUnique(idOf, UpsertAll(assign, blank, t, entries))
    ensures forall a :: a in t.rows ==>
      a in UpsertAll(assign, blank, t, entries).rows && idOf(UpsertAll(assign, blank, t, entries).rows[a]) == idOf(t.rows[a])
  {
    if entries != [] {
      UpsertAllKeepsIds(assign, blank, idOf, t, entries[..|entries| - 1]);
    }
  }
}
