/** Properties of the task store's operations, stated on the functions that define them. */
module TaskLemmas {
  import opened Outcomes
  import opened Seqs
  import opened Text
  import opened Tasks

  /** Appending a created record keeps Ids unique: its Id exceeds every stored one. */
  lemma CreateKeepsIdsUnique(ts: seq<Task>, input: TaskInput, now: int)
    requires UniqueIds(ts)
    ensures UniqueIds(ts + [NewTask(ts, input, now)])
  {
    var grown := ts + [NewTask(ts, input, now)];
    forall i, j | 0 <= i < j < |grown| ensures grown[i].Id != grown[j].Id {
      if j == |ts| {
        assert grown[i] in ts;
      }
    }
  }

  /** Ids are unique only among the stored records: create, then delete of the created
      record, then create again hands out the same Id a second time. */
  lemma {:induction false} IdReusedAfterDeletingNewest(ts: seq<Task>, first: TaskInput, second: TaskInput, t1: int, t2: int)
    ensures var created := NewTask(ts, first, t1);
            var grown := ts + [created];
            var i := FindIndex(grown, HasId(created.Id));
            i == |ts| && RemoveAt(grown, i) == ts && NewTask(RemoveAt(grown, i), second, t2).Id == created.Id
  {
    var created := NewTask(ts, first, t1);
    var grown := ts + [created];
    forall j | 0 <= j < |ts| ensures !HasId(created.Id)(grown[j]) {
      assert grown[j] in ts;
    }
    assert HasId(created.Id)(grown[|ts|]);
    var i := FindIndex(grown, HasId(created.Id));
    assert i == |ts|;
    assert RemoveAt(grown, i) == ts;
  }

  /** Archiving then restoring gives back the record with `archived` false, except that a
      completed task loses its completion time: neither patch carries `completed`. */
  lemma ArchiveRestoreRoundTrip(t: Task, archivedAt: int, restoredAt: int)
    ensures Merge(Merge(t, ArchivePatch, archivedAt), RestorePatch, restoredAt)
         == t.(archived := false, completedAt := if t.completed then None else t.completedAt)
  {
  }

  /** Archiving a completed task leaves it completed with no completion time. */
  lemma ArchiveBreaksCompletionConsistency(t: Task, now: int)
    requires t.completed
    ensures Merge(t, ArchivePatch, now).completed
    ensures Merge(t, ArchivePatch, now).completedAt == None
    ensures !CompletionConsistent(Merge(t, ArchivePatch, now))
  {
  }

  /** On a consistent record, a patch without `completedAt` keeps "completed iff
      completedAt is set" exactly when it carries `completed` or the record is open. */
  lemma UpdateConsistencyExactly(t: Task, p: TaskPatch, now: int)
    requires CompletionConsistent(t) && p.completedAt.None?
    ensures CompletionConsistent(Merge(t, p, now)) <==> (p.completed.Some? || !t.completed)
  {
  }

  /** Updating one record leaves every Id in place, so unique Ids stay unique. */
  lemma UpdateKeepsIds(ts: seq<Task>, i: nat, p: TaskPatch, now: int)
    requires i < |ts|
    ensures Ids(ts[i := Merge(ts[i], p, now)]) == Ids(ts)
    ensures UniqueIds(ts) ==> UniqueIds(ts[i := Merge(ts[i], p, now)])
  {
    assert Ids(ts[i := Merge(ts[i], p, now)]) == Ids(ts);
  }

  /** With unique Ids, deleting by Id is filtering that Id out. */
  lemma DeleteIsFilter(ts: seq<Task>, id: int)
    requires UniqueIds(ts)
    requires FindIndex(ts, HasId(id)) != -1
    ensures RemoveAt(ts, FindIndex(ts, HasId(id))) == Filter(ts, NotId(id))
  {
    var i := FindIndex(ts, HasId(id));
    forall t | t in ts[..i] ensures t.Id != id {
      var j :| 0 <= j < i && ts[j] == t;
    }
    forall t | t in ts[i + 1..] ensures t.Id != id {
      var j :| i < j < |ts| && ts[j] == t;
    }
    RemoveSplitIsFilter(ts[..i], ts[i], ts[i + 1..], id);
    assert ts == ts[..i] + [ts[i]] + ts[i + 1..];
  }

  /** Filtering out an Id that only the middle record has removes that record. */
  lemma {:induction false} RemoveSplitIsFilter(before: seq<Task>, x: Task, after: seq<Task>, id: int)
    requires x.Id == id
    requires forall t :: t in before ==> t.Id != id
    requires forall t :: t in after ==> t.Id != id
    ensures Filter(before + [x] + after, NotId(id)) == before + after
  {
    calc {
      Filter(before + [x] + after, NotId(id));
      { assert before + [x] + after == before + ([x] + after); }
      Filter(before + ([x] + after), NotId(id));
      { FilterConcat(before, [x] + after, NotId(id)); }
      Filter(before, NotId(id)) + Filter([x] + after, NotId(id));
      { NoIdKeptWhole(before, id); }
      before + Filter([x] + after, NotId(id));
      { FilterCons(x, after, NotId(id)); assert !NotId(id)(x); }
      before + ([] + Filter(after, NotId(id)));
      { NoIdKeptWhole(after, id); }
      before + ([] + after);
    }
  }

  /** A filter dropping one Id keeps a list that does not hold that Id whole. */
  lemma NoIdKeptWhole(s: seq<Task>, id: int)
    requires forall t :: t in s ==> t.Id != id
    ensures Filter(s, NotId(id)) == s
  {
    FilterAll(s, NotId(id));
  }

  /** Filtering keeps Ids unique. */
  lemma {:induction false} FilterKeepsIdsUnique(ts: seq<Task>, keep: Task -> bool)
    requires UniqueIds(ts)
    ensures UniqueIds(Filter(ts, keep))
  {
    if ts != [] {
      assert UniqueIds(ts[1..]);
      FilterKeepsIdsUnique(ts[1..], keep);
      forall t | t in Filter(ts[1..], keep) ensures t.Id != ts[0].Id {
        var j :| 0 <= j < |ts[1..]| && ts[1..][j] == t;
        assert ts[j + 1] == t;
      }
    }
  }

  /** With unique Ids, bulk delete leaves exactly the records whose Id is not in the
      list, in their original order. */
  lemma {:induction false} BulkDeleteKeepsUnlisted(ts: seq<Task>, ids: seq<int>, removed: seq<Task>)
    requires UniqueIds(ts)
    ensures BulkDeleteFrom(ts, ids, removed).0 == Filter(ts, NotListed(ids))
    decreases |ids|
  {
    if ids == [] {
      FilterAll(ts, NotListed(ids));
    } else {
      var i := FindIndex(ts, HasId(ids[0]));
      if i == -1 {
        BulkDeleteKeepsUnlisted(ts, ids[1..], removed);
        forall t | t in ts ensures NotListed(ids[1..])(t) == NotListed(ids)(t) {
          var j :| 0 <= j < |ts| && ts[j] == t;
          assert !HasId(ids[0])(ts[j]);
        }
        FilterExt(ts, NotListed(ids[1..]), NotListed(ids));
      } else {
        DeleteIsFilter(ts, ids[0]);
        FilterKeepsIdsUnique(ts, NotId(ids[0]));
        BulkDeleteKeepsUnlisted(RemoveAt(ts, i), ids[1..], removed + [ts[i]]);
        FilterFilter(ts, NotId(ids[0]), NotListed(ids[1..]));
        assert forall t :: Both(NotId(ids[0]), NotListed(ids[1..]))(t) == NotListed(ids)(t);
        FilterExt(ts, Both(NotId(ids[0]), NotListed(ids[1..])), NotListed(ids));
      }
    }
  }

  /** Bulk delete loses no record: what remains and what was removed together are the
      store and the records removed before. */
  lemma {:induction false} BulkDeleteConserves(ts: seq<Task>, ids: seq<int>, removed: seq<Task>)
    ensures var (rest, gone) := BulkDeleteFrom(ts, ids, removed);
            multiset(rest) + multiset(gone) == multiset(ts) + multiset(removed)
    decreases |ids|
  {
    if ids != [] {
      var i := FindIndex(ts, HasId(ids[0]));
      if i == -1 {
        BulkDeleteConserves(ts, ids[1..], removed);
      } else {
        BulkDeleteConserves(RemoveAt(ts, i), ids[1..], removed + [ts[i]]);
      }
    }
  }

  /** One step of bulk delete: the first id either removes nothing or moves one record
      with that Id to the removed records. */
  lemma BulkDeleteStep(ts: seq<Task>, ids: seq<int>, removed: seq<Task>) returns (rest: seq<Task>, more: seq<Task>)
    requires ids != []
    ensures BulkDeleteFrom(ts, ids, removed) == BulkDeleteFrom(rest, ids[1..], more)
    ensures more == removed ||
            (|more| == |removed| + 1 && more[..|removed|] == removed && more[|removed|].Id == ids[0])
  {
    var i := FindIndex(ts, HasId(ids[0]));
    if i == -1 {
      rest, more := ts, removed;
    } else {
      rest, more := RemoveAt(ts, i), removed + [ts[i]];
      assert HasId(ids[0])(ts[i]);
    }
  }

  /** Every record bulk delete removes carries one of the listed Ids, and no more records
      are removed than ids are listed. */
  lemma {:induction false} BulkDeleteRemovesOnlyListed(ts: seq<Task>, ids: seq<int>, removed: seq<Task>)
    ensures var gone := BulkDeleteFrom(ts, ids, removed).1;
            |removed| <= |gone| <= |removed| + |ids| && gone[..|removed|] == removed &&
            forall k :: |removed| <= k < |gone| ==> gone[k].Id in ids
    decreases |ids|
  {
    if ids != [] {
      var rest, more := BulkDeleteStep(ts, ids, removed);
      BulkDeleteRemovesOnlyListed(rest, ids[1..], more);
      var gone := BulkDeleteFrom(rest, ids[1..], more).1;
      assert forall id :: id in ids[1..] ==> id in ids;
      if more != removed {
        assert gone[..|removed|] == gone[..|more|][..|removed|] == more[..|removed|] == removed;
        assert gone[|removed|] == more[|removed|];
        assert ids[0] in ids;
      }
    }
  }

  /** Bulk delete removes no more records with an Id than the list names that Id. */
  lemma {:induction false} BulkDeleteRemovesOncePerId(ts: seq<Task>, ids: seq<int>, removed: seq<Task>, id: int)
    ensures var gone := BulkDeleteFrom(ts, ids, removed).1;
            |removed| <= |gone| && Occurrences(Ids(gone[|removed|..]), id) <= Occurrences(ids, id)
    decreases |ids|
  {
    if ids != [] {
      var rest, more := BulkDeleteStep(ts, ids, removed);
      BulkDeleteRemovesOncePerId(rest, ids[1..], more, id);
      var gone := BulkDeleteFrom(rest, ids[1..], more).1;
      if more != removed {
        BulkDeleteRemovesOnlyListed(rest, ids[1..], more);
        IdsPastOneMore(gone, removed, more);
      }
      OccurrencesCons(ids[0], ids[1..], id);
      assert [ids[0]] + ids[1..] == ids;
    }
  }

  /** When `gone` extends `more`, one record longer than `removed`, the Ids past `removed`
      are that record's Id followed by the Ids past `more`. */
  lemma IdsPastOneMore(gone: seq<Task>, removed: seq<Task>, more: seq<Task>)
    requires |more| == |removed| + 1 <= |gone| && gone[..|more|] == more
    ensures Ids(gone[|removed|..]) == [more[|removed|].Id] + Ids(gone[|more|..])
  {
    assert gone[|removed|] == more[|removed|];
    assert gone[|removed|..] == [more[|removed|]] + gone[|more|..];
    assert Ids([more[|removed|]] + gone[|more|..]) == [more[|removed|].Id] + Ids(gone[|more|..]);
  }

  /** The empty query matches every non-archived task. */
  lemma SearchEmptyQuery(store: TaskStore)
    ensures store.Search("") == Filter(store.tasks, (t: Task) => !t.archived)
  {
    forall t | t in store.tasks
      ensures MatchesQuery(t, Lower("")) == !t.archived
    {
      IncludesEmpty(Lower(t.title));
    }
    FilterExt(store.tasks, (t: Task) => MatchesQuery(t, Lower("")), (t: Task) => !t.archived);
  }

  /** Search ignores the case of the query. */
  lemma SearchIgnoresQueryCase(store: TaskStore, query: string)
    ensures store.Search(query) == store.Search(Lower(query))
  {
    LowerIdempotent(query);
  }
}
