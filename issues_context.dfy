/** The issue provider of src/contexts/IssuesContext.tsx. In local mode each
    mutation delegates to the local store and patches the mirror; in remote
    mode it sends a row mutation to the managed backend (its result is a
    parameter here) and, for upvotes, patches the mirror optimistically.
    The realtime subscription that re-fetches on every change is not part
    of this model; the fetch it runs is (`FetchIssues`). */
module IssuesContext {
  import opened Types
  import opened Issues
  import opened Mirror
  import opened LocalStorage

  /** A row of the remote `issues` table, in its snake_case shape; the
      nullable columns are options. */
  datatype Row = Row(
    id: string,
    title: string,
    description: string,
    submitted_by: string,
    date_submitted: int,
    upvotes: Option<seq<string>>,
    status: Option<Status>)

  /** The row-to-issue mapping of `fetchIssues`: columns are renamed, a
      missing upvote list reads as empty and a missing status as Pending. */
  function RowToIssue(row: Row): (r: Issue)
    ensures r.id == row.id && r.title == row.title && r.description == row.description
    ensures r.submittedBy == row.submitted_by && r.dateSubmitted == row.date_submitted
    ensures row.upvotes.None? ==> r.upvotes == []
    ensures row.upvotes.Some? ==> r.upvotes == row.upvotes.value
    ensures row.status.None? ==> r.status == Pending
    ensures row.status.Some? ==> r.status == row.status.value
  {
    Issue(row.id, row.title, row.description, row.submitted_by, row.date_submitted,
          row.upvotes.GetOr([]), row.status.GetOr(Pending))
  }

  /** `data.map(...)` over a fetched result, in the order the backend
      returned it. */
  function RowsToIssues(rows: seq<Row>): (r: seq<Issue>)
    ensures |r| == |rows|
    ensures forall i :: 0 <= i < |rows| ==> r[i] == RowToIssue(rows[i])
  {
    if |rows| == 0 then [] else [RowToIssue(rows[0])] + RowsToIssues(rows[1..])
  }

  /** A row whose nullable columns are all present reads back as the issue
      it was written from. */
  lemma RowRoundTrip(issue: Issue)
    ensures RowToIssue(Row(issue.id, issue.title, issue.description, issue.submittedBy,
                           issue.dateSubmitted, Some(issue.upvotes), Some(issue.status))) == issue
  {
  }

  /** The row `createIssue` inserts, once the backend has given it `id`. */
  function InsertedRow(data: CreateIssueData, userEmail: string, id: string, now: int): Row {
    Row(id, data.title, data.description, userEmail, now, Some([]), Some(Pending))
  }

  /** A remotely created issue reads back as the record the local store
      would have created. */
  lemma RemoteCreateMatchesLocal(data: CreateIssueData, userEmail: string, id: string, now: int)
    ensures RowToIssue(InsertedRow(data, userEmail, id, now)) == NewIssue(data, userEmail, id, now)
  {
  }

  /** A column value of an update payload. */
  datatype Column = Text(text: string) | StatusColumn(status: Status)

  /** The `updateData` object: one key per field of the patch that is
      defined, and no other key. */
  function UpdatePayload(data: UpdateIssueData): (p: map<string, Column>)
    ensures p.Keys <= {"title", "description", "status"}
    ensures "title" in p <==> data.title.Some?
    ensures "description" in p <==> data.description.Some?
    ensures "status" in p <==> data.status.Some?
    ensures data.title.Some? ==> p["title"] == Text(data.title.value)
    ensures data.description.Some? ==> p["description"] == Text(data.description.value)
    ensures data.status.Some? ==> p["status"] == StatusColumn(data.status.value)
  {
    var p0: map<string, Column> := map[];
    var p1 := if data.title.Some? then p0["title" := Text(data.title.value)] else p0;
    var p2 := if data.description.Some? then p1["description" := Text(data.description.value)] else p1;
    if data.status.Some? then p2["status" := StatusColumn(data.status.value)] else p2
  }

  /** What the backend's `update(...).eq('id', id)` does to the matching
      row: each key of the payload overwrites its column. */
  function ApplyPayload(row: Row, p: map<string, Column>): Row {
    row.(
      title := if "title" in p && p["title"].Text? then p["title"].text else row.title,
      description := if "description" in p && p["description"].Text? then p["description"].text else row.description,
      status := if "status" in p && p["status"].StatusColumn? then Some(p["status"].status) else row.status)
  }

  /** A remote update reads back as the local store's patch of the same
      record. */
  lemma RemoteUpdateMatchesLocal(row: Row, data: UpdateIssueData)
    ensures RowToIssue(ApplyPayload(row, UpdatePayload(data))) == Patched(RowToIssue(row), data)
  {
  }

  /** `Array.from(new Set(u))`: the first occurrence of each identity, in
      order. */
  function Dedup(u: seq<string>): (r: seq<string>)
    ensures NoDup(r)
    ensures forall x :: x in r <==> x in u
  {
    if |u| == 0 then []
    else
      var init := u[..|u| - 1];
      var d := Dedup(init);
      var last := u[|u| - 1];
      assert u == init + [last];
      if last in d then d else d + [last]
  }

  /** A duplicate-free list is its own deduplication. */
  lemma {:induction false} DedupOfNoDup(u: seq<string>)
    requires NoDup(u)
    ensures Dedup(u) == u
  {
    if |u| > 0 {
      var init := u[..|u| - 1];
      assert NoDup(init);
      DedupOfNoDup(init);
      assert u[|u| - 1] !in init;
      assert u == init + [u[|u| - 1]];
    }
  }

  /** Deduplicating after appending a present identity changes nothing. */
  lemma DedupAppendPresent(u: seq<string>, e: string)
    requires e in Dedup(u)
    ensures Dedup(u + [e]) == Dedup(u)
  {
    assert (u + [e])[..|u + [e]| - 1] == u;
  }

  /** The optimistic upvote list: the old upvotes and the user, empty
      identities dropped (`filter(Boolean)`), duplicates removed. */
  function MergedUpvotes(u: seq<string>, e: string): (r: seq<string>)
    ensures NoDup(r) && "" !in r
    ensures forall x :: x in r <==> (x in u || x == e) && x != ""
  {
    Dedup(RemoveAll(u + [e], ""))
  }

  /** For a new voter on a clean list the optimistic merge appends the
      voter, exactly as the local store's `addUpvote` does. */
  lemma MergeMatchesLocalAdd(u: seq<string>, e: string)
    requires NoDup(u) && "" !in u && e != "" && e !in u
    ensures MergedUpvotes(u, e) == u + [e]
  {
    RemoveAllAppend(u, [e], "");
    RemoveAllAbsent(u, "");
    RemoveAllAbsent([e], "");
    AppendKeepsNoDup(u, e);
    DedupOfNoDup(u + [e]);
  }

  /** A voter already on a clean list is not counted twice. */
  lemma MergeAlreadyPresent(u: seq<string>, e: string)
    requires NoDup(u) && "" !in u && e in u
    ensures MergedUpvotes(u, e) == u
  {
    RemoveAllAppend(u, [e], "");
    RemoveAllAbsent(u, "");
    RemoveAllAbsent([e], "");
    DedupOfNoDup(u);
    DedupAppendPresent(u, e);
  }

  /** Merging the same voter again changes nothing. */
  lemma MergeIdempotent(u: seq<string>, e: string)
    ensures MergedUpvotes(MergedUpvotes(u, e), e) == MergedUpvotes(u, e)
  {
    var r := MergedUpvotes(u, e);
    if e != "" {
      MergeAlreadyPresent(r, e);
    } else {
      RemoveAllAppend(r, [e], "");
      RemoveAllAbsent(r, "");
      assert RemoveAll([e], "") == [];
      assert r + [] == r;
      DedupOfNoDup(r);
    }
  }

  /** The optimistic patch after a remote upvote. */
  function OptimisticUpvote(m: seq<Issue>, id: string, e: string): seq<Issue> {
    MapById(m, id, (x: Issue) => x.(upvotes := MergedUpvotes(x.upvotes, e)))
  }

  /** The optimistic patch after a remote upvote removal. */
  function OptimisticRemove(m: seq<Issue>, id: string, e: string): seq<Issue> {
    MapById(m, id, (x: Issue) => x.(upvotes := RemoveAll(x.upvotes, e)))
  }

  /** The optimistic upvote touches only the entries with the id; their
      upvotes become the duplicate-free union of the old ones and the
      voter, without empty identities. */
  lemma OptimisticUpvoteEffect(m: seq<Issue>, id: string, e: string)
    ensures var r := OptimisticUpvote(m, id, e);
            && |r| == |m|
            && (forall i :: 0 <= i < |m| && m[i].id != id ==> r[i] == m[i])
            && (forall i :: 0 <= i < |m| && m[i].id == id ==>
                  && r[i] == m[i].(upvotes := r[i].upvotes)
                  && NoDup(r[i].upvotes) && "" !in r[i].upvotes
                  && forall x :: x in r[i].upvotes <==> (x in m[i].upvotes || x == e) && x != "")
  {
  }

  /** Applying the optimistic upvote twice is the same as applying it once. */
  lemma OptimisticUpvoteIdempotent(m: seq<Issue>, id: string, e: string)
    ensures OptimisticUpvote(OptimisticUpvote(m, id, e), id, e) == OptimisticUpvote(m, id, e)
  {
    var r1 := OptimisticUpvote(m, id, e);
    var r2 := OptimisticUpvote(r1, id, e);
    forall i | 0 <= i < |m| ensures r2[i] == r1[i] {
      if m[i].id == id {
        MergeIdempotent(m[i].upvotes, e);
      }
    }
  }

  /** On a mirror with unique ids and a clean upvote list, the optimistic
      upvote of a new voter gives what the local store's `addUpvote` gives. */
  lemma OptimisticUpvoteMatchesLocal(m: seq<Issue>, j: nat, e: string)
    requires j < |m| && UniqueIds(m)
    requires NoDup(m[j].upvotes) && "" !in m[j].upvotes && e != "" && e !in m[j].upvotes
    ensures OptimisticUpvote(m, m[j].id, e) == WithUpvote(m, j, e)
  {
    MapByIdUnique(m, j, (x: Issue) => x.(upvotes := MergedUpvotes(x.upvotes, e)));
    MergeMatchesLocalAdd(m[j].upvotes, e);
  }

  /** On a mirror with unique ids, the optimistic removal gives what the
      local store's `removeUpvote` gives. */
  lemma OptimisticRemoveMatchesLocal(m: seq<Issue>, j: nat, e: string)
    requires j < |m| && UniqueIds(m)
    ensures OptimisticRemove(m, m[j].id, e) == WithoutUpvote(m, j, e)
  {
    MapByIdUnique(m, j, (x: Issue) => x.(upvotes := RemoveAll(x.upvotes, e)));
  }

  /** The optimistic removal drops every occurrence of the voter from the
      entries with the id and touches nothing else. */
  lemma OptimisticRemoveEffect(m: seq<Issue>, id: string, e: string)
    ensures var r := OptimisticRemove(m, id, e);
            && |r| == |m|
            && (forall i :: 0 <= i < |m| && m[i].id != id ==> r[i] == m[i])
            && (forall i :: 0 <= i < |m| && m[i].id == id ==>
                  && r[i] == m[i].(upvotes := r[i].upvotes)
                  && forall x :: x in r[i].upvotes <==> x in m[i].upvotes && x != e)
  {
  }

  class IssuesProvider {
    /** The mirror. */
    var issues: seq<Issue>
    var loading: bool
    /** The local store singleton. */
    const store: LocalStorageService
    /** Chosen once by the auth provider for the session. */
    const isUsingLocalStorage: bool
    /** `isSupabaseConfigured()`. */
    const supabaseConfigured: bool

    constructor (store: LocalStorageService, isUsingLocalStorage: bool, supabaseConfigured: bool)
      ensures this.store == store && this.isUsingLocalStorage == isUsingLocalStorage
      ensures this.supabaseConfigured == supabaseConfigured
      ensures issues == [] && loading
    {
      this.store := store;
      this.isUsingLocalStorage := isUsingLocalStorage;
      this.supabaseConfigured := supabaseConfigured;
      issues := [];
      loading := true;
    }

    /** In local mode, the mirror holds exactly the stored issues. */
    ghost predicate MirrorsStore()
      reads this, store
    {
      InSync(issues, store.Stored())
    }

    /** The remote fetch; `fetched` is None when the backend reported an
        error. */
    method FetchIssues(fetched: Option<seq<Row>>)
      modifies this
      ensures !loading
      ensures fetched.None? ==> issues == old(issues)
      ensures fetched.Some? ==> issues == RowsToIssues(fetched.value)
    {
      if fetched.None? {
        loading := false;
        return;
      }
      issues := RowsToIssues(fetched.value);
      loading := false;
    }

    /** The mount effect. */
    method Initialize(fetched: Option<seq<Row>>)
      modifies this
      ensures !loading
      ensures isUsingLocalStorage ==> issues == store.Stored()
      ensures isUsingLocalStorage && store.Valid() ==> MirrorsStore()
      ensures !isUsingLocalStorage && (!supabaseConfigured || fetched.None?) ==> issues == old(issues)
      ensures !isUsingLocalStorage && supabaseConfigured && fetched.Some? ==>
                issues == RowsToIssues(fetched.value)
    {
      if isUsingLocalStorage {
        var localIssues := store.GetIssues();
        issues := localIssues;
        loading := false;
        if store.Valid() {
          ReloadInSync(issues);
        }
        return;
      }
      if !supabaseConfigured {
        loading := false;
        return;
      }
      FetchIssues(fetched);
    }

    /** Creates an issue as `currentUser`. Local mode: the store appends it
        and the mirror gets it at the front. Remote mode: the row is
        inserted and the mirror waits for the change notification. */
    method CreateIssue(data: CreateIssueData, currentUser: Option<User>, newId: string, now: int,
                       insert: BackendResult) returns (outcome: Outcome)
      modifies this, store
      ensures loading == old(loading)
      ensures currentUser.None? ==> outcome == Rejected(Unauthenticated)
      ensures currentUser.Some? && isUsingLocalStorage ==>
                var n := NewIssue(data, currentUser.value.email, newId, now);
                && outcome == Resolved
                && issues == [n] + old(issues)
                && store.issuesBlob == Some(old(store.Stored()) + [n])
                && store.userBlob == old(store.userBlob)
      ensures currentUser.Some? && !isUsingLocalStorage ==>
                outcome == (if !supabaseConfigured then Rejected(NotConfigured)
                            else if insert.Failure? then Rejected(BackendFailure)
                            else Resolved)
      ensures !(currentUser.Some? && isUsingLocalStorage) ==> issues == old(issues) && unchanged(store)
      ensures isUsingLocalStorage && old(MirrorsStore()) && !HasId(old(store.Stored()), newId) ==> MirrorsStore()
    {
      if currentUser.None? {
        return Rejected(Unauthenticated);
      }
      if isUsingLocalStorage {
        ghost var m0, s0 := issues, store.Stored();
        var newIssue := store.CreateIssue(data, currentUser.value.email, newId, now);
        issues := [newIssue] + issues;
        if InSync(m0, s0) && !HasId(s0, newId) {
          CreateKeepsSync(m0, s0, newIssue);
        }
        return Resolved;
      }
      if !supabaseConfigured {
        return Rejected(NotConfigured);
      }
      if insert.Failure? {
        return Rejected(BackendFailure);
      }
      outcome := Resolved;
    }

    /** Applies a patch. Local mode: the mirror entries with the id take the
        store's result when the store found the issue. Remote mode: the
        payload of defined fields is sent (`sent`) and the mirror waits for
        the change notification. */
    method UpdateIssue(id: string, data: UpdateIssueData, write: BackendResult)
      returns (outcome: Outcome, sent: Option<map<string, Column>>)
      modifies this, store
      ensures loading == old(loading)
      ensures isUsingLocalStorage ==>
                var s := old(store.Stored()); var k := FindIndex(s, id);
                && outcome == Resolved
                && (k < 0 ==> issues == old(issues) && unchanged(store))
                && (k >= 0 ==> issues == ReplaceById(old(issues), id, Patched(s[k], data))
                               && store.issuesBlob == Some(s[k := Patched(s[k], data)]))
                && store.userBlob == old(store.userBlob)
      ensures !isUsingLocalStorage ==>
                && outcome == (if !supabaseConfigured then Rejected(NotConfigured)
                               else if write.Failure? then Rejected(BackendFailure)
                               else Resolved)
                && issues == old(issues) && unchanged(store)
      ensures sent == (if !isUsingLocalStorage && supabaseConfigured then Some(UpdatePayload(data)) else None)
      ensures isUsingLocalStorage && old(MirrorsStore()) ==> MirrorsStore()
    {
      sent := None;
      if isUsingLocalStorage {
        ghost var m0, s0 := issues, store.Stored();
        var updatedIssue := store.UpdateIssue(id, data);
        if updatedIssue.Some? {
          issues := ReplaceById(issues, id, updatedIssue.value);
          if InSync(m0, s0) {
            UpdateKeepsSync(m0, s0, id, data);
          }
        }
        return Resolved, None;
      }
      if !supabaseConfigured {
        return Rejected(NotConfigured), None;
      }
      var updateData := UpdatePayload(data);
      sent := Some(updateData);
      if write.Failure? {
        return Rejected(BackendFailure), sent;
      }
      outcome := Resolved;
    }

    /** Deletes an issue. Local mode: the mirror drops the id only when the
        store reports that it removed something. */
    method DeleteIssue(id: string, delete: BackendResult) returns (outcome: Outcome)
      modifies this, store
      ensures loading == old(loading)
      ensures isUsingLocalStorage ==>
                && outcome == Resolved
                && (HasId(old(store.Stored()), id) ==>
                      issues == RemoveId(old(issues), id)
                      && store.issuesBlob == Some(RemoveId(old(store.Stored()), id)))
                && (!HasId(old(store.Stored()), id) ==> issues == old(issues) && unchanged(store))
                && store.userBlob == old(store.userBlob)
      ensures !isUsingLocalStorage ==>
                && outcome == (if !supabaseConfigured then Rejected(NotConfigured)
                               else if delete.Failure? then Rejected(BackendFailure)
                               else Resolved)
                && issues == old(issues) && unchanged(store)
      ensures isUsingLocalStorage && old(MirrorsStore()) ==> MirrorsStore()
    {
      if isUsingLocalStorage {
        ghost var m0, s0 := issues, store.Stored();
        var success := store.DeleteIssue(id);
        if success {
          issues := RemoveId(issues, id);
          if InSync(m0, s0) {
            DeleteKeepsSync(m0, s0, id);
          }
        }
        return Resolved;
      }
      if !supabaseConfigured {
        return Rejected(NotConfigured);
      }
      if delete.Failure? {
        return Rejected(BackendFailure);
      }
      outcome := Resolved;
    }

    /** Upvotes as `currentUser`. Local mode: the mirror is reloaded from the
        store when the store added the vote. Remote mode: after the fetch
        and the write both succeed the mirror is patched optimistically. */
    method UpvoteIssue(id: string, currentUser: Option<User>, fetch: BackendResult, write: BackendResult)
      returns (outcome: Outcome)
      modifies this, store
      ensures loading == old(loading)
      ensures currentUser.None? ==> outcome == Rejected(Unauthenticated)
      ensures currentUser.Some? && isUsingLocalStorage ==>
                var s := old(store.Stored()); var k := FindIndex(s, id); var e := currentUser.value.email;
                && outcome == Resolved
                && (k >= 0 && e !in s[k].upvotes ==>
                      issues == WithUpvote(s, k, e) && store.issuesBlob == Some(issues))
                && (!(k >= 0 && e !in s[k].upvotes) ==> issues == old(issues) && unchanged(store))
                && store.userBlob == old(store.userBlob)
      ensures currentUser.Some? && !isUsingLocalStorage ==>
                && outcome == (if !supabaseConfigured then Rejected(NotConfigured)
                               else if fetch.Failure? || write.Failure? then Rejected(BackendFailure)
                               else Resolved)
                && issues == (if outcome == Resolved then OptimisticUpvote(old(issues), id, currentUser.value.email)
                              else old(issues))
      ensures !(currentUser.Some? && isUsingLocalStorage) ==> unchanged(store)
      ensures currentUser.None? ==> issues == old(issues)
      ensures isUsingLocalStorage && old(MirrorsStore()) ==> MirrorsStore()
    {
      if currentUser.None? {
        return Rejected(Unauthenticated);
      }
      var email := currentUser.value.email;
      if isUsingLocalStorage {
        var success := store.AddUpvote(id, email);
        if success {
          issues := store.GetIssues();
          if store.Valid() {
            ReloadInSync(issues);
          }
        }
        return Resolved;
      }
      if !supabaseConfigured {
        return Rejected(NotConfigured);
      }
      if fetch.Failure? {
        return Rejected(BackendFailure);
      }
      if write.Failure? {
        return Rejected(BackendFailure);
      }
      issues := OptimisticUpvote(issues, id, email);
      outcome := Resolved;
    }

    /** Withdraws the upvote of `currentUser`. Local mode: the mirror is
        reloaded from the store when the store removed the vote. Remote
        mode: after the fetch and the write both succeed the mirror is
        patched optimistically. */
    method RemoveUpvote(id: string, currentUser: Option<User>, fetch: BackendResult, write: BackendResult)
      returns (outcome: Outcome)
      modifies this, store
      ensures loading == old(loading)
      ensures currentUser.None? ==> outcome == Rejected(Unauthenticated)
      ensures currentUser.Some? && isUsingLocalStorage ==>
                var s := old(store.Stored()); var k := FindIndex(s, id); var e := currentUser.value.email;
                && outcome == Resolved
                && (k >= 0 && e in s[k].upvotes ==>
                      issues == WithoutUpvote(s, k, e) && store.issuesBlob == Some(issues))
                && (!(k >= 0 && e in s[k].upvotes) ==> issues == old(issues) && unchanged(store))
                && store.userBlob == old(store.userBlob)
      ensures currentUser.Some? && !isUsingLocalStorage ==>
                && outcome == (if !supabaseConfigured then Rejected(NotConfigured)
                               else if fetch.Failure? || write.Failure? then Rejected(BackendFailure)
                               else Resolved)
                && issues == (if outcome == Resolved then OptimisticRemove(old(issues), id, currentUser.value.email)
                              else old(issues))
      ensures !(currentUser.Some? && isUsingLocalStorage) ==> unchanged(store)
      ensures currentUser.None? ==> issues == old(issues)
      ensures isUsingLocalStorage && old(MirrorsStore()) ==> MirrorsStore()
    {
      if currentUser.None? {
        return Rejected(Unauthenticated);
      }
      var email := currentUser.value.email;
      if isUsingLocalStorage {
        var success := store.RemoveUpvote(id, email);
        if success {
          issues := store.GetIssues();
          if store.Valid() {
            ReloadInSync(issues);
          }
        }
        return Resolved;
      }
      if !supabaseConfigured {
        return Rejected(NotConfigured);
      }
      if fetch.Failure? {
        return Rejected(BackendFailure);
      }
      if write.Failure? {
        return Rejected(BackendFailure);
      }
      issues := OptimisticRemove(issues, id, email);
      outcome := Resolved;
    }
  }
}
