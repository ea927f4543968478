/** The issue provider of maintenance-app/src/contexts/IssuesContext.tsx.
    Local mode behaves as in the other provider; remote mode sends each
    mutation to the document store (its result is a parameter here) and
    never patches the mirror, which only the snapshot listener replaces.
    When that listener fires is not part of this model; what it stores is
    (`ApplySnapshot`). */
module MaintenanceIssuesContext {
  import opened Types
  import opened Issues
  import opened Mirror
  import opened LocalStorage

  /** The fields of an issue document, in their camelCase shape; fields a
      document may lack are options. */
  datatype Doc = Doc(
    title: string,
    description: string,
    submittedBy: string,
    dateSubmitted: int,
    upvotes: Option<seq<string>>,
    status: Option<Status>)

  /** The snapshot mapping: the document id becomes the issue id, a missing
      upvote list reads as empty and a missing status as Pending. */
  function DocToIssue(docId: string, doc: Doc): (r: Issue)
    ensures r.id == docId && r.title == doc.title && r.description == doc.description
    ensures r.submittedBy == doc.submittedBy && r.dateSubmitted == doc.dateSubmitted
    ensures doc.upvotes.None? ==> r.upvotes == []
    ensures doc.upvotes.Some? ==> r.upvotes == doc.upvotes.value
    ensures doc.status.None? ==> r.status == Pending
    ensures doc.status.Some? ==> r.status == doc.status.value
  {
    Issue(docId, doc.title, doc.description, doc.submittedBy, doc.dateSubmitted,
          doc.upvotes.GetOr([]), doc.status.GetOr(Pending))
  }

  /** `querySnapshot.forEach(...)`: the documents mapped in snapshot order. */
  function SnapshotIssues(docs: seq<(string, Doc)>): (r: seq<Issue>)
    ensures |r| == |docs|
    ensures forall i :: 0 <= i < |docs| ==> r[i] == DocToIssue(docs[i].0, docs[i].1)
  {
    if |docs| == 0 then [] else [DocToIssue(docs[0].0, docs[0].1)] + SnapshotIssues(docs[1..])
  }

  /** The document an issue is stored as, under its own id. */
  function IssueDoc(issue: Issue): (string, Doc) {
    (issue.id, Doc(issue.title, issue.description, issue.submittedBy, issue.dateSubmitted,
                   Some(issue.upvotes), Some(issue.status)))
  }

  /** A snapshot of the documents the issues are stored as reads back as
      those issues, in the same order. */
  lemma SnapshotRoundTrip(s: seq<Issue>)
    ensures SnapshotIssues(seq(|s|, i requires 0 <= i < |s| => IssueDoc(s[i]))) == s
  {
    var docs := seq(|s|, i requires 0 <= i < |s| => IssueDoc(s[i]));
    var r := SnapshotIssues(docs);
    forall i | 0 <= i < |s| ensures r[i] == s[i] {
      assert docs[i] == IssueDoc(s[i]);
    }
  }

  /** The document `createIssue` adds. */
  function AddedDoc(data: CreateIssueData, userEmail: string, now: int): Doc {
    Doc(data.title, data.description, userEmail, now, Some([]), Some(Pending))
  }

  /** A remotely created issue reads back, under the id the store gives it,
      as the record the local store would have created. */
  lemma RemoteCreateMatchesLocal(data: CreateIssueData, userEmail: string, docId: string, now: int)
    ensures DocToIssue(docId, AddedDoc(data, userEmail, now)) == NewIssue(data, userEmail, docId, now)
  {
  }

  class IssuesProvider {
    /** The mirror. */
    var issues: seq<Issue>
    var loading: bool
    /** The local store singleton. */
    const store: LocalStorageService
    /** Chosen once by the auth provider for the session. */
    const isUsingLocalStorage: bool
    /** Whether the document-store client `db` exists. */
    const dbReady: bool

    constructor (store: LocalStorageService, isUsingLocalStorage: bool, dbReady: bool)
      ensures this.store == store && this.isUsingLocalStorage == isUsingLocalStorage
      ensures this.dbReady == dbReady
      ensures issues == [] && loading
    {
      this.store := store;
      this.isUsingLocalStorage := isUsingLocalStorage;
      this.dbReady := dbReady;
      issues := [];
      loading := true;
    }

    /** In local mode, the mirror holds exactly the stored issues. */
    ghost predicate MirrorsStore()
      reads this, store
    {
      InSync(issues, store.Stored())
    }

    /** The mount effect. In remote mode with a client it only subscribes,
        which is not modelled. */
    method Initialize()
      modifies this
      ensures isUsingLocalStorage ==> issues == store.Stored() && !loading
      ensures isUsingLocalStorage && store.Valid() ==> MirrorsStore()
      ensures !isUsingLocalStorage ==> issues == old(issues) && loading == (old(loading) && dbReady)
    {
      if isUsingLocalStorage {
        var localIssues := store.GetIssues();
        issues := localIssues;
        loading := false;
        if store.Valid() {
          ReloadInSync(issues);
        }
        return;
      }
      if !dbReady {
        loading := false;
        return;
      }
    }

    /** The body of the snapshot listener: the mirror is replaced. */
    method ApplySnapshot(docs: seq<(string, Doc)>)
      modifies this
      ensures issues == SnapshotIssues(docs) && !loading
    {
      issues := SnapshotIssues(docs);
      loading := false;
    }

    /** Creates an issue as `currentUser`. Local mode: the store appends it
        and the mirror gets it at the front. */
    method CreateIssue(data: CreateIssueData, currentUser: Option<User>, newId: string, now: int,
                       add: BackendResult) returns (outcome: Outcome)
      modifies this, store
      ensures loading == old(loading)
      ensures currentUser.None? ==> outcome == Rejected(Unauthenticated)
      ensures currentUser.Some? && isUsingLocalStorage ==>
                var n := NewIssue(data, currentUser.value.email, newId, now);
                && outcome == Resolved
                && issues == [n] + old(issues)
                && store.issuesBlob == Some(old(store.Stored()) + [n])
                && store.userBlob == old(store.userBlob)
      ensures currentUser.Some? && !isUsingLocalStorage ==>
                outcome == (if !dbReady then Rejected(NotConfigured)
                            else if add.Failure? then Rejected(BackendFailure)
                            else Resolved)
      ensures !(currentUser.Some? && isUsingLocalStorage) ==> issues == old(issues) && unchanged(store)
      ensures isUsingLocalStorage && old(MirrorsStore()) && !HasId(old(store.Stored()), newId) ==> MirrorsStore()
    {
      if currentUser.None? {
        return Rejected(Unauthenticated);
      }
      if isUsingLocalStorage {
        ghost var m0, s0 := issues, store.Stored();
        var newIssue := store.CreateIssue(data, currentUser.value.email, newId, now);
        issues := [newIssue] + issues;
        if InSync(m0, s0) && !HasId(s0, newId) {
          CreateKeepsSync(m0, s0, newIssue);
        }
        return Resolved;
      }
      if !dbReady {
        return Rejected(NotConfigured);
      }
      outcome := if add.Failure? then Rejected(BackendFailure) else Resolved;
    }

    /** Applies a patch. Local mode: the mirror entries with the id take the
        store's result when the store found the issue. */
    method UpdateIssue(id: string, data: UpdateIssueData, write: BackendResult) returns (outcome: Outcome)
      modifies this, store
      ensures loading == old(loading)
      ensures isUsingLocalStorage ==>
                var s := old(store.Stored()); var k := FindIndex(s, id);
                && outcome == Resolved
                && (k < 0 ==> issues == old(issues) && unchanged(store))
                && (k >= 0 ==> issues == ReplaceById(old(issues), id, Patched(s[k], data))
                               && store.issuesBlob == Some(s[k := Patched(s[k], data)]))
                && store.userBlob == old(store.userBlob)
      ensures !isUsingLocalStorage ==>
                && outcome == (if !dbReady then Rejected(NotConfigured)
                               else if write.Failure? then Rejected(BackendFailure)
                               else Resolved)
                && issues == old(issues) && unchanged(store)
      ensures isUsingLocalStorage && old(MirrorsStore()) ==> MirrorsStore()
    {
      if isUsingLocalStorage {
        ghost var m0, s0 := issues, store.Stored();
        var updatedIssue := store.UpdateIssue(id, data);
        if updatedIssue.Some? {
          issues := ReplaceById(issues, id, updatedIssue.value);
          if InSync(m0, s0) {
            UpdateKeepsSync(m0, s0, id, data);
          }
        }
        return Resolved;
      }
      if !dbReady {
        return Rejected(NotConfigured);
      }
      outcome := if write.Failure? then Rejected(BackendFailure) else Resolved;
    }

    /** Deletes an issue. Local mode: the mirror drops the id only when the
        store reports that it removed something. */
    method DeleteIssue(id: string, delete: BackendResult) returns (outcome: Outcome)
      modifies this, store
      ensures loading == old(loading)
      ensures isUsingLocalStorage ==>
                && outcome == Resolved
                && (HasId(old(store.Stored()), id) ==>
                      issues == RemoveId(old(issues), id)
                      && store.issuesBlob == Some(RemoveId(old(store.Stored()), id)))
                && (!HasId(old(store.Stored()), id) ==> issues == old(issues) && unchanged(store))
                && store.userBlob == old(store.userBlob)
      ensures !isUsingLocalStorage ==>
                && outcome == (if !dbReady then Rejected(NotConfigured)
                               else if delete.Failure? then Rejected(BackendFailure)
                               else Resolved)
                && issues == old(issues) && unchanged(store)
      ensures isUsingLocalStorage && old(MirrorsStore()) ==> MirrorsStore()
    {
      if isUsingLocalStorage {
        ghost var m0, s0 := issues, store.Stored();
        var success := store.DeleteIssue(id);
        if success {
          issues := RemoveId(issues, id);
          if InSync(m0, s0) {
            DeleteKeepsSync(m0, s0, id);
          }
        }
        return Resolved;
      }
      if !dbReady {
        return Rejected(NotConfigured);
      }
      outcome := if delete.Failure? then Rejected(BackendFailure) else Resolved;
    }

    /** Upvotes as `currentUser`. Local mode: the mirror is reloaded from the
        store when the store added the vote. */
    method UpvoteIssue(id: string, currentUser: Option<User>, write: BackendResult) returns (outcome: Outcome)
      modifies this, store
      ensures loading == old(loading)
      ensures currentUser.None? ==> outcome == Rejected(Unauthenticated)
      ensures currentUser.Some? && isUsingLocalStorage ==>
                var s := old(store.Stored()); var k := FindIndex(s, id); var e := currentUser.value.email;
                && outcome == Resolved
                && (k >= 0 && e !in s[k].upvotes ==>
                      issues == WithUpvote(s, k, e) && store.issuesBlob == Some(issues))
                && (!(k >= 0 && e !in s[k].upvotes) ==> issues == old(issues) && unchanged(store))
                && store.userBlob == old(store.userBlob)
      ensures currentUser.Some? && !isUsingLocalStorage ==>
                outcome == (if !dbReady then Rejected(NotConfigured)
                            else if write.Failure? then Rejected(BackendFailure)
                            else Resolved)
      ensures !(currentUser.Some? && isUsingLocalStorage) ==> issues == old(issues) && unchanged(store)
      ensures isUsingLocalStorage && old(MirrorsStore()) ==> MirrorsStore()
    {
      if currentUser.None? {
        return Rejected(Unauthenticated);
      }
      if isUsingLocalStorage {
        var success := store.AddUpvote(id, currentUser.value.email);
        if success {
          issues := store.GetIssues();
          if store.Valid() {
            ReloadInSync(issues);
          }
        }
        return Resolved;
      }
      if !dbReady {
        return Rejected(NotConfigured);
      }
      outcome := if write.Failure? then Rejected(BackendFailure) else Resolved;
    }

    /** Withdraws the upvote of `currentUser`. Local mode: the mirror is
        reloaded from the store when the store removed the vote. */
    method RemoveUpvote(id: string, currentUser: Option<User>, write: BackendResult) returns (outcome: Outcome)
      modifies this, store
      ensures loading == old(loading)
      ensures currentUser.None? ==> outcome == Rejected(Unauthenticated)
      ensures currentUser.Some? && isUsingLocalStorage ==>
                var s := old(store.Stored()); var k := FindIndex(s, id); var e := currentUser.value.email;
                && outcome == Resolved
                && (k >= 0 && e in s[k].upvotes ==>
                      issues == WithoutUpvote(s, k, e) && store.issuesBlob == Some(issues))
                && (!(k >= 0 && e in s[k].upvotes) ==> issues == old(issues) && unchanged(store))
                && store.userBlob == old(store.userBlob)
      ensures currentUser.Some? && !isUsingLocalStorage ==>
                outcome == (if !dbReady then Rejected(NotConfigured)
                            else if write.Failure? then Rejected(BackendFailure)
                            else Resolved)
      ensures !(currentUser.Some? && isUsingLocalStorage) ==> issues == old(issues) && unchanged(store)
      ensures isUsingLocalStorage && old(MirrorsStore()) ==> MirrorsStore()
    {
      if currentUser.None? {
        return Rejected(Unauthenticated);
      }
      if isUsingLocalStorage {
        var success := store.RemoveUpvote(id, currentUser.value.email);
        if success {
          issues := store.GetIssues();
          if store.Valid() {
            ReloadInSync(issues);
          }
        }
        return Resolved;
      }
      if !dbReady {
        return Rejected(NotConfigured);
      }
      outcome := if write.Failure? then Rejected(BackendFailure) else Resolved;
    }
  }
}
