/** The browser-local store of src/services/localStorageService.ts. It keeps
    two keys: the serialized issue collection and the serialized current
    user. Every issue operation loads the whole collection, changes the
    loaded copy and writes it back. Serialization is taken to round-trip
    exactly, so a key holds the value that was saved under it. */
module LocalStorage {
  import opened Types
  import opened Issues

  class LocalStorageService {
    /** The 'maintenance_issues' key; None while it is absent. */
    var issuesBlob: Option<seq<Issue>>
    /** The 'maintenance_current_user' key; None while it is absent. */
    var userBlob: Option<User>

    /** A browser whose storage holds neither key. */
    constructor ()
      ensures issuesBlob == None && userBlob == None
    {
      issuesBlob := None;
      userBlob := None;
    }

    /** The collection `getIssues` loads. */
    function Stored(): seq<Issue>
      reads this
    {
      issuesBlob.GetOr([])
    }

    /** The store's invariant: the loaded collection is well formed. */
    predicate Valid()
      reads this
    {
      WellFormed(Stored())
    }

    /** Stores the user, or removes the key when given none. */
    method SetCurrentUser(user: Option<User>)
      modifies this
      ensures userBlob == user && issuesBlob == old(issuesBlob)
    {
      userBlob := user;
    }

    method GetCurrentUser() returns (user: Option<User>)
      ensures user == userBlob
    {
      user := userBlob;
    }

    /** The stored collection, or the empty one when nothing was stored. */
    method GetIssues() returns (issues: seq<Issue>)
      ensures issuesBlob.None? ==> issues == []
      ensures issuesBlob.Some? ==> issues == issuesBlob.value
    {
      if issuesBlob.None? {
        return [];
      }
      issues := issuesBlob.value;
    }

    method SaveIssues(issues: seq<Issue>)
      modifies this
      ensures issuesBlob == Some(issues) && userBlob == old(userBlob)
    {
      issuesBlob := Some(issues);
    }

    /** Appends a new issue built from the form, the author, a new id and the
        current time, and returns it. */
    method CreateIssue(data: CreateIssueData, userEmail: string, newId: string, now: int)
      returns (issue: Issue)
      modifies this
      ensures issue.id == newId && issue.dateSubmitted == now
      ensures issue.title == data.title && issue.description == data.description
      ensures issue.submittedBy == userEmail
      ensures issue.upvotes == [] && issue.status == Pending
      ensures issuesBlob == Some(old(Stored()) + [issue])
      ensures userBlob == old(userBlob)
      ensures old(Valid()) && !HasId(old(Stored()), newId) ==> Valid()
    {
      var issues := GetIssues();
      issue := NewIssue(data, userEmail, newId, now);
      if WellFormed(issues) && !HasId(issues, newId) {
        AppendKeepsWellFormed(issues, issue);
      }
      issues := issues + [issue];
      SaveIssues(issues);
    }

    /** Patches the first issue with the id and returns it, or returns None
        and writes nothing when no issue has the id. */
    method UpdateIssue(id: string, data: UpdateIssueData) returns (updated: Option<Issue>)
      modifies this
      ensures var s := old(Stored()); var k := FindIndex(s, id);
              if k < 0 then updated == None && unchanged(this)
              else updated == Some(Patched(s[k], data)) && issuesBlob == Some(s[k := Patched(s[k], data)])
      ensures userBlob == old(userBlob)
      ensures old(Valid()) ==> Valid()
    {
      var issues := GetIssues();
      var issueIndex := FindIndex(issues, id);
      if issueIndex == -1 {
        return None;
      }
      if WellFormed(issues) {
        PatchKeepsWellFormed(issues, issueIndex, data);
      }
      issues := issues[issueIndex := Patched(issues[issueIndex], data)];
      SaveIssues(issues);
      updated := Some(issues[issueIndex]);
    }

    /** Removes every issue with the id. Reports whether there was one; when
        there was none nothing is written. */
    method DeleteIssue(id: string) returns (deleted: bool)
      modifies this
      ensures deleted == HasId(old(Stored()), id)
      ensures deleted ==> issuesBlob == Some(RemoveId(old(Stored()), id))
      ensures !deleted ==> unchanged(this)
      ensures !HasId(Stored(), id)
      ensures userBlob == old(userBlob)
      ensures old(Valid()) ==> Valid()
    {
      var issues := GetIssues();
      var filteredIssues := RemoveId(issues, id);
      if |filteredIssues| == |issues| {
        return false;
      }
      if WellFormed(issues) {
        RemoveIdKeepsWellFormed(issues, id);
      }
      SaveIssues(filteredIssues);
      deleted := true;
    }

    /** Adds the identity to the first issue with the id, unless there is no
        such issue or the identity already upvoted it. */
    method AddUpvote(issueId: string, userEmail: string) returns (added: bool)
      modifies this
      ensures var s := old(Stored()); var k := FindIndex(s, issueId);
              && (added <==> k >= 0 && userEmail !in s[k].upvotes)
              && (added ==> issuesBlob == Some(WithUpvote(s, k, userEmail)))
      ensures !added ==> unchanged(this)
      ensures userBlob == old(userBlob)
      ensures old(Valid()) ==> Valid()
    {
      var issues := GetIssues();
      var k := FindIndex(issues, issueId);
      if k == -1 || userEmail in issues[k].upvotes {
        return false;
      }
      if WellFormed(issues) {
        WithUpvoteKeepsWellFormed(issues, k, userEmail);
      }
      issues := WithUpvote(issues, k, userEmail);
      SaveIssues(issues);
      added := true;
    }

    /** Drops the identity from the first issue with the id, unless there is
        no such issue or the identity had not upvoted it. */
    method RemoveUpvote(issueId: string, userEmail: string) returns (removed: bool)
      modifies this
      ensures var s := old(Stored()); var k := FindIndex(s, issueId);
              && (removed <==> k >= 0 && userEmail in s[k].upvotes)
              && (removed ==> issuesBlob == Some(WithoutUpvote(s, k, userEmail)))
      ensures !removed ==> unchanged(this)
      ensures userBlob == old(userBlob)
      ensures old(Valid()) ==> Valid()
    {
      var issues := GetIssues();
      var k := FindIndex(issues, issueId);
      if k == -1 || userEmail !in issues[k].upvotes {
        return false;
      }
      if WellFormed(issues) {
        WithoutUpvoteKeepsWellFormed(issues, k, userEmail);
      }
      issues := WithoutUpvote(issues, k, userEmail);
      SaveIssues(issues);
      removed := true;
    }

    /** Seeds the three sample issues when the collection is empty, and does
        nothing otherwise. */
    method InitializeSampleData(now: int)
      modifies this
      ensures old(Stored()) == [] ==> issuesBlob == Some(SampleIssues(now))
      ensures old(Stored()) != [] ==> issuesBlob == old(issuesBlob)
      ensures userBlob == old(userBlob)
      ensures old(Valid()) ==> Valid()
    {
      var issues := GetIssues();
      if |issues| == 0 {
        SaveIssues(SampleIssues(now));
      }
    }

    /** Removes both keys. */
    method ClearAllData()
      modifies this
      ensures issuesBlob == None && userBlob == None
      ensures Stored() == [] && Valid()
    {
      issuesBlob := None;
      userBlob := None;
    }
  }

  /** Saving a user and reading it back gives that user; saving none gives
      none. */
  method CurrentUserRoundTrip(user: Option<User>) returns (read: Option<User>)
    ensures read == user
  {
    var store := new LocalStorageService();
    store.SetCurrentUser(Some(User("someone@fraternity.edu", "0")));
    store.SetCurrentUser(user);
    read := store.GetCurrentUser();
  }

  /** A fresh store loads no issues; after seeding it loads the three sample
      issues, led by the washing-machine report. */
  method SeedFreshStore(now: int) returns (before: seq<Issue>, after: seq<Issue>)
    ensures before == []
    ensures |after| == 3 && after[0].title == WashingMachine
    ensures after[0].status == InProgress && |after[0].upvotes| == 2
  {
    var store := new LocalStorageService();
    before := store.GetIssues();
    store.InitializeSampleData(now);
    after := store.GetIssues();
  }

  /** Deleting an id twice: the first call reports whether it existed, the
      second reports false. */
  method DeleteTwice(initial: seq<Issue>, id: string) returns (first: bool, second: bool, remaining: seq<Issue>)
    ensures first == HasId(initial, id)
    ensures !second && !HasId(remaining, id)
    ensures remaining == RemoveId(initial, id)
  {
    var store := new LocalStorageService();
    store.SaveIssues(initial);
    first := store.DeleteIssue(id);
    if !first {
      RemoveIdAbsent(initial, id);
    }
    second := store.DeleteIssue(id);
    remaining := store.GetIssues();
  }

  /** Upvoting twice with the same identity: the second call is refused and
      the issue holds the identity once. */
  method UpvoteTwice(initial: seq<Issue>, id: string, e: string) returns (first: bool, second: bool, upvotes: seq<string>)
    requires WellFormed(initial) && HasId(initial, id)
    ensures first <==> e !in initial[FindIndex(initial, id)].upvotes
    ensures !second
    ensures NoDup(upvotes) && multiset(upvotes)[e] == 1
  {
    var store := new LocalStorageService();
    store.SaveIssues(initial);
    var k := FindIndex(initial, id);
    first := store.AddUpvote(id, e);
    if first {
      UpvoteTwiceRefused(initial, id, e);
    } else {
      assert e in initial[k].upvotes;
      NoDupCountOne(initial[k].upvotes, e);
    }
    second := store.AddUpvote(id, e);
    var issues := store.GetIssues();
    upvotes := issues[k].upvotes;
  }

  /** An upvote that was added and then removed leaves the stored
      collection as it was. */
  method UpvoteThenUnvote(initial: seq<Issue>, id: string, e: string) returns (added: bool, removed: bool, final: seq<Issue>)
    ensures added ==> removed && final == initial
  {
    var store := new LocalStorageService();
    store.SaveIssues(initial);
    added := store.AddUpvote(id, e);
    if added {
      UpvoteRoundTrip(initial, id, e);
    }
    removed := store.RemoveUpvote(id, e);
    final := store.GetIssues();
  }
}
