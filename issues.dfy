/** Pure operations on issue records and issue lists: the lookups, filters
    and patches that the local store performs on its loaded array
    (src/services/localStorageService.ts) and that the two issue providers
    reuse on their in-memory mirror. */
module Issues {
  import opened Types

  /** Some issue of `s` carries `id`. */
  predicate HasId(s: seq<Issue>, id: string) {
    exists i :: 0 <= i < |s| && s[i].id == id
  }

  /** No two issues of `s` share an id. */
  predicate UniqueIds(s: seq<Issue>) {
    forall i, j :: 0 <= i < j < |s| ==> s[i].id != s[j].id
  }

  /** No identity occurs twice in an upvote list. */
  predicate NoDup(u: seq<string>) {
    forall i, j :: 0 <= i < j < |u| ==> u[i] != u[j]
  }

  /** `issues.findIndex(issue => issue.id === id)`: the first position with
      that id, or -1 when there is none. `issues.find` picks the issue at the
      same position. */
  function FindIndex(s: seq<Issue>, id: string): (r: int)
    ensures -1 <= r < |s|
    ensures r == -1 <==> !HasId(s, id)
    ensures 0 <= r ==> s[r].id == id && forall j :: 0 <= j < r ==> s[j].id != id
  {
    if |s| == 0 then -1
    else if s[0].id == id then 0
    else
      var k := FindIndex(s[1..], id);
      assert HasId(s, id) ==> HasId(s[1..], id) by {
        if HasId(s, id) {
          var i :| 0 <= i < |s| && s[i].id == id;
          assert s[1..][i - 1].id == id;
        }
      }
      if k == -1 then -1 else k + 1
  }

  /** `issues.filter(issue => issue.id !== id)`: every issue without that id,
      in their original order. */
  function RemoveId(s: seq<Issue>, id: string): (r: seq<Issue>)
    ensures |r| <= |s|
    ensures |r| == |s| <==> !HasId(s, id)
    ensures forall x :: x in r <==> x in s && x.id != id
  {
    if |s| == 0 then []
    else
      var rest := RemoveId(s[1..], id);
      assert HasId(s, id) <==> s[0].id == id || HasId(s[1..], id) by {
        if HasId(s, id) && s[0].id != id {
          var i :| 0 <= i < |s| && s[i].id == id;
          assert s[1..][i - 1].id == id;
        }
        if HasId(s[1..], id) {
          var i :| 0 <= i < |s[1..]| && s[1..][i].id == id;
          assert s[i + 1].id == id;
        }
      }
      assert forall x :: x in s <==> x == s[0] || x in s[1..];
      if s[0].id == id then rest else [s[0]] + rest
  }

  /** Filtering distributes over concatenation: the survivors keep their
      relative order. */
  lemma {:induction false} RemoveIdAppend(a: seq<Issue>, b: seq<Issue>, id: string)
    ensures RemoveId(a + b, id) == RemoveId(a, id) + RemoveId(b, id)
  {
    if |a| == 0 {
      assert a + b == b;
    } else {
      assert (a + b)[1..] == a[1..] + b;
      RemoveIdAppend(a[1..], b, id);
    }
  }

  /** Filtering out an id that no issue has changes nothing. */
  lemma {:induction false} RemoveIdAbsent(s: seq<Issue>, id: string)
    requires !HasId(s, id)
    ensures RemoveId(s, id) == s
  {
    if |s| > 0 {
      forall i | 0 <= i < |s[1..]| ensures s[1..][i].id != id {
        assert s[1..][i] == s[i + 1];
      }
      RemoveIdAbsent(s[1..], id);
      assert s == [s[0]] + s[1..];
    }
  }

  /** Filtering removes every copy of an issue with that id and keeps every
      other issue as often as it occurred. */
  lemma {:induction false} RemoveIdCount(s: seq<Issue>, id: string, x: Issue)
    ensures multiset(RemoveId(s, id))[x] == if x.id == id then 0 else multiset(s)[x]
  {
    if |s| > 0 {
      RemoveIdCount(s[1..], id, x);
      assert s == [s[0]] + s[1..];
    }
  }

  /** Filtering keeps the ids unique. */
  lemma {:induction false} RemoveIdKeepsUnique(s: seq<Issue>, id: string)
    requires UniqueIds(s)
    ensures UniqueIds(RemoveId(s, id))
  {
    if |s| > 0 {
      RemoveIdKeepsUnique(s[1..], id);
      var rest := RemoveId(s[1..], id);
      if s[0].id != id {
        forall j | 0 <= j < |rest| ensures rest[j].id != s[0].id {
          assert rest[j] in s[1..];
          var p :| 0 <= p < |s[1..]| && s[1..][p] == rest[j];
          assert s[p + 1] == rest[j];
        }
        var r := [s[0]] + rest;
        forall i, j | 0 <= i < j < |r| ensures r[i].id != r[j].id {
          if i == 0 {
            assert r[j] == rest[j - 1];
          } else {
            assert r[i] == rest[i - 1] && r[j] == rest[j - 1];
          }
        }
      }
    }
  }

  /** Two lists with the same ids at the same positions answer every
      `findIndex` alike. */
  lemma {:induction false} FindIndexSameIds(s: seq<Issue>, t: seq<Issue>, id: string)
    requires |s| == |t|
    requires forall i :: 0 <= i < |s| ==> s[i].id == t[i].id
    ensures FindIndex(s, id) == FindIndex(t, id)
  {
    if |s| > 0 {
      FindIndexSameIds(s[1..], t[1..], id);
    }
  }

  /** `{ ...issue, ...data }`: the fields present in the patch overwrite,
      every other field is kept. */
  function Patched(issue: Issue, data: UpdateIssueData): (r: Issue)
    ensures r.id == issue.id && r.submittedBy == issue.submittedBy
    ensures r.dateSubmitted == issue.dateSubmitted && r.upvotes == issue.upvotes
    ensures data.title.Some? ==> r.title == data.title.value
    ensures data.title.None? ==> r.title == issue.title
    ensures data.description.Some? ==> r.description == data.description.value
    ensures data.description.None? ==> r.description == issue.description
    ensures data.status.Some? ==> r.status == data.status.value
    ensures data.status.None? ==> r.status == issue.status
  {
    issue.(
      title := data.title.GetOr(issue.title),
      description := data.description.GetOr(issue.description),
      status := data.status.GetOr(issue.status))
  }

  /** Applying the same patch twice is the same as applying it once. */
  lemma PatchedIdempotent(issue: Issue, data: UpdateIssueData)
    ensures Patched(Patched(issue, data), data) == Patched(issue, data)
  {
  }

  /** The record `createIssue` builds: fields from the form, author from
      the caller, no upvotes, status Pending. */
  function NewIssue(data: CreateIssueData, userEmail: string, id: string, now: int): Issue {
    Issue(id, data.title, data.description, userEmail, now, [], Pending)
  }

  /** `upvotes.filter(email => email !== e)`: every occurrence of `e` is
      dropped, the rest keep their order. */
  function RemoveAll(u: seq<string>, e: string): (r: seq<string>)
    ensures |r| <= |u|
    ensures forall x :: x in r <==> x in u && x != e
  {
    if |u| == 0 then []
    else
      var rest := RemoveAll(u[1..], e);
      assert forall x :: x in u <==> x == u[0] || x in u[1..];
      if u[0] == e then rest else [u[0]] + rest
  }

  lemma {:induction false} RemoveAllAppend(a: seq<string>, b: seq<string>, e: string)
    ensures RemoveAll(a + b, e) == RemoveAll(a, e) + RemoveAll(b, e)
  {
    if |a| == 0 {
      assert a + b == b;
    } else {
      assert (a + b)[1..] == a[1..] + b;
      RemoveAllAppend(a[1..], b, e);
    }
  }

  lemma {:induction false} RemoveAllAbsent(u: seq<string>, e: string)
    requires e !in u
    ensures RemoveAll(u, e) == u
  {
    if |u| > 0 {
      assert u[1..] + [] == u[1..];
      assert e !in u[1..];
      RemoveAllAbsent(u[1..], e);
      assert u == [u[0]] + u[1..];
    }
  }

  /** Removing an identity that was just appended to a list not holding it
      gives back the original list. */
  lemma AddThenRemoveRestores(u: seq<string>, e: string)
    requires e !in u
    ensures RemoveAll(u + [e], e) == u
  {
    RemoveAllAppend(u, [e], e);
    RemoveAllAbsent(u, e);
    assert RemoveAll([e], e) == [];
  }

  /** Filtering keeps an upvote list duplicate-free. */
  lemma {:induction false} RemoveAllKeepsNoDup(u: seq<string>, e: string)
    requires NoDup(u)
    ensures NoDup(RemoveAll(u, e))
  {
    if |u| > 0 {
      assert NoDup(u[1..]);
      RemoveAllKeepsNoDup(u[1..], e);
      var rest := RemoveAll(u[1..], e);
      if u[0] != e {
        assert u[0] !in u[1..];
        var r := [u[0]] + rest;
        forall i, j | 0 <= i < j < |r| ensures r[i] != r[j] {
          if i == 0 {
            assert r[j] == rest[j - 1] && r[j] in u[1..];
          } else {
            assert r[i] == rest[i - 1] && r[j] == rest[j - 1];
          }
        }
      }
    }
  }

  /** Appending an absent identity keeps an upvote list duplicate-free and
      leaves exactly one occurrence of it. */
  lemma AppendKeepsNoDup(u: seq<string>, e: string)
    requires NoDup(u) && e !in u
    ensures NoDup(u + [e]) && multiset(u + [e])[e] == 1
  {
    assert multiset(u)[e] == 0;
  }

  /** In a duplicate-free list every present identity occurs exactly once. */
  lemma {:induction false} NoDupCountOne(u: seq<string>, e: string)
    requires NoDup(u) && e in u
    ensures multiset(u)[e] == 1
  {
    assert u == [u[0]] + u[1..];
    if u[0] == e {
      assert e !in u[1..];
    } else {
      assert NoDup(u[1..]);
      NoDupCountOne(u[1..], e);
    }
  }

  /** `issue.upvotes.push(e)` on the issue at position k. */
  function WithUpvote(s: seq<Issue>, k: nat, e: string): (r: seq<Issue>)
    requires k < |s|
  {
    s[k := s[k].(upvotes := s[k].upvotes + [e])]
  }

  /** `issue.upvotes = issue.upvotes.filter(...)` on the issue at position k. */
  function WithoutUpvote(s: seq<Issue>, k: nat, e: string): (r: seq<Issue>)
    requires k < |s|
  {
    s[k := s[k].(upvotes := RemoveAll(s[k].upvotes, e))]
  }

  /** After a successful add the same add is refused: the issue is still
      found at the same position and now holds the identity, exactly once
      when its upvotes had no duplicates. */
  lemma UpvoteTwiceRefused(s: seq<Issue>, id: string, e: string)
    requires FindIndex(s, id) >= 0
    requires e !in s[FindIndex(s, id)].upvotes
    ensures var k := FindIndex(s, id);
            && FindIndex(WithUpvote(s, k, e), id) == k
            && e in WithUpvote(s, k, e)[k].upvotes
            && (NoDup(s[k].upvotes) ==> NoDup(WithUpvote(s, k, e)[k].upvotes))
            && (NoDup(s[k].upvotes) ==> multiset(WithUpvote(s, k, e)[k].upvotes)[e] == 1)
  {
    var k := FindIndex(s, id);
    FindIndexSameIds(s, WithUpvote(s, k, e), id);
    if NoDup(s[k].upvotes) {
      AppendKeepsNoDup(s[k].upvotes, e);
    }
  }

  /** An add that succeeded followed by a remove of the same identity gives
      back the list exactly, and the remove finds the issue where the add
      put the upvote. */
  lemma UpvoteRoundTrip(s: seq<Issue>, id: string, e: string)
    requires FindIndex(s, id) >= 0
    requires e !in s[FindIndex(s, id)].upvotes
    ensures var k := FindIndex(s, id);
            && FindIndex(WithUpvote(s, k, e), id) == k
            && WithoutUpvote(WithUpvote(s, k, e), k, e) == s
  {
    var k := FindIndex(s, id);
    FindIndexSameIds(s, WithUpvote(s, k, e), id);
    AddThenRemoveRestores(s[k].upvotes, e);
  }

  /** What every stored collection keeps: unique ids and duplicate-free
      upvote lists. */
  predicate WellFormed(s: seq<Issue>) {
    UniqueIds(s) && forall i :: 0 <= i < |s| ==> NoDup(s[i].upvotes)
  }

  /** Appending a new issue with an id not yet used and no upvotes keeps the
      collection well formed. */
  lemma AppendKeepsWellFormed(s: seq<Issue>, n: Issue)
    requires WellFormed(s) && !HasId(s, n.id) && n.upvotes == []
    ensures WellFormed(s + [n])
  {
    var r := s + [n];
    forall i, j | 0 <= i < j < |r| ensures r[i].id != r[j].id {
      if j == |s| {
        assert r[i] == s[i];
      }
    }
  }

  /** A patch keeps ids and upvotes, so the collection stays well formed. */
  lemma PatchKeepsWellFormed(s: seq<Issue>, k: nat, data: UpdateIssueData)
    requires k < |s| && WellFormed(s)
    ensures WellFormed(s[k := Patched(s[k], data)])
  {
    var r := s[k := Patched(s[k], data)];
    forall i, j | 0 <= i < j < |r| ensures r[i].id != r[j].id {
      assert r[i].id == s[i].id && r[j].id == s[j].id;
    }
  }

  lemma RemoveIdKeepsWellFormed(s: seq<Issue>, id: string)
    requires WellFormed(s)
    ensures WellFormed(RemoveId(s, id))
  {
    RemoveIdKeepsUnique(s, id);
    var r := RemoveId(s, id);
    forall i | 0 <= i < |r| ensures NoDup(r[i].upvotes) {
      assert r[i] in s;
    }
  }

  /** Adding an identity that the issue does not hold yet keeps the
      collection well formed. */
  lemma WithUpvoteKeepsWellFormed(s: seq<Issue>, k: nat, e: string)
    requires k < |s| && WellFormed(s) && e !in s[k].upvotes
    ensures WellFormed(WithUpvote(s, k, e))
  {
    AppendKeepsNoDup(s[k].upvotes, e);
    var r := WithUpvote(s, k, e);
    forall i, j | 0 <= i < j < |r| ensures r[i].id != r[j].id {
      assert r[i].id == s[i].id && r[j].id == s[j].id;
    }
  }

  lemma WithoutUpvoteKeepsWellFormed(s: seq<Issue>, k: nat, e: string)
    requires k < |s| && WellFormed(s)
    ensures WellFormed(WithoutUpvote(s, k, e))
  {
    RemoveAllKeepsNoDup(s[k].upvotes, e);
    var r := WithoutUpvote(s, k, e);
    forall i, j | 0 <= i < j < |r| ensures r[i].id != r[j].id {
      assert r[i].id == s[i].id && r[j].id == s[j].id;
    }
  }

  const WashingMachine := "Broken washing machine in laundry room"
  const WashingMachineDetails := "The washing machine on the second floor is making loud noises and not draining properly. Water is pooling at the bottom."
  const SinkDetails := "The main kitchen sink has a persistent drip that started yesterday. It's wasting water and making noise."
  const WifiDetails := "The WiFi signal is very weak in the main study room. Members can't connect to video calls for classes."

  /** The three records seeded into an empty store, oldest first; `now` is
      the clock reading at seeding time. */
  function SampleIssues(now: int): (r: seq<Issue>)
    ensures |r| == 3 && r[0].id == "1" && r[1].id == "2" && r[2].id == "3"
    ensures r[0].title == WashingMachine
    ensures r[0].status == InProgress && |r[0].upvotes| == 2
    ensures WellFormed(r)
    ensures forall i :: 0 <= i < |r| ==> "" !in r[i].upvotes
    ensures forall i, j :: 0 <= i < j < |r| ==> r[i].dateSubmitted < r[j].dateSubmitted
  {
    [
      Issue("1", WashingMachine, WashingMachineDetails,
        "member1@fraternity.edu", now - 86400000,
        ["member2@fraternity.edu", "president@fraternity.edu"], InProgress),
      Issue("2", "Kitchen sink faucet leaking", SinkDetails,
        "president@fraternity.edu", now - 43200000,
        ["member1@fraternity.edu"], Pending),
      Issue("3", "WiFi dead zone in study room", WifiDetails,
        "member2@fraternity.edu", now - 21600000,
        ["member1@fraternity.edu", "president@fraternity.edu", "member3@fraternity.edu"], Pending)
    ]
  }
}
