/** The list transformations both issue providers apply to their in-memory
    mirror (src/contexts/IssuesContext.tsx and
    maintenance-app/src/contexts/IssuesContext.tsx), and the relation that
    keeps a local-mode mirror in step with the local store. */
module Mirror {
  import opened Types
  import opened Issues

  /** `prev.map(issue => issue.id === id ? f(issue) : issue)`: every entry
      with the id is rewritten by `f`, every other entry stays where it is. */
  function MapById(m: seq<Issue>, id: string, f: Issue -> Issue): (r: seq<Issue>)
    ensures |r| == |m|
    ensures forall i :: 0 <= i < |m| && m[i].id != id ==> r[i] == m[i]
    ensures forall i :: 0 <= i < |m| && m[i].id == id ==> r[i] == f(m[i])
  {
    if |m| == 0 then []
    else [if m[0].id == id then f(m[0]) else m[0]] + MapById(m[1..], id, f)
  }

  /** The local-update patch: matching entries become the store's result. */
  function ReplaceById(m: seq<Issue>, id: string, updated: Issue): seq<Issue> {
    MapById(m, id, _ => updated)
  }

  /** A mirror without the id is left as it is. */
  lemma {:induction false} MapByIdAbsent(m: seq<Issue>, id: string, f: Issue -> Issue)
    requires !HasId(m, id)
    ensures MapById(m, id, f) == m
  {
    if |m| > 0 {
      forall i | 0 <= i < |m[1..]| ensures m[1..][i].id != id {
        assert m[1..][i] == m[i + 1];
      }
      MapByIdAbsent(m[1..], id, f);
      assert m == [m[0]] + m[1..];
    }
  }

  /** When ids are unique the map rewrites exactly one position. */
  lemma MapByIdUnique(m: seq<Issue>, j: nat, f: Issue -> Issue)
    requires j < |m| && UniqueIds(m)
    ensures MapById(m, m[j].id, f) == m[j := f(m[j])]
  {
    var r := MapById(m, m[j].id, f);
    forall i | 0 <= i < |m| ensures r[i] == m[j := f(m[j])][i] {
      if i != j {
        assert m[i].id != m[j].id by {
          if i < j { assert m[i].id != m[j].id; } else { assert m[j].id != m[i].id; }
        }
      }
    }
  }

  /** The mirror holds exactly the stored issues, in any order, and both
      have unique ids; the stored collection is well formed. */
  ghost predicate InSync(m: seq<Issue>, s: seq<Issue>) {
    multiset(m) == multiset(s) && UniqueIds(m) && WellFormed(s)
  }

  /** An issue of the mirror is an issue of the store. */
  lemma InSyncMember(m: seq<Issue>, s: seq<Issue>, i: nat)
    requires InSync(m, s) && i < |m|
    ensures m[i] in s
  {
    assert m[i] in multiset(m);
  }

  /** A full reload from the store is in sync with it. */
  lemma ReloadInSync(s: seq<Issue>)
    requires WellFormed(s)
    ensures InSync(s, s)
  {
  }

  /** Local create: the store appends, the mirror prepends. With an id the
      store does not hold yet, they stay in sync. */
  lemma CreateKeepsSync(m: seq<Issue>, s: seq<Issue>, n: Issue)
    requires InSync(m, s) && !HasId(s, n.id) && n.upvotes == []
    ensures InSync([n] + m, s + [n])
  {
    AppendKeepsWellFormed(s, n);
    var r := [n] + m;
    forall i | 0 <= i < |m| ensures m[i].id != n.id {
      InSyncMember(m, s, i);
    }
    forall i, j | 0 <= i < j < |r| ensures r[i].id != r[j].id {
      if i == 0 {
        assert r[j] == m[j - 1];
      } else {
        assert r[i] == m[i - 1] && r[j] == m[j - 1];
      }
    }
  }

  /** Local update: the store patches the first issue with the id, the
      mirror replaces every entry with the id by the store's result. With
      unique ids the two stay in sync. */
  lemma UpdateKeepsSync(m: seq<Issue>, s: seq<Issue>, id: string, data: UpdateIssueData)
    requires InSync(m, s) && FindIndex(s, id) >= 0
    ensures var k := FindIndex(s, id);
            InSync(ReplaceById(m, id, Patched(s[k], data)), s[k := Patched(s[k], data)])
  {
    var k := FindIndex(s, id);
    var u := Patched(s[k], data);
    assert s[k] in multiset(m);
    var j :| 0 <= j < |m| && m[j] == s[k];
    MapByIdUnique(m, j, _ => u);
    var r := m[j := u];
    PatchKeepsWellFormed(s, k, data);
    forall a, b | 0 <= a < b < |r| ensures r[a].id != r[b].id {
      assert r[a].id == m[a].id && r[b].id == m[b].id;
    }
  }

  /** Local delete: store and mirror filter the same id and stay in sync. */
  lemma DeleteKeepsSync(m: seq<Issue>, s: seq<Issue>, id: string)
    requires InSync(m, s)
    ensures InSync(RemoveId(m, id), RemoveId(s, id))
  {
    forall x ensures multiset(RemoveId(m, id))[x] == multiset(RemoveId(s, id))[x] {
      RemoveIdCount(m, id, x);
      RemoveIdCount(s, id, x);
    }
    RemoveIdKeepsUnique(m, id);
    RemoveIdKeepsWellFormed(s, id);
  }
}
