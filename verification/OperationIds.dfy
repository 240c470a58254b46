/** Operation ids for the API document: the first free one of a name and its numbered
    variants, over a whole list of names. */
module OperationIds {

  import opened Texts

  /** The candidates for a name, in the order they are tried: itself, then 2, 3 and so on. */
  function Candidate(id: string, n: nat): string {
    if n < 2 then id else id + Itoa(n)
  }

  /** No candidate is tried twice. */
  lemma CandidatesDiffer(id: string, m: nat, n: nat)
    requires 1 <= m < n
    ensures Candidate(id, m) != Candidate(id, n)
  {
    hide Itoa;
    assert Candidate(id, n)[|id|..] == Itoa(n);
    if m >= 2 {
      assert Candidate(id, m)[|id|..] == Itoa(m);
      if Itoa(m) == Itoa(n) {
        ItoaInjective(m, n);
      }
    } else {
      assert |Candidate(id, n)| > |id|;
    }
  }

  ghost function Tried(id: string, n: nat): set<string> {
    set k: nat | 1 <= k < n :: Candidate(id, k)
  }

  /** So the tries before the n-th are that many different ids. */
  lemma {:induction false} TriedCount(id: string, n: nat)
    requires n >= 1
    ensures |Tried(id, n)| == n - 1
  {
    hide Candidate;
    if n == 1 {
      assert Tried(id, n) == {};
    } else {
      TriedCount(id, n - 1);
      assert Tried(id, n) == Tried(id, n - 1) + {Candidate(id, n - 1)};
      forall k: nat | 1 <= k < n - 1 ensures Candidate(id, k) != Candidate(id, n - 1) {
        CandidatesDiffer(id, k, n - 1);
      }
    }
  }

  /** Pigeonhole: only as many tries can fail as there are ids in use. */
  lemma TriesBounded(used: set<string>, id: string, n: nat)
    requires n >= 1 && Tried(id, n) <= used
    ensures n <= |used| + 1
  {
    TriedCount(id, n);
    assert used == Tried(id, n) + (used - Tried(id, n));
  }

  /** The first candidate that is free. */
  ghost predicate FirstFree(used: set<string>, id: string, n: nat) {
    n >= 1 && Candidate(id, n) !in used && Tried(id, n) <= used
  }

  lemma FirstFreeIsOne(used: set<string>, id: string, m: nat, n: nat)
    requires FirstFree(used, id, m) && FirstFree(used, id, n)
    ensures m == n
  {
    hide Candidate;
    assert m < n ==> Candidate(id, m) in Tried(id, n);
    assert n < m ==> Candidate(id, n) in Tried(id, m);
  }

  lemma TriedGrows(used: set<string>, id: string, n: nat)
    requires n >= 1 && Tried(id, n) <= used && Candidate(id, n) in used
    ensures Tried(id, n + 1) <= used
  {
    hide Candidate;
  }

  class UsedIds {
    var used: set<string>

    constructor ()
      ensures used == {}
    {
      used := {};
    }

    /** The search, which has no bound of its own. */
    method Unique(id: string) returns (r: string, ghost n: nat)
      modifies this
      ensures FirstFree(old(used), id, n) && r == Candidate(id, n) && n <= |old(used)| + 1
      ensures used == old(used) + {r}
    {
      hide Candidate;
      n := 1;
      assert Tried(id, 1) == {};
      if Candidate(id, 1) !in used {
        r := Candidate(id, 1);
        TriesBounded(used, id, 1);
        used := used + {r};
        return;
      }
      TriedGrows(used, id, 1);
      var k := 2;
      TriesBounded(used, id, 2);
      while Candidate(id, k) in used
        invariant k >= 2 && Tried(id, k) <= used == old(used) && k <= |used| + 1
        decreases |used| + 1 - k
      {
        TriedGrows(used, id, k);
        k := k + 1;
        TriesBounded(used, id, k);
      }
      n := k;
      r := Candidate(id, k);
      used := used + {r};
    }
  }

  ghost function Members(ids: seq<string>): set<string> {
    set i | 0 <= i < |ids| :: ids[i]
  }

  lemma MembersPush(ids: seq<string>, id: string)
    ensures Members(ids + [id]) == Members(ids) + {id}
  {
    var more := ids + [id];
    assert more[|ids|] == id;
    forall x | x in Members(ids) ensures x in Members(more) {
      var i :| 0 <= i < |ids| && ids[i] == x;
      assert more[i] == x;
    }
  }

  ghost predicate Given(used: set<string>, name: string, id: string) {
    exists n: nat :: FirstFree(used, name, n) && id == Candidate(name, n)
  }

  /** One id for each name, every one the first free after those before it. */
  ghost predicate Assigned(names: seq<string>, ids: seq<string>) {
    |ids| == |names| && forall i :: 0 <= i < |ids| ==> Given(Members(ids[..i]), names[i], ids[i])
  }

  lemma AssignedPush(names: seq<string>, ids: seq<string>, name: string, id: string)
    ensures Assigned(names + [name], ids + [id]) && |names| == |ids| <==>
      Assigned(names, ids) && Given(Members(ids), name, id)
  {
    hide Given;
    var names', ids' := names + [name], ids + [id];
    if |names| == |ids| {
      assert forall i :: 0 <= i < |ids| ==> ids'[..i] == ids[..i] && ids'[i] == ids[i] && names'[i] == names[i];
      assert ids'[..|ids|] == ids && ids'[|ids|] == id && names'[|ids|] == name;
    }
  }

  method AssignIds(names: seq<string>) returns (ids: seq<string>)
    ensures Assigned(names, ids)
    ensures forall i, j :: 0 <= i < j < |ids| ==> ids[i] != ids[j]
  {
    hide Candidate, FirstFree, Assigned;
    var taken := new UsedIds();
    ids := [];
    assert Assigned([], []) by { NoneAssigned(); }
    for i := 0 to |names|
      invariant |ids| == i && taken.used == Members(ids)
      invariant Assigned(names[..i], ids)
    {
      var id, n := taken.Unique(names[i]);
      MembersPush(ids, id);
      AssignedPush(names[..i], ids, names[i], id);
      assert names[..i] + [names[i]] == names[..i + 1];
      ids := ids + [id];
    }
    assert names[..|names|] == names;
    AssignedDiffer(names, ids);
  }

  lemma NoneAssigned()
    ensures Assigned([], [])
  {
  }

  /** Whatever the names, repeated or already looking numbered, no two ids are the same. */
  lemma AssignedDiffer(names: seq<string>, ids: seq<string>)
    requires Assigned(names, ids)
    ensures forall i, j :: 0 <= i < j < |ids| ==> ids[i] != ids[j]
  {
    hide Candidate;
    forall i, j | 0 <= i < j < |ids| ensures ids[i] != ids[j] {
      assert Given(Members(ids[..j]), names[j], ids[j]);
      assert ids[..j][i] in Members(ids[..j]);
    }
  }

  lemma GivenOnce(used: set<string>, name: string, id: string, id': string)
    requires Given(used, name, id) && Given(used, name, id')
    ensures id == id'
  {
    hide Candidate;
    var m: nat :| FirstFree(used, name, m) && id == Candidate(name, m);
    var n: nat :| FirstFree(used, name, n) && id' == Candidate(name, n);
    FirstFreeIsOne(used, name, m, n);
  }

  /** The same names always get the same ids. */
  lemma {:induction false} AssignedOnce(names: seq<string>, ids: seq<string>, ids': seq<string>)
    requires Assigned(names, ids) && Assigned(names, ids')
    ensures ids == ids'
  {
    if names != [] {
      hide Given;
      var k := |names| - 1;
      assert names[..k] + [names[k]] == names && ids[..k] + [ids[k]] == ids && ids'[..k] + [ids'[k]] == ids';
      AssignedPush(names[..k], ids[..k], names[k], ids[k]);
      AssignedPush(names[..k], ids'[..k], names[k], ids'[k]);
      AssignedOnce(names[..k], ids[..k], ids'[..k]);
      GivenOnce(Members(ids[..k]), names[k], ids[k], ids'[k]);
    }
  }

  /** A name keeps its own id exactly when nothing before it was given that id. */
  lemma NameKeptIff(names: seq<string>, ids: seq<string>, i: nat)
    requires Assigned(names, ids) && i < |names|
    ensures ids[i] == names[i] <==> forall j :: 0 <= j < i ==> ids[j] != names[i]
  {
    assert Given(Members(ids[..i]), names[i], ids[i]);
    var n: nat :| FirstFree(Members(ids[..i]), names[i], n) && ids[i] == Candidate(names[i], n);
    assert names[i] in Members(ids[..i]) <==> exists j :: 0 <= j < i && ids[..i][j] == names[i];
    assert n >= 2 ==> Candidate(names[i], 1) in Tried(names[i], n);
    assert Candidate(names[i], 1) == names[i];
    if n >= 2 {
      CandidatesDiffer(names[i], 1, n);
    }
  }

  /** A name that was given before is numbered: from 2 up, with the first number not yet given
      to it. */
  lemma RepeatIsNumbered(names: seq<string>, ids: seq<string>, i: nat)
    requires Assigned(names, ids) && i < |names| && exists j :: 0 <= j < i && ids[j] == names[i]
    ensures exists n: nat :: (&& n >= 2 && ids[i] == names[i] + Itoa(n)
                              && forall m: nat :: 2 <= m < n ==> names[i] + Itoa(m) in ids[..i])
  {
    hide Itoa;
    NameKeptIff(names, ids, i);
    assert Given(Members(ids[..i]), names[i], ids[i]);
    var n: nat :| FirstFree(Members(ids[..i]), names[i], n) && ids[i] == Candidate(names[i], n);
    forall m: nat | 2 <= m < n ensures names[i] + Itoa(m) in ids[..i] {
      assert Candidate(names[i], m) in Tried(names[i], n);
    }
  }
}
