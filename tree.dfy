/** The folder tree stored in `folders_v2` and the walk that resolves a node's root.
    An account root is a node whose `parent` is its own id (a self-loop); the walk
    follows `parent` links until it stands on such a node. */
module FolderTree {
  import opened Records

  type Table = map<string, FolderV2>

  /** `x` is stored and is its own parent: an account root. */
  predicate IsRoot(folders: Table, x: string)
  {
    x in folders && folders[x].parent == x
  }

  /** Following `parent` from `x` reaches an account root within `n` steps,
      every node passed on the way being stored. */
  predicate RootWithin(folders: Table, x: string, n: nat)
    decreases n
  {
    x in folders && (folders[x].parent == x || (n > 0 && RootWithin(folders, folders[x].parent, n - 1)))
  }

  /** `a` is `x` or one of the first `n` ancestors of `x`. */
  predicate Reaches(folders: Table, x: string, a: string, n: nat)
    decreases n
  {
    x == a || (n > 0 && x in folders && Reaches(folders, folders[x].parent, a, n - 1))
  }

  /** A ranking that strictly decreases along every parent link that is not a self-loop:
      the well-formedness that makes the walk terminate. */
  ghost predicate Ranked(folders: Table, rank: map<string, nat>)
  {
    forall x :: x in folders ==> RankedAt(folders, rank, x)
  }

  /** The ranking condition at one stored node. */
  ghost predicate RankedAt(folders: Table, rank: map<string, nat>, x: string)
    requires x in folders
  {
    x in rank &&
    (folders[x].parent == x ||
     (folders[x].parent in folders && folders[x].parent in rank && rank[folders[x].parent] < rank[x]))
  }

  /** The account root at the end of the chain from `x`. */
  function ChainRoot(folders: Table, x: string, n: nat): (r: string)
    requires RootWithin(folders, x, n)
    ensures IsRoot(folders, r)
    ensures Reaches(folders, x, r, n)
    decreases n
  {
    if folders[x].parent == x then x else ChainRoot(folders, folders[x].parent, n - 1)
  }

  /** The top-level folder above `x` (possibly `x` itself): the node of the chain
      whose parent is the account root. */
  function Top(folders: Table, x: string, n: nat): (t: string)
    requires RootWithin(folders, x, n) && !IsRoot(folders, x)
    ensures t in folders && !IsRoot(folders, t)
    ensures folders[t].parent == ChainRoot(folders, x, n)
    ensures Reaches(folders, x, t, n)
    decreases n
  {
    var p := folders[x].parent;
    assert RootWithin(folders, p, n - 1);
    if folders[p].parent == p then x else Top(folders, p, n - 1)
  }

  /** Root resolution as the contract's callers rely on it: the top-level folder
      above `x` with its id, and no folder when `x` is missing or an account root. */
  function ResolveRoot(folders: Table, x: string, n: nat): (r: (Option<FolderV2>, string))
    requires x in folders ==> RootWithin(folders, x, n)
    ensures r.0.Some? <==> x in folders && !IsRoot(folders, x)
    ensures r.0.None? ==> r.1 == ""
    ensures r.0.Some? ==>
      r.1 in folders && r.0.value == folders[r.1] && !IsRoot(folders, r.1) &&
      Reaches(folders, x, r.1, n) && r.0.value.parent == ChainRoot(folders, x, n)
  {
    if x in folders && !IsRoot(folders, x) then
      var t := Top(folders, x, n);
      (Some(folders[t]), t)
    else
      (None, "")
  }

  /** Root resolution as lib.rs writes it: the walk leaves the empty string as its
      result when it finds no top-level folder, and that string is then looked up
      as a folder id like any other. */
  function ResolveRootAsWritten(folders: Table, x: string, n: nat): (r: (Option<FolderV2>, string))
    requires x in folders ==> RootWithin(folders, x, n)
    ensures x in folders && !IsRoot(folders, x) ==> r == ResolveRoot(folders, x, n)
    ensures !(x in folders && !IsRoot(folders, x)) ==>
      r.1 == "" && (r.0.Some? <==> "" in folders) && ("" in folders ==> r.0.value == folders[""])
  {
    var result := if x in folders && !IsRoot(folders, x) then Top(folders, x, n) else "";
    (if result in folders then Some(folders[result]) else None, result)
  }

  /** The walk of get_root over a ranked table: from `x`, step to the parent until the
      node reached is its own parent, remembering the node stepped from. */
  method FindTop(folders: Table, ghost rank: map<string, nat>, x: string) returns (found: Option<string>)
    requires Ranked(folders, rank)
    ensures x in folders ==> x in rank && RootWithin(folders, x, rank[x])
    ensures found.Some? <==> x in folders && !IsRoot(folders, x)
    ensures found.Some? ==> found.value == Top(folders, x, rank[x])
  {
    found := None;
    if x in folders {
      var current := x;
      var parentId := folders[x].parent;
      RankBoundsWalk(folders, rank, x);
      while current != parentId
        invariant current in folders && current in rank && parentId == folders[current].parent
        invariant RootWithin(folders, current, rank[current])
        invariant found.None? ==>
          (current == x && current == parentId) ||
          (current != parentId && !IsRoot(folders, x) &&
           Top(folders, current, rank[current]) == Top(folders, x, rank[x]))
        invariant found.Some? ==>
          current == parentId && !IsRoot(folders, x) && found.value == Top(folders, x, rank[x])
        decreases rank[current]
      {
        if parentId in folders {
          var folder := folders[parentId];
          var temp := current;
          current := parentId;
          parentId := folder.parent;
          RankBoundsWalk(folders, rank, current);
          if current == parentId {
            found := Some(temp);
          } else {
            TopFuelIrrelevant(folders, current, rank[temp] - 1, rank[current]);
          }
        } else {
          // lib.rs spins here forever; the ranking rules this branch out
          assert false;
        }
      }
    }
  }

  // ---------------------------------------------------------------------------
  // Termination of the walk

  lemma {:induction false} RootWithinMonotonic(folders: Table, x: string, n: nat, m: nat)
    requires RootWithin(folders, x, n) && n <= m
    ensures RootWithin(folders, x, m)
    decreases n
  {
    if folders[x].parent != x {
      RootWithinMonotonic(folders, folders[x].parent, n - 1, m - 1);
    }
  }

  /** On a ranked table the walk from a stored node needs at most its rank many steps. */
  lemma {:induction false} RankBoundsWalk(folders: Table, rank: map<string, nat>, x: string)
    requires Ranked(folders, rank) && x in folders
    ensures x in rank && RootWithin(folders, x, rank[x])
    decreases rank[x]
  {
    var p := folders[x].parent;
    if p != x {
      RankBoundsWalk(folders, rank, p);
      RootWithinMonotonic(folders, p, rank[p], rank[x] - 1);
    }
  }

  /** From a set of nodes that is closed under `parent` and holds no account root
      (a cycle, or a chain ending at a missing parent) the walk never finishes. */
  lemma {:induction false} ClosedSetNeverReachesRoot(folders: Table, s: set<string>, x: string, n: nat)
    requires forall y :: y in s ==> y !in folders || (folders[y].parent != y && folders[y].parent in s)
    requires x in s
    ensures !RootWithin(folders, x, n)
    decreases n
  {
    if x in folders && n > 0 {
      ClosedSetNeverReachesRoot(folders, s, folders[x].parent, n - 1);
    }
  }

  /** A stored node whose parent is missing: the walk's lookup fails and it never moves on. */
  lemma DanglingParentNeverReachesRoot(folders: Table, x: string, n: nat)
    requires x in folders && folders[x].parent != x && folders[x].parent !in folders
    ensures !RootWithin(folders, x, n)
  {
    ClosedSetNeverReachesRoot(folders, {x, folders[x].parent}, x, n);
  }

  /** Two folders that are each other's parent: the walk cycles. */
  lemma TwoCycleNeverReachesRoot(folders: Table, a: string, b: string, n: nat)
    requires a in folders && b in folders && a != b
    requires folders[a].parent == b && folders[b].parent == a
    ensures !RootWithin(folders, a, n) && !RootWithin(folders, b, n)
  {
    ClosedSetNeverReachesRoot(folders, {a, b}, a, n);
    ClosedSetNeverReachesRoot(folders, {a, b}, b, n);
  }

  // ---------------------------------------------------------------------------
  // What the walk returns

  /** The answer does not depend on how much fuel was granted, only that it sufficed. */
  lemma {:induction false} TopFuelIrrelevant(folders: Table, x: string, n: nat, m: nat)
    requires RootWithin(folders, x, n) && RootWithin(folders, x, m) && !IsRoot(folders, x)
    ensures Top(folders, x, n) == Top(folders, x, m)
    ensures ChainRoot(folders, x, n) == ChainRoot(folders, x, m)
    decreases n
  {
    var p := folders[x].parent;
    if folders[p].parent != p {
      TopFuelIrrelevant(folders, p, n - 1, m - 1);
    }
  }

  lemma {:induction false} RootReachesOnlyItself(folders: Table, r: string, a: string, n: nat)
    requires IsRoot(folders, r) && Reaches(folders, r, a, n)
    ensures a == r
    decreases n
  {
    if r != a {
      RootReachesOnlyItself(folders, r, a, n - 1);
    }
  }

  /** The top-level folder is the only ancestor-or-self of `x`, other than the account
      root, whose parent is an account root. */
  lemma {:induction false} TopIsUnique(folders: Table, x: string, a: string, n: nat)
    requires RootWithin(folders, x, n) && !IsRoot(folders, x)
    requires Reaches(folders, x, a, n) && a in folders && !IsRoot(folders, a)
    requires IsRoot(folders, folders[a].parent)
    ensures a == Top(folders, x, n)
    decreases n
  {
    var p := folders[x].parent;
    if a != x {
      if folders[p].parent == p {
        RootReachesOnlyItself(folders, p, a, n - 1);
        assert false;
      } else {
        TopIsUnique(folders, p, a, n - 1);
      }
    }
  }

  /** A top-level folder resolves to itself. */
  lemma TopOfTopLevelFolder(folders: Table, x: string, n: nat)
    requires RootWithin(folders, x, n) && !IsRoot(folders, x)
    requires IsRoot(folders, folders[x].parent)
    ensures ResolveRoot(folders, x, n) == (Some(folders[x]), x)
  {
  }

  /** A child resolves to the same top-level folder as its parent, unless the parent
      is an account root. */
  lemma ChildSharesParentsTop(folders: Table, x: string, n: nat)
    requires RootWithin(folders, x, n + 1) && !IsRoot(folders, x)
    requires !IsRoot(folders, folders[x].parent)
    ensures RootWithin(folders, folders[x].parent, n)
    ensures Top(folders, x, n + 1) == Top(folders, folders[x].parent, n)
  {
  }

  /** `next` still holds every node of `folders`, each with the same parent. */
  predicate KeepsParents(folders: Table, next: Table)
  {
    forall y :: y in folders ==> y in next && next[y].parent == folders[y].parent
  }

  /** A table that keeps every stored node's parent resolves every old node as before:
      adding nodes or changing children and files lists never moves a subtree. */
  lemma {:induction false} KeptParentsKeepWalk(folders: Table, next: Table, x: string, n: nat)
    requires KeepsParents(folders, next) && RootWithin(folders, x, n)
    ensures RootWithin(next, x, n)
    ensures ChainRoot(next, x, n) == ChainRoot(folders, x, n)
    ensures !IsRoot(folders, x) ==> !IsRoot(next, x) && Top(next, x, n) == Top(folders, x, n)
    decreases n
  {
    var p := folders[x].parent;
    if p != x {
      KeptParentsKeepWalk(folders, next, p, n - 1);
    }
  }

  // ---------------------------------------------------------------------------
  // Table updates that keep the ranking

  /** The table create_folder_v2 leaves behind: `id` listed under its parent and stored. */
  function WithFolder(folders: Table, id: string, f: FolderV2): (next: Table)
    requires f.parent in folders
    ensures id in next && f.parent in next
    ensures next[id] == f
    ensures id != f.parent ==> next[f.parent] == folders[f.parent].(children := folders[f.parent].children + [id])
  {
    folders[f.parent := folders[f.parent].(children := folders[f.parent].children + [id])][id := f]
  }

  /** The table create_file_v2 leaves behind: `fileId` listed in folder `x` unless it
      is listed there already. */
  function WithFile(folders: Table, x: string, fileId: string): (next: Table)
    requires x in folders
    ensures x in next
    ensures fileId in next[x].files
    ensures fileId in folders[x].files ==> next == folders
    ensures fileId !in folders[x].files ==> next[x] == folders[x].(files := folders[x].files + [fileId])
  {
    if fileId in folders[x].files then folders
    else folders[x := folders[x].(files := folders[x].files + [fileId])]
  }

  /** Writing an account root under its own id keeps a ranking, with rank 0 for it. */
  lemma AddRootKeepsRanked(folders: Table, rank: map<string, nat>, a: string, f: FolderV2)
    requires Ranked(folders, rank) && f.parent == a
    ensures Ranked(folders[a := f], rank[a := 0])
  {
  }

  /** Replacing a stored record by one with the same parent keeps a ranking. */
  lemma SameParentKeepsRanked(folders: Table, rank: map<string, nat>, x: string, f: FolderV2)
    requires Ranked(folders, rank) && x in folders && f.parent == folders[x].parent
    ensures Ranked(folders[x := f], rank)
  {
  }

  /** Adding a new leaf below a stored parent keeps a ranking, one above the parent's. */
  lemma AddLeafKeepsRanked(folders: Table, rank: map<string, nat>, id: string, f: FolderV2)
    requires Ranked(folders, rank) && id !in folders && f.parent in folders
    ensures f.parent in rank
    ensures Ranked(folders[id := f], rank[id := rank[f.parent] + 1])
  {
  }
}
