/**
 Parent chains of a LainFS directory: walking up, cycles, and reaching the root.
 */
module LainfsTree {
  import opened LainfsFormat

  lemma {:induction false} UpCompose(dir: seq<Entry>, id: nat, j: nat, k: nat)
    ensures Up(dir, Up(dir, id, j), k) == Up(dir, id, j + k)
  {
    if k > 0 { UpCompose(dir, id, j, k - 1); }
  }

  lemma {:induction false} RootStays(dir: seq<Entry>, k: nat)
    ensures Up(dir, 0, k) == 0
  {
    if k > 0 { RootStays(dir, k - 1); }
  }

  /** Walking up from `id` returns to it, through directories only. */
  ghost predicate OnCycle(dir: seq<Entry>, id: nat)
  {
    exists k: nat :: CycleOf(dir, id, k)
  }

  ghost predicate CycleOf(dir: seq<Entry>, id: nat, k: nat)
  {
    k > 0 && Up(dir, id, k) == id && forall j :: 0 <= j < k ==> IsDir(dir, Up(dir, id, j))
  }

  /** The walk up from `id` leaves the directories after k of them. */
  ghost predicate StopsAfter(dir: seq<Entry>, id: nat, k: nat)
  {
    !IsDir(dir, Up(dir, id, k)) && forall j :: 0 <= j < k ==> IsDir(dir, Up(dir, id, j))
  }

  /** On a cycle every step is a directory, forever. */
  lemma {:induction false} CycleForever(dir: seq<Entry>, id: nat, k: nat, m: nat)
    requires CycleOf(dir, id, k)
    ensures IsDir(dir, Up(dir, id, m))
    decreases m
  {
    if m >= k {
      UpCompose(dir, id, k, m - k);
      CycleForever(dir, id, k, m - k);
    }
  }

  lemma CycleNeverStops(dir: seq<Entry>, id: nat, m: nat)
    requires OnCycle(dir, id)
    ensures IsDir(dir, Up(dir, id, m))
  {
    var k: nat :| CycleOf(dir, id, k);
    CycleForever(dir, id, k, m);
  }

  /** A chain that leads into a cycle never reaches the root. */
  lemma CycleMissesRoot(dir: seq<Entry>, id: nat, c: nat, j: nat)
    requires OnCycle(dir, c) && Up(dir, id, j) == c
    ensures !ReachesRoot(dir, id)
  {
    forall k: nat ensures !ReachesRootIn(dir, id, k) {
      if k >= j {
        UpCompose(dir, id, j, k - j);
        CycleNeverStops(dir, c, k - j);
      } else {
        UpCompose(dir, id, k, j - k);
        RootStays(dir, j - k);
        CycleNeverStops(dir, c, 0);
      }
    }
  }

  /** Where every parent is the root or a directory, a walk that stops has arrived at the root. */
  lemma StopsAtRoot(dir: seq<Entry>, id: nat, k: nat)
    requires StopsAfter(dir, id, k) && k > 0
    requires forall i :: 0 <= i < |dir| && dir[i].used == DIR ==> dir[i].parent == 0 || IsDir(dir, dir[i].parent)
    ensures ReachesRootIn(dir, id, k)
  {
    var below := Up(dir, id, k - 1);
    assert IsDir(dir, below);
    assert dir[below - 1].used == DIR;
  }

  /** One step from a file or directory to a parent that reaches the root. */
  lemma ReachesThroughParent(dir: seq<Entry>, i: nat)
    requires i < |dir|
    requires dir[i].parent == 0 || (IsDir(dir, dir[i].parent) && ReachesRoot(dir, dir[i].parent))
    ensures ReachesRoot(dir, i + 1)
  {
    var id := i + 1;
    assert Up(dir, id, 1) == dir[i].parent by { assert Up(dir, id, 0) == id; }
    if dir[i].parent == 0 {
      assert ReachesRootIn(dir, id, 1);
    } else {
      var k: nat :| ReachesRootIn(dir, dir[i].parent, k);
      assert ReachesRootIn(dir, id, k + 1) by {
        UpCompose(dir, id, 1, k);
        forall j | 0 < j < k + 1 ensures IsDir(dir, Up(dir, id, j)) { UpCompose(dir, id, 1, j - 1); }
      }
    }
  }

  /** An entry that reaches the root has a legal parent. */
  lemma ReachingParent(dir: seq<Entry>, i: nat)
    requires i < |dir| && ReachesRoot(dir, i + 1)
    ensures dir[i].parent == 0 || IsDir(dir, dir[i].parent)
    ensures dir[i].parent != i + 1
  {
    var k: nat :| ReachesRootIn(dir, i + 1, k);
    assert Up(dir, i + 1, 0) == i + 1;
    assert Up(dir, i + 1, 1) == dir[i].parent;
    if dir[i].parent == i + 1 { SelfLoop(dir, i, k); }
  }

  lemma {:induction false} SelfLoop(dir: seq<Entry>, i: nat, k: nat)
    requires i < |dir| && dir[i].parent == i + 1
    ensures Up(dir, i + 1, k) == i + 1
  {
    if k > 0 { SelfLoop(dir, i, k - 1); }
  }
}
