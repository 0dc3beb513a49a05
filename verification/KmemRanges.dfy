/**
 Lists of page ranges, as the free-range table of kernel/core/kmem.c holds them, and what
 they cover. Addresses are byte addresses; pages are numbered by address / 4096.
 */
module KmemRanges {

  const PAGE: int := 4096

  datatype Range = Range(start: nat, pages: nat) {
    function End(): nat { start + pages * PAGE }

    predicate HasPage(p: nat)
    {
      start <= p * PAGE < End()
    }
  }

  /** Page-aligned, not empty and below 2^64, so that no 64-bit address sum wraps round. */
  predicate GoodRange(r: Range)
  {
    r.start % PAGE == 0 && r.start > 0 && r.pages > 0 && r.End() < 0x1_0000_0000_0000_0000
  }

  predicate Good(rs: seq<Range>)
  {
    forall i :: 0 <= i < |rs| ==> GoodRange(rs[i])
  }

  ghost predicate Covers(rs: seq<Range>, p: nat)
  {
    exists i :: 0 <= i < |rs| && rs[i].HasPage(p)
  }

  ghost predicate SameCover(rs: seq<Range>, rs': seq<Range>)
  {
    forall p: nat :: Covers(rs, p) <==> Covers(rs', p)
  }

  function Sum(rs: seq<Range>): nat
  {
    if rs == [] then 0 else rs[0].pages + Sum(rs[1..])
  }

  /** No page is in two ranges. */
  predicate Apart(rs: seq<Range>)
  {
    forall i, j :: 0 <= i < j < |rs| ==> Disjoint(rs[i], rs[j])
  }

  predicate SortedByStart(rs: seq<Range>)
  {
    forall i, j :: 0 <= i < j < |rs| ==> rs[i].start <= rs[j].start
  }

  /** Sorted, with at least one page between neighbours. */
  predicate Gapped(rs: seq<Range>)
  {
    forall i, j :: 0 <= i < j < |rs| ==> rs[i].End() < rs[j].start
  }

  // ---- Sums --------------------------------------------------------------------------------------

  lemma {:induction false} SumAppend(rs: seq<Range>, ss: seq<Range>)
    ensures Sum(rs + ss) == Sum(rs) + Sum(ss)
  {
    if rs == [] {
      assert rs + ss == ss;
    } else {
      SumAppend(rs[1..], ss);
      assert (rs + ss)[1..] == rs[1..] + ss;
    }
  }

  lemma {:induction false} SumUpdate(rs: seq<Range>, i: nat, r: Range)
    requires i < |rs|
    ensures Sum(rs[i := r]) == Sum(rs) - rs[i].pages + r.pages
    decreases i
  {
    if i == 0 {
      assert rs[0 := r][1..] == rs[1..];
    } else {
      SumUpdate(rs[1..], i - 1, r);
      assert rs[i := r][1..] == rs[1..][i - 1 := r];
    }
  }

  lemma {:induction false} SumRemove(rs: seq<Range>, i: nat)
    requires i < |rs|
    ensures Sum(Removed(rs, i)) == Sum(rs) - rs[i].pages
    decreases i
  {
    if i == 0 {
      assert Removed(rs, 0) == rs[1..];
    } else {
      SumRemove(rs[1..], i - 1);
      assert Removed(rs, i)[1..] == Removed(rs[1..], i - 1);
    }
  }

  lemma SumOne(r: Range)
    ensures Sum([r]) == r.pages
  {
    assert [r][1..] == [];
  }

  /** remove_range_index on lists. */
  function Removed(rs: seq<Range>, i: nat): (r: seq<Range>)
    requires i < |rs|
    ensures |r| == |rs| - 1
    ensures forall k :: 0 <= k < |r| ==> r[k] == if k < i then rs[k] else rs[k + 1]
  {
    rs[..i] + rs[i + 1..]
  }

  // ---- Exchanging two ranges ------------------------------------------------------------------------

  function Swapped(rs: seq<Range>, i: nat, j: nat): seq<Range>
    requires i < |rs| && j < |rs|
  {
    rs[i := rs[j]][j := rs[i]]
  }

  lemma SwapKeeps(rs: seq<Range>, i: nat, j: nat)
    requires i < |rs| && j < |rs| && i != j
    ensures SameCover(rs, Swapped(rs, i, j))
    ensures Sum(Swapped(rs, i, j)) == Sum(rs)
    ensures Apart(rs) ==> Apart(Swapped(rs, i, j))
    ensures Good(rs) ==> Good(Swapped(rs, i, j))
  {
    SumUpdate(rs, i, rs[j]);
    SumUpdate(rs[i := rs[j]], j, rs[i]);
    SwapCover(rs, i, j);
    SwapApart(rs, i, j);
    SwapGood(rs, i, j);
  }

  lemma SwapGood(rs: seq<Range>, i: nat, j: nat)
    requires i < |rs| && j < |rs| && i != j
    ensures Good(rs) ==> Good(Swapped(rs, i, j))
  {
  }

  predicate Disjoint(r: Range, s: Range)
  {
    r.End() <= s.start || s.End() <= r.start
  }

  lemma SwapApart(rs: seq<Range>, i: nat, j: nat)
    requires i < |rs| && j < |rs| && i != j
    ensures Apart(rs) ==> Apart(Swapped(rs, i, j))
  {
    var ss := Swapped(rs, i, j);
    if Apart(rs) {
      forall k, m | 0 <= k < m < |ss| ensures Disjoint(ss[k], ss[m]) {
        var k' := if k == i then j else if k == j then i else k;
        var m' := if m == i then j else if m == j then i else m;
        assert ss[k] == rs[k'] && ss[m] == rs[m'] && k' != m';
        assert if k' < m' then Disjoint(rs[k'], rs[m']) else Disjoint(rs[m'], rs[k']);
      }
    }
  }

  lemma SwapCover(rs: seq<Range>, i: nat, j: nat)
    requires i < |rs| && j < |rs| && i != j
    ensures SameCover(rs, Swapped(rs, i, j))
  {
    var ss := Swapped(rs, i, j);
    forall p: nat ensures Covers(rs, p) <==> Covers(ss, p) {
      if Covers(rs, p) {
        var k :| 0 <= k < |rs| && rs[k].HasPage(p);
        assert ss[if k == i then j else if k == j then i else k] == rs[k];
      }
      if Covers(ss, p) {
        var k :| 0 <= k < |ss| && ss[k].HasPage(p);
        assert rs[if k == i then j else if k == j then i else k] == ss[k];
      }
    }
  }

  /** The list still describes the same pages, and counts them the same if it counted none twice. */
  ghost predicate Kept(was: seq<Range>, rs: seq<Range>)
  {
    Good(rs) && SameCover(was, rs) && (Apart(was) ==> Apart(rs) && Sum(rs) == Sum(was))
  }

  lemma KeptSelf(rs: seq<Range>)
    requires Good(rs)
    ensures Kept(rs, rs)
  {
  }

  lemma KeptSwap(was: seq<Range>, rs: seq<Range>, i: nat, j: nat)
    requires Kept(was, rs) && i < |rs| && j < |rs| && i != j
    ensures Kept(was, Swapped(rs, i, j))
  {
    SwapKeeps(rs, i, j);
  }

  // ---- Merging neighbours ------------------------------------------------------------------------------

  /** The range from the start of r to the later of the two ends. */
  function Merged(r: Range, s: Range): Range
    requires r.start <= s.start && r.start % PAGE == 0 && s.start % PAGE == 0
  {
    if s.End() > r.End() then Range(r.start, (s.End() - r.start) / PAGE) else r
  }

  lemma MergedPages(r: Range, s: Range)
    requires GoodRange(r) && GoodRange(s) && r.start <= s.start <= r.End()
    ensures GoodRange(Merged(r, s)) && Merged(r, s).End() == if s.End() > r.End() then s.End() else r.End()
    ensures forall p: nat :: Merged(r, s).HasPage(p) <==> r.HasPage(p) || s.HasPage(p)
    ensures r.End() <= s.start ==> Merged(r, s).pages == r.pages + s.pages
  {
  }

  /** Merging range i with its right neighbour. */
  function Merge(rs: seq<Range>, i: nat): seq<Range>
    requires i + 1 < |rs| && rs[i].start <= rs[i + 1].start && Good(rs)
  {
    Removed(rs[i := Merged(rs[i], rs[i + 1])], i + 1)
  }

  lemma MergeShape(rs: seq<Range>, i: nat)
    requires i + 1 < |rs| && Good(rs) && SortedByStart(rs) && rs[i].End() >= rs[i + 1].start
    ensures Good(Merge(rs, i)) && SortedByStart(Merge(rs, i)) && |Merge(rs, i)| == |rs| - 1
    ensures Gapped(rs[..i + 1]) ==> Gapped(Merge(rs, i)[..i + 1])
  {
    MergedPages(rs[i], rs[i + 1]);
    var ss := Merge(rs, i);
    assert forall k :: 0 <= k < |ss| && k != i ==> ss[k] == rs[if k < i then k else k + 1];
  }

  /** In a sorted list without overlaps every range ends before the next begins. */
  lemma SortedApart(rs: seq<Range>, i: nat, j: nat)
    requires Good(rs) && SortedByStart(rs) && Apart(rs) && i < j < |rs|
    ensures rs[i].End() <= rs[j].start
  {
    assert Disjoint(rs[i], rs[j]);
  }

  lemma MergeApart(rs: seq<Range>, i: nat)
    requires i + 1 < |rs| && Good(rs) && SortedByStart(rs) && Apart(rs) && rs[i].End() >= rs[i + 1].start
    ensures Apart(Merge(rs, i)) && Sum(Merge(rs, i)) == Sum(rs)
  {
    var m := Merged(rs[i], rs[i + 1]);
    SortedApart(rs, i, i + 1);
    MergedPages(rs[i], rs[i + 1]);
    SumUpdate(rs, i, m);
    SumRemove(rs[i := m], i + 1);
    var ss := Merge(rs, i);
    forall k, n | 0 <= k < n < |ss| ensures Disjoint(ss[k], ss[n]) {
      SortedApart(rs, if k < i then k else if k == i then i + 1 else k + 1,
                  if n < i then n else if n == i then i else n + 1);
    }
  }

  lemma MergeCover(rs: seq<Range>, i: nat)
    requires i + 1 < |rs| && Good(rs) && SortedByStart(rs) && rs[i].End() >= rs[i + 1].start
    ensures SameCover(rs, Merge(rs, i))
  {
    var ss := Merge(rs, i);
    MergedPages(rs[i], rs[i + 1]);
    forall p: nat ensures Covers(rs, p) <==> Covers(ss, p) {
      if Covers(rs, p) {
        var k :| 0 <= k < |rs| && rs[k].HasPage(p);
        assert ss[if k <= i then k else k - 1].HasPage(p);
      }
      if Covers(ss, p) {
        var k :| 0 <= k < |ss| && ss[k].HasPage(p);
        assert rs[if k <= i then k else k + 1] == ss[k] || k == i;
        if k == i { assert rs[i].HasPage(p) || rs[i + 1].HasPage(p); }
      }
    }
  }

  lemma KeptTwice(was: seq<Range>, rs: seq<Range>, ss: seq<Range>)
    requires Kept(was, rs) && Kept(rs, ss)
    ensures Kept(was, ss)
  {
  }

  lemma GapGrows(rs: seq<Range>, i: nat)
    requires Good(rs) && SortedByStart(rs) && i + 1 < |rs| && Gapped(rs[..i + 1]) && rs[i].End() < rs[i + 1].start
    ensures Gapped(rs[..i + 2])
  {
    forall j | 0 <= j < i ensures rs[j].End() < rs[i].start { assert rs[..i + 1][j].End() < rs[..i + 1][i].start; }
  }

  lemma KeptMerge(was: seq<Range>, rs: seq<Range>, i: nat)
    requires Kept(was, rs) && i + 1 < |rs| && SortedByStart(rs) && rs[i].End() >= rs[i + 1].start
    ensures Kept(was, Merge(rs, i))
  {
    MergeShape(rs, i);
    MergeCover(rs, i);
    if Apart(rs) { MergeApart(rs, i); }
  }

  // ---- Runs of pages ---------------------------------------------------------------------------------------

  /** The n pages from p on are all covered. */
  ghost predicate CoversRun(rs: seq<Range>, p: nat, n: nat)
  {
    forall q :: p <= q < p + n ==> Covers(rs, q)
  }

  /** Two neighbouring pages are in the same range of a gapped list. */
  lemma NeighboursTogether(rs: seq<Range>, i: nat, j: nat, p: nat)
    requires Good(rs) && Gapped(rs) && i < |rs| && j < |rs| && rs[i].HasPage(p) && rs[j].HasPage(p + 1)
    ensures i == j
  {
  }

  /** In a gapped list, consecutive covered pages lie in one range. */
  lemma {:induction false} RunInOneRange(rs: seq<Range>, p: nat, n: nat) returns (i: nat)
    requires Good(rs) && Gapped(rs) && n > 0 && CoversRun(rs, p, n)
    ensures i < |rs| && rs[i].start <= p * PAGE && rs[i].HasPage(p + n - 1)
  {
    if n == 1 {
      assert Covers(rs, p);
      i :| 0 <= i < |rs| && rs[i].HasPage(p);
    } else {
      i := RunInOneRange(rs, p, n - 1);
      assert Covers(rs, p + n - 1);
      var j :| 0 <= j < |rs| && rs[j].HasPage(p + n - 1);
      NeighboursTogether(rs, i, j, p + n - 2);
    }
  }

  // ---- Taking an interval out ---------------------------------------------------------------------------------

  predicate InInterval(p: nat, lo: nat, hi: nat)
  {
    lo <= p * PAGE < hi
  }

  /** The two lists agree outside the interval. */
  ghost predicate SameOutside(rs: seq<Range>, ss: seq<Range>, lo: nat, hi: nat)
  {
    forall p: nat :: !InInterval(p, lo, hi) ==> (Covers(rs, p) <==> Covers(ss, p))
  }

  lemma SameOutsideSelf(rs: seq<Range>, lo: nat, hi: nat)
    ensures SameOutside(rs, rs, lo, hi)
  {
  }

  /** The interval lies inside the range, with pages left over on both sides. */
  predicate Inside(r: Range, lo: nat, hi: nat)
  {
    r.start < lo && hi < r.End()
  }

  predicate Meets(r: Range, lo: nat, hi: nat)
  {
    r.start < hi && lo < r.End()
  }

  /** A range that lies in the interval is dropped. */
  lemma DropRange(rs: seq<Range>, i: nat, lo: nat, hi: nat)
    requires Good(rs) && Apart(rs) && i < |rs| && lo <= rs[i].start && rs[i].End() <= hi
    ensures Good(Removed(rs, i)) && Apart(Removed(rs, i)) && SameOutside(rs, Removed(rs, i), lo, hi)
  {
    var ss := Removed(rs, i);
    forall p: nat | !InInterval(p, lo, hi) ensures Covers(rs, p) <==> Covers(ss, p) {
      if Covers(rs, p) {
        var k :| 0 <= k < |rs| && rs[k].HasPage(p);
        assert k != i;
        assert ss[if k < i then k else k - 1] == rs[k];
      }
      if Covers(ss, p) {
        var k :| 0 <= k < |ss| && ss[k].HasPage(p);
        assert rs[if k < i then k else k + 1] == ss[k];
      }
    }
  }

  /** A range is replaced by the part of it that lies outside the interval. */
  lemma TrimRange(rs: seq<Range>, i: nat, r: Range, lo: nat, hi: nat)
    requires Good(rs) && Apart(rs) && i < |rs| && GoodRange(r) && rs[i].start <= r.start && r.End() <= rs[i].End()
    requires forall p: nat :: !InInterval(p, lo, hi) ==> (rs[i].HasPage(p) <==> r.HasPage(p))
    ensures Good(rs[i := r]) && Apart(rs[i := r]) && SameOutside(rs, rs[i := r], lo, hi)
  {
    var ss := rs[i := r];
    assert forall j :: 0 <= j < |rs| && j != i ==> Disjoint(rs[j], rs[i]);
    forall p: nat | !InInterval(p, lo, hi) ensures Covers(rs, p) <==> Covers(ss, p) {
      if Covers(rs, p) {
        var k :| 0 <= k < |rs| && rs[k].HasPage(p);
        assert ss[k].HasPage(p);
      }
      if Covers(ss, p) {
        var k :| 0 <= k < |ss| && ss[k].HasPage(p);
        assert rs[k].HasPage(p);
      }
    }
  }

  /** A range around the interval is split. */
  lemma SplitRange(rs: seq<Range>, i: nat, l: Range, r: Range, lo: nat, hi: nat)
    requires Good(rs) && Apart(rs) && i < |rs| && GoodRange(l) && GoodRange(r)
    requires l.start == rs[i].start && l.End() <= r.start && r.End() == rs[i].End()
    requires forall p: nat :: !InInterval(p, lo, hi) ==> (rs[i].HasPage(p) <==> l.HasPage(p) || r.HasPage(p))
    ensures Good(rs[i := l] + [r]) && Apart(rs[i := l] + [r]) && SameOutside(rs, rs[i := l] + [r], lo, hi)
  {
    var ss := rs[i := l] + [r];
    assert forall j :: 0 <= j < |rs| && j != i ==> Disjoint(rs[j], rs[i]);
    forall p: nat | !InInterval(p, lo, hi) ensures Covers(rs, p) <==> Covers(ss, p) {
      if Covers(rs, p) {
        var k :| 0 <= k < |rs| && rs[k].HasPage(p);
        if k == i { assert ss[i].HasPage(p) || ss[|rs|].HasPage(p); } else { assert ss[k].HasPage(p); }
      }
      if Covers(ss, p) {
        var k :| 0 <= k < |ss| && ss[k].HasPage(p);
        if k == |rs| { assert rs[i].HasPage(p); } else { assert rs[k].HasPage(p); }
      }
    }
  }

  /** Nothing else meets an interval that one range surrounds. */
  lemma InsideAlone(rs: seq<Range>, i: nat, k: nat, lo: nat, hi: nat)
    requires Good(rs) && Apart(rs) && i < |rs| && k < |rs| && i != k && lo <= hi && Inside(rs[i], lo, hi)
    ensures !Meets(rs[k], lo, hi)
  {
    assert Disjoint(rs[i], rs[k]);
  }

  ghost predicate SomeInside(rs: seq<Range>, lo: nat, hi: nat)
  {
    exists i :: 0 <= i < |rs| && Inside(rs[i], lo, hi)
  }

  /** No range surrounds an interval that another range meets without surrounding it. */
  lemma NoneInside(rs: seq<Range>, i: nat, lo: nat, hi: nat)
    requires Good(rs) && Apart(rs) && i < |rs| && lo <= hi && Meets(rs[i], lo, hi) && !Inside(rs[i], lo, hi)
    ensures !SomeInside(rs, lo, hi)
  {
    forall k | 0 <= k < |rs| ensures !Inside(rs[k], lo, hi) {
      if k != i && Inside(rs[k], lo, hi) { InsideAlone(rs, k, i, lo, hi); }
    }
  }

  /** The part of a range from hi on. */
  lemma CutFront(r: Range, lo: nat, hi: nat)
    requires GoodRange(r) && lo <= r.start < hi < r.End() && hi % PAGE == 0
    ensures var removed := (hi - r.start) / PAGE;
            && 0 <= removed < r.pages && r.start + removed * PAGE == hi
            && GoodRange(Range(hi, r.pages - removed)) && Range(hi, r.pages - removed).End() == r.End()
            && CutsTo(r, Range(hi, r.pages - removed), lo, hi)
  {
  }

  /** The part of a range below lo. */
  lemma CutBack(r: Range, lo: nat, hi: nat)
    requires GoodRange(r) && r.start < lo < r.End() <= hi && lo % PAGE == 0
    ensures var removed := (r.End() - lo) / PAGE;
            && 0 <= removed < r.pages
            && GoodRange(Range(r.start, r.pages - removed)) && Range(r.start, r.pages - removed).End() == lo
            && CutsTo(r, Range(r.start, r.pages - removed), lo, hi)
  {
  }

  /** Outside the interval, s has the pages of r. */
  ghost predicate CutsTo(r: Range, s: Range, lo: nat, hi: nat)
  {
    forall p: nat :: !InInterval(p, lo, hi) ==> (r.HasPage(p) <==> s.HasPage(p))
  }

  /** The two parts around the interval. */
  lemma CutMiddle(r: Range, lo: nat, hi: nat)
    requires GoodRange(r) && Inside(r, lo, hi) && lo <= hi && lo % PAGE == 0 && hi % PAGE == 0
    ensures var left := Range(r.start, (lo - r.start) / PAGE); var right := Range(hi, (r.End() - hi) / PAGE);
            && GoodRange(left) && GoodRange(right) && left.End() == lo && right.End() == r.End()
            && left.pages + right.pages == r.pages - (hi - lo) / PAGE
            && forall p: nat :: !InInterval(p, lo, hi) ==> (r.HasPage(p) <==> left.HasPage(p) || right.HasPage(p))
  {
    var left := Range(r.start, Gap(r.start, lo));
    var right := Range(hi, Gap(hi, r.End()));
    assert r.End() % PAGE == 0;
    assert left.End() == lo && right.End() == r.End();
    assert hi == lo + Gap(lo, hi) * PAGE;
  }

  /** The whole pages between two aligned addresses. */
  function Gap(a: nat, b: nat): (n: nat)
    requires a <= b && a % PAGE == 0 && b % PAGE == 0
    ensures b == a + n * PAGE
  {
    (b - a) / PAGE
  }

  /** A list that agrees outside the interval and does not meet it has lost exactly the interval. */
  lemma LostInterval(was: seq<Range>, rs: seq<Range>, lo: nat, hi: nat)
    requires SameOutside(was, rs, lo, hi) && forall k :: 0 <= k < |rs| ==> !Meets(rs[k], lo, hi)
    ensures forall p: nat :: Covers(rs, p) <==> Covers(was, p) && !InInterval(p, lo, hi)
  {
    forall p: nat ensures Covers(rs, p) <==> Covers(was, p) && !InInterval(p, lo, hi) {
      if Covers(rs, p) {
        var k :| 0 <= k < |rs| && rs[k].HasPage(p);
        assert !Meets(rs[k], lo, hi);
      }
    }
  }

  // ---- Page numbers as sets ---------------------------------------------------------------------------------------

  /** The page numbers p to p + n - 1. */
  ghost function Run(p: nat, n: nat): (r: set<nat>)
    ensures |r| == n && forall q: nat :: q in r <==> p <= q < p + n
  {
    if n == 0 then {} else Run(p, n - 1) + {p + n - 1}
  }

  ghost predicate HasRun(rs: seq<Range>, n: nat)
  {
    exists p: nat :: CoversRun(rs, p, n)
  }

  lemma PageInRange(r: Range, q: nat)
    requires GoodRange(r) && r.start / PAGE <= q < r.start / PAGE + r.pages
    ensures r.HasPage(q)
  {
  }

  /** A range with at least n pages has a run of n pages at its front. */
  lemma FrontRun(rs: seq<Range>, i: nat, n: nat)
    requires Good(rs) && i < |rs| && n <= rs[i].pages
    ensures CoversRun(rs, rs[i].start / PAGE, n)
  {
    forall q | rs[i].start / PAGE <= q < rs[i].start / PAGE + n ensures Covers(rs, q) { PageInRange(rs[i], q); }
  }

  /** A run of n pages needs a range of n pages, and starts no earlier than that range. */
  lemma RunNeedsRange(rs: seq<Range>, p: nat, n: nat) returns (i: nat)
    requires Good(rs) && Gapped(rs) && n > 0 && CoversRun(rs, p, n)
    ensures i < |rs| && rs[i].pages >= n && rs[i].start <= p * PAGE
  {
    i := RunInOneRange(rs, p, n);
    assert (p + n - 1) * PAGE == p * PAGE + n * PAGE - PAGE;
  }

  /** The front n pages of range i are taken. */
  function TakeFront(rs: seq<Range>, i: nat, n: nat): seq<Range>
    requires i < |rs| && n <= rs[i].pages
  {
    if n == rs[i].pages then Removed(rs, i) else rs[i := Range(rs[i].start + n * PAGE, rs[i].pages - n)]
  }

  lemma TakeFrontSum(rs: seq<Range>, i: nat, n: nat)
    requires i < |rs| && n <= rs[i].pages
    ensures Sum(TakeFront(rs, i, n)) == Sum(rs) - n
  {
    if n == rs[i].pages {
      SumRemove(rs, i);
    } else {
      SumUpdate(rs, i, Range(rs[i].start + n * PAGE, rs[i].pages - n));
    }
  }

  lemma TakeFrontKeeps(rs: seq<Range>, i: nat, n: nat)
    requires Good(rs) && Gapped(rs) && i < |rs| && 0 < n <= rs[i].pages
    ensures Good(TakeFront(rs, i, n)) && Gapped(TakeFront(rs, i, n))
  {
    var ss := TakeFront(rs, i, n);
    if n == rs[i].pages {
      forall j, k | 0 <= j < k < |ss| ensures ss[j].End() < ss[k].start {
        assert rs[if j < i then j else j + 1].End() < rs[if k < i then k else k + 1].start;
      }
    } else {
      assert ss[i].End() == rs[i].End() && ss[i].start > rs[i].start;
    }
  }

  lemma GappedApart(rs: seq<Range>)
    requires Gapped(rs)
    ensures Apart(rs)
  {
  }

  /** ss has the pages of rs without those of the run. */
  ghost predicate Lost(rs: seq<Range>, ss: seq<Range>, run: set<nat>)
  {
    forall p: nat :: Covers(ss, p) <==> Covers(rs, p) && p !in run
  }

  /** ss has the pages of rs and those of the run. */
  ghost predicate Gained(rs: seq<Range>, ss: seq<Range>, run: set<nat>)
  {
    forall p: nat :: Covers(ss, p) <==> Covers(rs, p) || p in run
  }

  lemma TakeFrontLoses(rs: seq<Range>, i: nat, n: nat)
    requires Good(rs) && Gapped(rs) && i < |rs| && 0 < n <= rs[i].pages
    ensures Lost(rs, TakeFront(rs, i, n), Run(rs[i].start / PAGE, n))
  {
    TakeFrontCover(rs, i, n);
    forall p: nat ensures InInterval(p, rs[i].start, rs[i].start + n * PAGE) <==> p in Run(rs[i].start / PAGE, n) {
      IntervalIsRun(p, rs[i].start, n);
    }
  }

  lemma TakeFrontCover(rs: seq<Range>, i: nat, n: nat)
    requires Good(rs) && Gapped(rs) && i < |rs| && 0 < n <= rs[i].pages
    ensures forall p: nat :: Covers(TakeFront(rs, i, n), p) <==>
              Covers(rs, p) && !InInterval(p, rs[i].start, rs[i].start + n * PAGE)
  {
    var lo, hi := rs[i].start, rs[i].start + n * PAGE;
    GappedApart(rs);
    forall k | 0 <= k < |rs| && k != i ensures !Meets(rs[k], lo, hi) { assert Disjoint(rs[k], rs[i]); }
    if n == rs[i].pages {
      DropRange(rs, i, lo, hi);
    } else {
      CutFront(rs[i], lo, hi);
      TrimRange(rs, i, Range(hi, rs[i].pages - n), lo, hi);
    }
    LostInterval(rs, TakeFront(rs, i, n), lo, hi);
  }

  lemma IntervalIsRun(p: nat, addr: nat, n: nat)
    requires addr % PAGE == 0
    ensures InInterval(p, addr, addr + n * PAGE) <==> p in Run(addr / PAGE, n)
  {
  }

  /** One more range adds its pages. */
  lemma AppendCover(rs: seq<Range>, r: Range)
    ensures forall p: nat :: Covers(rs + [r], p) <==> Covers(rs, p) || r.HasPage(p)
  {
    forall p: nat ensures Covers(rs + [r], p) <==> Covers(rs, p) || r.HasPage(p) {
      if Covers(rs, p) {
        var k :| 0 <= k < |rs| && rs[k].HasPage(p);
        assert (rs + [r])[k].HasPage(p);
      }
      if r.HasPage(p) { assert (rs + [r])[|rs|].HasPage(p); }
      if Covers(rs + [r], p) {
        var k :| 0 <= k < |rs + [r]| && (rs + [r])[k].HasPage(p);
        if k < |rs| { assert rs[k].HasPage(p); }
      }
    }
  }

  lemma AppendGains(rs: seq<Range>, r: Range)
    requires r.start % PAGE == 0
    ensures Gained(rs, rs + [r], Run(r.start / PAGE, r.pages))
  {
    AppendCover(rs, r);
    forall p: nat ensures r.HasPage(p) <==> p in Run(r.start / PAGE, r.pages) { IntervalIsRun(p, r.start, r.pages); }
  }

  /** n free pages from addr on, and none earlier. */
  ghost predicate LowestRun(rs: seq<Range>, n: nat, addr: nat)
  {
    addr % PAGE == 0 && CoversRun(rs, addr / PAGE, n) && forall p: nat :: CoversRun(rs, p, n) ==> addr <= p * PAGE
  }

  /** The first range that is large enough has the lowest run at its front. */
  lemma FirstFit(rs: seq<Range>, i: nat, n: nat)
    requires Good(rs) && Gapped(rs) && i < |rs| && 0 < n <= rs[i].pages
    requires forall k :: 0 <= k < i ==> rs[k].pages < n
    ensures LowestRun(rs, n, rs[i].start)
  {
    FrontRun(rs, i, n);
    forall p: nat | CoversRun(rs, p, n) ensures rs[i].start <= p * PAGE {
      var j := RunNeedsRange(rs, p, n);
      assert j >= i;
    }
  }

  lemma NoFit(rs: seq<Range>, n: nat)
    requires Good(rs) && Gapped(rs) && n > 0 && forall k :: 0 <= k < |rs| ==> rs[k].pages < n
    ensures !HasRun(rs, n)
  {
    forall p: nat ensures !CoversRun(rs, p, n) {
      if CoversRun(rs, p, n) { var j := RunNeedsRange(rs, p, n); }
    }
  }

  /** Two ranges with no page in common do not overlap. */
  lemma NoCommonPage(r: Range, s: Range)
    requires GoodRange(r) && GoodRange(s)
    requires forall p: nat :: r.HasPage(p) ==> !s.HasPage(p)
    ensures Disjoint(r, s)
  {
    assert r.HasPage(r.start / PAGE) && s.HasPage(s.start / PAGE);
  }

  // ---- The ledger ---------------------------------------------------------------------------------------------------

  /** Every page is free, held or dropped, and only one of these. */
  ghost predicate Ledger(rs: seq<Range>, total: int, held: set<nat>, dropped: set<nat>)
  {
    && total == Sum(rs) + |held| + |dropped| && held !! dropped
    && (forall p :: p in held + dropped ==> !Covers(rs, p))
    && (forall p :: p in held ==> RealPage(p))
  }

  /** Page 0 is never handed out, and no page reaches 2^64. */
  predicate RealPage(p: nat)
  {
    0 < p && (p + 1) * PAGE < 0x1_0000_0000_0000_0000
  }

  lemma RangeOfReal(r: Range, q: nat)
    requires GoodRange(r) && r.HasPage(q)
    ensures RealPage(q)
  {
    assert r.End() == (r.start / PAGE + r.pages) * PAGE;
    assert q < r.start / PAGE + r.pages;
  }

  lemma RunOfReal(rs: seq<Range>, p: nat, n: nat)
    requires Good(rs) && CoversRun(rs, p, n)
    ensures forall q :: q in Run(p, n) ==> Covers(rs, q) && RealPage(q)
  {
    forall q | q in Run(p, n) ensures Covers(rs, q) && RealPage(q) {
      assert Covers(rs, q);
      var i :| 0 <= i < |rs| && rs[i].HasPage(q);
      RangeOfReal(rs[i], q);
    }
  }

  lemma LedgerTakes(rs: seq<Range>, ss: seq<Range>, total: int, held: set<nat>, dropped: set<nat>, run: set<nat>)
    requires Ledger(rs, total, held, dropped) && Lost(rs, ss, run) && Sum(ss) == Sum(rs) - |run|
    requires forall q :: q in run ==> Covers(rs, q) && RealPage(q)
    ensures Ledger(ss, total, held + run, dropped) && held !! run
  {
    assert held !! run;
    assert |held + run| == |held| + |run|;
  }

  lemma LedgerGives(rs: seq<Range>, ss: seq<Range>, total: int, held: set<nat>, dropped: set<nat>, run: set<nat>)
    requires Ledger(rs, total, held, dropped) && Gained(rs, ss, run) && Sum(ss) == Sum(rs) + |run| && run <= held
    ensures Ledger(ss, total, held - run, dropped)
  {
    assert |held - run| == |held| - |run|;
  }

  lemma LedgerDrops(rs: seq<Range>, total: int, held: set<nat>, dropped: set<nat>, run: set<nat>)
    requires Ledger(rs, total, held, dropped) && run <= held
    ensures Ledger(rs, total, held - run, dropped + run)
  {
    assert |held - run| == |held| - |run|;
    assert |dropped + run| == |dropped| + |run|;
  }

  /** A held run is a good range, apart from the table. */
  lemma HeldApart(rs: seq<Range>, total: int, held: set<nat>, dropped: set<nat>, r: Range)
    requires Good(rs) && Apart(rs) && Ledger(rs, total, held, dropped)
    requires r.start % PAGE == 0 && r.start > 0 && r.pages > 0 && Run(r.start / PAGE, r.pages) <= held
    ensures GoodRange(r) && Good(rs + [r]) && Apart(rs + [r])
  {
    var last := r.start / PAGE + r.pages - 1;
    assert last in held;
    assert (last + 1) * PAGE == r.End();
    forall i | 0 <= i < |rs| ensures Disjoint(rs[i], r) {
      forall p: nat | rs[i].HasPage(p) ensures !r.HasPage(p) {
        assert Covers(rs, p);
        if r.HasPage(p) { IntervalIsRun(p, r.start, r.pages); }
      }
      NoCommonPage(rs[i], r);
    }
  }

  /** The range table after initialisation: sorted, with gaps, its pages counted, nothing unaccounted for. */
  ghost predicate SettledTable(rs: seq<Range>, total: int, free: int, held: set<nat>, dropped: set<nat>)
  {
    Good(rs) && Gapped(rs) && free == Sum(rs) && Ledger(rs, total, held, dropped)
  }

  lemma HeldReal(rs: seq<Range>, total: int, free: int, held: set<nat>, dropped: set<nat>, p: nat)
    requires SettledTable(rs, total, free, held, dropped) && p in held
    ensures RealPage(p)
  {
  }

  lemma InitSettles(rs: seq<Range>, ss: seq<Range>)
    requires Good(rs) && Apart(rs) && Kept(rs, ss) && Gapped(ss)
    ensures SettledTable(ss, Sum(rs), Sum(rs), {}, {})
  {
  }

  lemma TakeSettles(rs: seq<Range>, i: nat, n: nat, total: int, free: int, held: set<nat>, dropped: set<nat>)
    requires SettledTable(rs, total, free, held, dropped) && i < |rs| && 0 < n <= rs[i].pages
    ensures var run := Run(rs[i].start / PAGE, n);
            && SettledTable(TakeFront(rs, i, n), total, free - n, held + run, dropped)
            && Lost(rs, TakeFront(rs, i, n), run) && held !! run
  {
    var run := Run(rs[i].start / PAGE, n);
    TakeFrontKeeps(rs, i, n);
    TakeFrontSum(rs, i, n);
    TakeFrontLoses(rs, i, n);
    FrontRun(rs, i, n);
    RunOfReal(rs, rs[i].start / PAGE, n);
    LedgerTakes(rs, TakeFront(rs, i, n), total, held, dropped, run);
  }

  /** A held run may be appended; after coalescing the table is settled again. */
  lemma GiveAppends(rs: seq<Range>, r: Range, total: int, free: int, held: set<nat>, dropped: set<nat>)
    requires SettledTable(rs, total, free, held, dropped)
    requires r.start % PAGE == 0 && r.start > 0 && r.pages > 0 && Run(r.start / PAGE, r.pages) <= held
    ensures Good(rs + [r]) && Apart(rs + [r]) && Sum(rs + [r]) == free + r.pages
    ensures Gained(rs, rs + [r], Run(r.start / PAGE, r.pages))
  {
    GappedApart(rs);
    HeldApart(rs, total, held, dropped, r);
    SumAppend(rs, [r]);
    SumOne(r);
    AppendGains(rs, r);
  }

  lemma GiveSettles(rs: seq<Range>, r: Range, ss: seq<Range>, total: int, free: int, held: set<nat>, dropped: set<nat>)
    requires SettledTable(rs, total, free, held, dropped) && Kept(rs + [r], ss) && Gapped(ss)
    requires r.start % PAGE == 0 && r.start > 0 && r.pages > 0 && Run(r.start / PAGE, r.pages) <= held
    ensures SettledTable(ss, total, free + r.pages, held - Run(r.start / PAGE, r.pages), dropped)
    ensures Gained(rs, ss, Run(r.start / PAGE, r.pages))
  {
    GiveAppends(rs, r, total, free, held, dropped);
    LedgerGives(rs, ss, total, held, dropped, Run(r.start / PAGE, r.pages));
  }
}
