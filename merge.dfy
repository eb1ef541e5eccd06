/** The worklist merge of `_write_worklist` (lcr_utils/assembly.py): entries
    are stably sorted by source well, grouped by destination well, and the
    groups are drained round-robin over the plate's well indices. */
module Merge {
  import opened Worklist

  // ---------------------------------------------------------------------
  // Stable sort by source well index (`sorted(worklist, key=lambda x: x[3])`)
  // ---------------------------------------------------------------------

  predicate SortedBySrc(s: seq<Entry>)
  {
    forall i, j :: 0 <= i < j < |s| ==> s[i].srcIdx <= s[j].srcIdx
  }

  /** Inserts `x` in front of the first entry whose source index is not
      smaller, so that `x` precedes the entries with the same key. */
  function Insert(x: Entry, s: seq<Entry>): seq<Entry>
  {
    if s == [] || x.srcIdx <= s[0].srcIdx then [x] + s
    else [s[0]] + Insert(x, s[1..])
  }

  lemma {:induction false} InsertMultiset(x: Entry, s: seq<Entry>)
    ensures multiset(Insert(x, s)) == multiset(s) + multiset{x}
    ensures SumVol(Insert(x, s)) == x.vol + SumVol(s)
  {
    if s != [] && x.srcIdx > s[0].srcIdx {
      InsertMultiset(x, s[1..]);
      assert s == [s[0]] + s[1..];
    }
  }

  lemma SortedHeadBound(s: seq<Entry>)
    requires SortedBySrc(s) && s != []
    ensures forall e :: e in s ==> s[0].srcIdx <= e.srcIdx
  {
    forall e | e in s ensures s[0].srcIdx <= e.srcIdx {
      var k :| 0 <= k < |s| && s[k] == e;
    }
  }

  lemma ConsSorted(h: Entry, r: seq<Entry>)
    requires SortedBySrc(r) && forall e :: e in r ==> h.srcIdx <= e.srcIdx
    ensures SortedBySrc([h] + r)
  {
    var t := [h] + r;
    forall i, j | 0 <= i < j < |t| ensures t[i].srcIdx <= t[j].srcIdx {
      assert t[j] == r[j - 1];
      if i > 0 {
        assert t[i] == r[i - 1];
      }
    }
  }

  lemma {:induction false} InsertSorted(x: Entry, s: seq<Entry>)
    requires SortedBySrc(s)
    ensures SortedBySrc(Insert(x, s))
  {
    if s == [] || x.srcIdx <= s[0].srcIdx {
      if s != [] {
        SortedHeadBound(s);
      }
      ConsSorted(x, s);
    } else {
      assert SortedBySrc(s[1..]);
      InsertSorted(x, s[1..]);
      InsertMultiset(x, s[1..]);
      SortedHeadBound(s);
      var r := Insert(x, s[1..]);
      forall e | e in r ensures s[0].srcIdx <= e.srcIdx {
        assert e in multiset(r);
        if e != x {
          assert e in multiset(s[1..]);
          assert e in s;
        }
      }
      ConsSorted(s[0], r);
    }
  }

  /** Python's stable `sorted` on the source well index, as an insertion sort
      that keeps equal keys in input order. */
  function SortBySrc(s: seq<Entry>): (r: seq<Entry>)
    ensures SortedBySrc(r)
    ensures multiset(r) == multiset(s)
    ensures SumVol(r) == SumVol(s)
  {
    if s == [] then []
    else
      var rest := SortBySrc(s[1..]);
      InsertMultiset(s[0], rest);
      InsertSorted(s[0], rest);
      assert s == [s[0]] + s[1..];
      Insert(s[0], rest)
  }

  /** The entries of `s` with source well `k`, in order. */
  function FilterSrc(s: seq<Entry>, k: nat): seq<Entry>
  {
    if s == [] then []
    else if s[0].srcIdx == k then [s[0]] + FilterSrc(s[1..], k)
    else FilterSrc(s[1..], k)
  }

  lemma {:induction false} InsertFilterSrc(x: Entry, s: seq<Entry>, k: nat)
    requires SortedBySrc(s)
    ensures FilterSrc(Insert(x, s), k) == if x.srcIdx == k then [x] + FilterSrc(s, k) else FilterSrc(s, k)
  {
    if s == [] || x.srcIdx <= s[0].srcIdx {
      if x.srcIdx == k {
        assert FilterSrc([x] + s, k) == [x] + FilterSrc(s, k) by {
          assert ([x] + s)[1..] == s;
        }
      } else {
        assert ([x] + s)[1..] == s;
      }
    } else {
      InsertFilterSrc(x, s[1..], k);
      var r := Insert(x, s[1..]);
      assert ([s[0]] + r)[1..] == r;
      if x.srcIdx == k && s[0].srcIdx == k {
        assert false;
      }
    }
  }

  /** Stability: among entries with the same source well, the sort keeps the
      input order. */
  lemma {:induction false} SortBySrcStable(s: seq<Entry>, k: nat)
    ensures FilterSrc(SortBySrc(s), k) == FilterSrc(s, k)
  {
    if s != [] {
      SortBySrcStable(s[1..], k);
      InsertFilterSrc(s[0], SortBySrc(s[1..]), k);
    }
  }

  lemma {:induction false} InsertFilterDest(x: Entry, s: seq<Entry>, d: int)
    requires SortedBySrc(s)
    ensures FilterDest(Insert(x, s), d) ==
            if x.destIdx == d then Insert(x, FilterDest(s, d)) else FilterDest(s, d)
  {
    if s == [] || x.srcIdx <= s[0].srcIdx {
      assert ([x] + s)[1..] == s;
      var f := FilterDest(s, d);
      if f != [] {
        assert f[0] in s;
        var j :| 0 <= j < |s| && s[j] == f[0];
        assert s[0].srcIdx <= s[j].srcIdx;
      }
    } else {
      InsertFilterDest(x, s[1..], d);
      var r := Insert(x, s[1..]);
      assert ([s[0]] + r)[1..] == r;
    }
  }

  /** Restricting the sorted list to one destination well is the same as
      sorting that destination's own entries. */
  lemma {:induction false} SortFilterDest(s: seq<Entry>, d: int)
    ensures FilterDest(SortBySrc(s), d) == SortBySrc(FilterDest(s, d))
  {
    if s != [] {
      SortFilterDest(s[1..], d);
      InsertFilterDest(s[0], SortBySrc(s[1..]), d);
    }
  }

  // ---------------------------------------------------------------------
  // Grouping by destination well and round-robin draining
  // ---------------------------------------------------------------------

  /** `worklist_map`: one list per destination well index below `cap`. */
  function Group(s: seq<Entry>, cap: nat): (gs: seq<seq<Entry>>)
    ensures |gs| == cap && forall d :: 0 <= d < cap ==> gs[d] == FilterDest(s, d)
  {
    seq(cap, d => FilterDest(s, d))
  }

  /** Number of entries still held by the groups. */
  function TotalLen(gs: seq<seq<Entry>>): nat
  {
    if gs == [] then 0 else |gs[0]| + TotalLen(gs[1..])
  }

  function Head1(g: seq<Entry>): seq<Entry>
  {
    if g == [] then [] else [g[0]]
  }

  function Drop1(g: seq<Entry>): seq<Entry>
  {
    if g == [] then [] else g[1..]
  }

  /** One pass: the first entry of every non-empty group, in index order. */
  function Heads(gs: seq<seq<Entry>>): seq<Entry>
  {
    if gs == [] then [] else Head1(gs[0]) + Heads(gs[1..])
  }

  /** The groups after one pass. */
  function Tails(gs: seq<seq<Entry>>): (r: seq<seq<Entry>>)
    ensures |r| == |gs|
  {
    if gs == [] then [] else [Drop1(gs[0])] + Tails(gs[1..])
  }

  lemma {:induction false} HeadsTails(gs: seq<seq<Entry>>)
    ensures TotalLen(Tails(gs)) + |Heads(gs)| == TotalLen(gs)
    ensures TotalLen(gs) > 0 ==> |Heads(gs)| > 0
  {
    if gs != [] {
      HeadsTails(gs[1..]);
      assert Tails(gs)[1..] == Tails(gs[1..]);
    }
  }

  /** The merged stream: pass after pass until every group is empty. */
  function RoundRobin(gs: seq<seq<Entry>>): seq<Entry>
    decreases TotalLen(gs)
  {
    if TotalLen(gs) == 0 then []
    else
      HeadsTails(gs);
      Heads(gs) + RoundRobin(Tails(gs))
  }

  /** What `_write_worklist` emits for a worklist on a plate of `cap` wells. */
  function Merged(worklist: seq<Entry>, cap: nat): seq<Entry>
  {
    RoundRobin(Group(SortBySrc(worklist), cap))
  }

  // ---- facts about TotalLen, Heads and Tails ----

  lemma {:induction false} TotalLenAppend(a: seq<seq<Entry>>, b: seq<seq<Entry>>)
    ensures TotalLen(a + b) == TotalLen(a) + TotalLen(b)
  {
    if a == [] {
      assert a + b == b;
    } else {
      assert (a + b)[1..] == a[1..] + b;
      TotalLenAppend(a[1..], b);
    }
  }

  lemma {:induction false} TotalLenZero(gs: seq<seq<Entry>>)
    ensures TotalLen(gs) == 0 <==> forall d :: 0 <= d < |gs| ==> gs[d] == []
  {
    if gs != [] {
      TotalLenZero(gs[1..]);
      assert forall d :: 1 <= d < |gs| ==> gs[d] == gs[1..][d - 1];
    }
  }

  lemma {:induction false} EmptyHeadsTails(gs: seq<seq<Entry>>)
    requires TotalLen(gs) == 0
    ensures Heads(gs) == [] && TotalLen(Tails(gs)) == 0
  {
    HeadsTails(gs);
  }

  lemma {:induction false} TotalLenPop(gs: seq<seq<Entry>>, i: nat)
    requires i < |gs| && gs[i] != []
    ensures TotalLen(gs[i := gs[i][1..]]) + 1 == TotalLen(gs)
  {
    var gs' := gs[i := gs[i][1..]];
    assert gs == gs[..i] + [gs[i]] + gs[i + 1..];
    assert gs' == gs[..i] + [gs[i][1..]] + gs[i + 1..];
    TotalLenAppend(gs[..i] + [gs[i]], gs[i + 1..]);
    TotalLenAppend(gs[..i], [gs[i]]);
    TotalLenAppend(gs[..i] + [gs[i][1..]], gs[i + 1..]);
    TotalLenAppend(gs[..i], [gs[i][1..]]);
  }

  // ---- the merge keeps every entry, and each group's order ----

  function MSum(gs: seq<seq<Entry>>): multiset<Entry>
  {
    if gs == [] then multiset{} else multiset(gs[0]) + MSum(gs[1..])
  }

  lemma {:induction false} HeadsTailsMultiset(gs: seq<seq<Entry>>)
    ensures multiset(Heads(gs)) + MSum(Tails(gs)) == MSum(gs)
  {
    if gs != [] {
      HeadsTailsMultiset(gs[1..]);
      assert Tails(gs)[1..] == Tails(gs[1..]);
      var g := gs[0];
      if g != [] {
        assert g == [g[0]] + g[1..];
      }
    }
  }

  lemma {:induction false} RoundRobinMultiset(gs: seq<seq<Entry>>)
    ensures multiset(RoundRobin(gs)) == MSum(gs)
    decreases TotalLen(gs)
  {
    HeadsTails(gs);
    HeadsTailsMultiset(gs);
    if TotalLen(gs) == 0 {
      TotalLenZero(gs);
      EmptyMSum(gs);
    } else {
      RoundRobinMultiset(Tails(gs));
    }
  }

  lemma {:induction false} EmptyMSum(gs: seq<seq<Entry>>)
    requires forall d :: 0 <= d < |gs| ==> gs[d] == []
    ensures MSum(gs) == multiset{}
  {
    if gs != [] {
      EmptyMSum(gs[1..]);
    }
  }

  lemma {:induction false} MSumPush(gs: seq<seq<Entry>>, k: nat, x: Entry)
    requires k < |gs|
    ensures MSum(gs[k := gs[k] + [x]]) == MSum(gs) + multiset{x}
  {
    var gs' := gs[k := gs[k] + [x]];
    if k == 0 {
      assert gs'[1..] == gs[1..];
    } else {
      assert gs'[1..] == gs[1..][k - 1 := gs[1..][k - 1] + [x]];
      MSumPush(gs[1..], k - 1, x);
    }
  }

  /** Grouping loses nothing when every destination index is below `cap`. */
  lemma {:induction false} GroupMultiset(s: seq<Entry>, cap: nat)
    requires forall e :: e in s ==> e.destIdx < cap
    ensures MSum(Group(s, cap)) == multiset(s)
  {
    if s == [] {
      EmptyMSum(Group(s, cap));
    } else {
      var n := |s| - 1;
      var x := s[n];
      assert s == s[..n] + [x];
      GroupMultiset(s[..n], cap);
      var g := Group(s[..n], cap);
      forall d | 0 <= d < cap
        ensures Group(s, cap)[d] == g[x.destIdx := g[x.destIdx] + [x]][d]
      {
        FilterDestAppend(s[..n], [x], d);
      }
      assert Group(s, cap) == g[x.destIdx := g[x.destIdx] + [x]];
      MSumPush(g, x.destIdx, x);
    }
  }

  /** Groups whose entries are labelled with their index (offset by `base`). */
  predicate Labelled(gs: seq<seq<Entry>>, base: int)
  {
    forall i :: 0 <= i < |gs| ==> AllTo(gs[i], base + i)
  }

  lemma {:induction false} HeadsFilter(gs: seq<seq<Entry>>, base: int, d: int)
    requires Labelled(gs, base)
    ensures FilterDest(Heads(gs), d) == if base <= d < base + |gs| then Head1(gs[d - base]) else []
  {
    if gs != [] {
      var h, rest := Head1(gs[0]), gs[1..];
      assert FilterDest(h, d) == if d == base then h else [] by {
        assert AllTo(h, base) by {
          assert AllTo(gs[0], base);
        }
        FilterDestAllTo(h, base, d);
      }
      assert FilterDest(Heads(rest), d) == if base + 1 <= d < base + |gs| then Head1(gs[d - base]) else [] by {
        assert Labelled(rest, base + 1) by {
          forall i | 0 <= i < |rest| ensures AllTo(rest[i], base + 1 + i) {
            assert rest[i] == gs[i + 1];
          }
        }
        HeadsFilter(rest, base + 1, d);
        if base + 1 <= d < base + |gs| {
          assert rest[d - base - 1] == gs[d - base];
        }
      }
      FilterDestAppend(h, Heads(rest), d);
      if d == base {
        assert h + [] == h;
      }
    }
  }

  lemma {:induction false} TailsLabelled(gs: seq<seq<Entry>>, base: int)
    requires Labelled(gs, base)
    ensures Labelled(Tails(gs), base)
    ensures forall i :: 0 <= i < |gs| ==> Tails(gs)[i] == Drop1(gs[i])
  {
    if gs != [] {
      assert Labelled(gs[1..], base + 1) by {
        forall i | 0 <= i < |gs| - 1 ensures AllTo(gs[1..][i], base + 1 + i) {
          assert gs[1..][i] == gs[i + 1];
        }
      }
      TailsLabelled(gs[1..], base + 1);
      forall i | 0 <= i < |gs| ensures AllTo(Tails(gs)[i], base + i) && Tails(gs)[i] == Drop1(gs[i]) {
        if i > 0 {
          assert Tails(gs)[i] == Tails(gs[1..])[i - 1];
          assert gs[1..][i - 1] == gs[i];
        }
        forall e | e in Drop1(gs[i]) ensures e.destIdx == base + i {
          assert e in gs[i];
        }
      }
    }
  }

  /** Round-robin draining re-grouped by destination gives back every group
      unchanged: only the interleaving differs. */
  lemma {:induction false} RoundRobinFilter(gs: seq<seq<Entry>>, d: int)
    requires Labelled(gs, 0) && 0 <= d < |gs|
    ensures FilterDest(RoundRobin(gs), d) == gs[d]
    decreases TotalLen(gs)
  {
    if TotalLen(gs) == 0 {
      TotalLenZero(gs);
    } else {
      HeadsTails(gs);
      var rest := Tails(gs);
      assert RoundRobin(gs) == Heads(gs) + RoundRobin(rest);
      assert FilterDest(RoundRobin(rest), d) == Drop1(gs[d]) by {
        TailsLabelled(gs, 0);
        RoundRobinFilter(rest, d);
      }
      assert FilterDest(Heads(gs), d) == Head1(gs[d]) by {
        HeadsFilter(gs, 0, d);
      }
      FilterDestAppend(Heads(gs), RoundRobin(rest), d);
      var g := gs[d];
      if g != [] {
        assert g == [g[0]] + g[1..];
      }
    }
  }

  /** The merge of a worklist whose destinations fit the plate: it is a
      permutation of the worklist, and each destination receives its own
      entries stably sorted by source well. */
  lemma {:induction false} MergedFacts(worklist: seq<Entry>, cap: nat)
    requires forall e :: e in worklist ==> e.destIdx < cap
    ensures multiset(Merged(worklist, cap)) == multiset(worklist)
    ensures forall d :: 0 <= d < cap ==> FilterDest(Merged(worklist, cap), d) == SortBySrc(FilterDest(worklist, d))
  {
    var sorted := SortBySrc(worklist);
    var gs := Group(sorted, cap);
    SortedFits(worklist, cap);
    GroupMultiset(sorted, cap);
    RoundRobinMultiset(gs);
    assert Labelled(gs, 0);
    forall d | 0 <= d < cap ensures FilterDest(Merged(worklist, cap), d) == SortBySrc(FilterDest(worklist, d)) {
      RoundRobinFilter(gs, d);
      SortFilterDest(worklist, d);
    }
  }

  /** An empty worklist emits nothing, whatever the plate. */
  lemma MergedEmpty(cap: nat)
    ensures Merged([], cap) == []
  {
    MergedFacts([], cap);
  }

  /** Sorting a worklist already in source order changes nothing. */
  lemma {:induction false} SortSorted(s: seq<Entry>)
    requires SortedBySrc(s)
    ensures SortBySrc(s) == s
  {
    if s != [] {
      assert SortedBySrc(s[1..]);
      SortSorted(s[1..]);
      assert s == [s[0]] + s[1..];
    }
  }

  /** Sorting twice sorts once. */
  lemma SortIdempotent(s: seq<Entry>)
    ensures SortBySrc(SortBySrc(s)) == SortBySrc(s)
  {
    SortSorted(SortBySrc(s));
  }

  /** Three entries for well 0 and one for well 1, in ascending source
      order. */
  predicate ExampleEntries(a0: Entry, a1: Entry, a2: Entry, b: Entry)
  {
    && a0.destIdx == 0 && a1.destIdx == 0 && a2.destIdx == 0 && b.destIdx == 1
    && a0.srcIdx <= a1.srcIdx <= a2.srcIdx <= b.srcIdx
  }

  /** One pass over two groups. */
  lemma PassOfTwo(g: seq<Entry>, h: seq<Entry>)
    ensures Heads([g, h]) == Head1(g) + Head1(h)
    ensures Tails([g, h]) == [Drop1(g), Drop1(h)]
  {
    var gs := [g, h];
    assert gs[1..] == [h];
    assert [h][1..] == [];
    assert Heads([h]) == Head1(h) + [] == Head1(h);
  }

  lemma ExampleDrained(a0: Entry, a1: Entry, a2: Entry, b: Entry)
    ensures RoundRobin([[a0, a1, a2], [b]]) == [a0, b, a1, a2]
  {
    var e: seq<Entry> := [];
    PassOfTwo([a0, a1, a2], [b]);
    PassOfTwo([a1, a2], e);
    PassOfTwo([a2], e);
    assert [a0, a1, a2][1..] == [a1, a2] && [a1, a2][1..] == [a2] && [b][1..] == e && [a2][1..] == e;
    var g3 := [e, e];
    assert TotalLen(g3) == 0 by {
      assert g3[1..] == [e];
      assert [e][1..] == [];
      assert TotalLen([e]) == 0;
    }
    var g2 := [[a2], e];
    assert RoundRobin(g2) == [a2];
    var g1 := [[a1, a2], e];
    assert RoundRobin(g1) == [a1, a2];
  }

  lemma ExampleGroups(a0: Entry, a1: Entry, a2: Entry, b: Entry)
    requires ExampleEntries(a0, a1, a2, b)
    ensures Group([a0, a1, a2, b], 2) == [[a0, a1, a2], [b]]
  {
    var zeros, ones := [a0, a1, a2], [b];
    assert FilterDest(zeros + ones, 0) == zeros by {
      FilterDestAllTo(zeros, 0, 0);
      FilterDestAllTo(ones, 1, 0);
      FilterDestAppend(zeros, ones, 0);
      assert zeros + [] == zeros;
    }
    assert FilterDest(zeros + ones, 1) == ones by {
      FilterDestAllTo(zeros, 0, 1);
      FilterDestAllTo(ones, 1, 1);
      FilterDestAppend(zeros, ones, 1);
      assert [] + ones == ones;
    }
    assert [a0, a1, a2, b] == zeros + ones;
  }

  /** Three entries for well 0 then one for well 1: the first pass takes the
      first entry of each well, so the entry for well 1 comes second, and
      the later passes take the rest of well 0 in source order. */
  lemma MergedExample(a0: Entry, a1: Entry, a2: Entry, b: Entry)
    requires ExampleEntries(a0, a1, a2, b)
    ensures Merged([a0, a1, a2, b], 2) == [a0, b, a1, a2]
  {
    var sorted := [a0, a1, a2, b];
    assert SortedBySrc(sorted) by {
      forall i, j | 0 <= i < j < 4 ensures sorted[i].srcIdx <= sorted[j].srcIdx {
        assert sorted[0] == a0 && sorted[1] == a1 && sorted[2] == a2 && sorted[3] == b;
      }
    }
    SortSorted(sorted);
    ExampleGroups(a0, a1, a2, b);
    ExampleDrained(a0, a1, a2, b);
  }

  lemma {:induction false} FilterDestNone(s: seq<Entry>, d: int)
    requires forall e :: e in s ==> e.destIdx != d
    ensures FilterDest(s, d) == []
  {
    if s != [] {
      assert s[0] in s;
      FilterDestNone(s[1..], d);
    }
  }

  /** A merge dispenses into each destination what the worklist does. */
  lemma MergedVolumeAt(worklist: seq<Entry>, cap: nat, d: nat)
    requires forall e :: e in worklist ==> e.destIdx < cap
    ensures VolumeAt(Merged(worklist, cap), d) == VolumeAt(worklist, d)
  {
    MergedFacts(worklist, cap);
    var m := Merged(worklist, cap);
    if d < cap {
      assert FilterDest(m, d) == SortBySrc(FilterDest(worklist, d));
    } else {
      FilterDestNone(worklist, d);
      forall e | e in m ensures e.destIdx != d {
        assert e in multiset(m);
        assert e in multiset(worklist);
      }
      FilterDestNone(m, d);
    }
  }

  lemma SortedFits(worklist: seq<Entry>, cap: nat)
    requires forall e :: e in worklist ==> e.destIdx < cap
    ensures forall e :: e in SortBySrc(worklist) ==> e.destIdx < cap
  {
    forall e | e in SortBySrc(worklist) ensures e.destIdx < cap {
      assert e in multiset(SortBySrc(worklist));
    }
  }

  /** Appending `sorted[i]` to its destination's list extends the grouping by one entry. */
  lemma GroupStep(groups: seq<seq<Entry>>, sorted: seq<Entry>, i: nat)
    requires i < |sorted| && sorted[i].destIdx < |groups|
    requires forall d :: 0 <= d < |groups| ==> groups[d] == FilterDest(sorted[..i], d)
    ensures FilterDest(sorted[..i + 1], sorted[i].destIdx) == groups[sorted[i].destIdx] + [sorted[i]]
    ensures forall d :: 0 <= d < |groups| && d != sorted[i].destIdx ==> FilterDest(sorted[..i + 1], d) == groups[d]
  {
    var e := sorted[i];
    assert sorted[..i + 1] == sorted[..i] + [e];
    forall d | 0 <= d < |groups| {
      FilterDestAppend(sorted[..i], [e], d);
    }
  }

  lemma Assoc(a: seq<Entry>, b: seq<Entry>, c: seq<Entry>)
    ensures a + b + c == a + (b + c)
  {
  }

  lemma PassStart(g: seq<seq<Entry>>)
    requires TotalLen(g) > 0
    ensures Heads(g[0..]) + RoundRobin(g[..0] + Tails(g[0..])) == RoundRobin(g)
  {
    assert g[0..] == g && g[..0] + Tails(g) == Tails(g);
    HeadsTails(g);
  }

  /** Visiting group `idx` moves its head (if any) from the pending pass to the output. */
  lemma PassStep(g: seq<seq<Entry>>, idx: nat)
    requires idx < |g|
    ensures Heads(g[idx..]) == Head1(g[idx]) + Heads(g[idx + 1..])
    ensures g[idx := Drop1(g[idx])][..idx + 1] + Tails(g[idx + 1..]) == g[..idx] + Tails(g[idx..])
  {
    assert g[idx..][1..] == g[idx + 1..];
    assert g[idx..][0] == g[idx];
    var g' := g[idx := Drop1(g[idx])];
    assert g'[..idx + 1] == g[..idx] + [Drop1(g[idx])];
  }

  /** A pass ends at the last index, or early once every group is empty. */
  lemma PassDone(g: seq<seq<Entry>>, idx: nat)
    requires idx <= |g| && (idx == |g| || TotalLen(g) == 0)
    ensures Heads(g[idx..]) + RoundRobin(g[..idx] + Tails(g[idx..])) == RoundRobin(g)
  {
    if idx == |g| {
      assert g[idx..] == [] && g[..idx] == g;
      assert g[..idx] + Tails(g[idx..]) == g;
    } else {
      assert g == g[..idx] + g[idx..];
      TotalLenAppend(g[..idx], g[idx..]);
      EmptyHeadsTails(g[idx..]);
      TotalLenAppend(g[..idx], Tails(g[idx..]));
    }
  }

  /** The pass invariant survives the visit of group `idx`, whether or not
      it pops an entry. */
  lemma PassAdvance(all: seq<seq<Entry>>, g: seq<seq<Entry>>, done: seq<Entry>, idx: nat)
    requires idx < |g|
    requires done + Heads(g[idx..]) + RoundRobin(g[..idx] + Tails(g[idx..])) == RoundRobin(all)
    ensures var g' := g[idx := Drop1(g[idx])];
      (done + Head1(g[idx])) + Heads(g'[idx + 1..]) + RoundRobin(g'[..idx + 1] + Tails(g'[idx + 1..]))
        == RoundRobin(all)
    ensures g[idx] != [] ==> Drop1(g[idx]) == g[idx][1..] && Head1(g[idx]) == [g[idx][0]]
    ensures g[idx] == [] ==> g[idx := Drop1(g[idx])] == g && done + Head1(g[idx]) == done
  {
    var g' := g[idx := Drop1(g[idx])];
    PassStep(g, idx);
    assert g'[idx + 1..] == g[idx + 1..];
    Assoc(done, Head1(g[idx]), Heads(g[idx + 1..]));
  }

  // ---------------------------------------------------------------------
  // The serialiser itself
  // ---------------------------------------------------------------------

  /** The cycling loop of `_write_worklist`: scan the well indices in
      ascending order, popping the first entry of each non-empty group, and
      stop once every group is empty. */
  method Drain(all: seq<seq<Entry>>) returns (out: seq<Entry>)
    ensures out == RoundRobin(all)
  {
    var groups := all;
    out := [];
    while TotalLen(groups) > 0
      invariant |groups| == |all|
      invariant out + RoundRobin(groups) == RoundRobin(all)
      decreases TotalLen(groups)
    {
      groups, out := Pass(all, groups, out);
    }
    TotalLenZero(groups);
  }

  /** One sweep of the well indices, cut short when the last entry has been
      written. */
  method Pass(all: seq<seq<Entry>>, start: seq<seq<Entry>>, written: seq<Entry>)
    returns (groups: seq<seq<Entry>>, out: seq<Entry>)
    requires TotalLen(start) > 0
    requires written + RoundRobin(start) == RoundRobin(all)
    ensures |groups| == |start| && TotalLen(groups) < TotalLen(start)
    ensures out + RoundRobin(groups) == RoundRobin(all)
  {
    var cap := |start|;
    groups, out := start, written;
    PassStart(groups);
    var idx := 0;
    while idx < cap && TotalLen(groups) > 0
      invariant 0 <= idx <= cap && |groups| == cap
      invariant Pending(all, groups, out, idx)
      invariant Progress(groups, start, idx)
    {
      PassBody(all, start, groups, out, idx);
      if groups[idx] != [] {
        out := out + [groups[idx][0]];
        groups := groups[idx := groups[idx][1..]];
      }
      idx := idx + 1;
    }
    ghost var done := out;
    PassDone(groups, idx);
    Assoc(done, Heads(groups[idx..]), RoundRobin(groups[..idx] + Tails(groups[idx..])));
    TotalLenZero(groups);
  }

  /** The part of the drain still to come once the sweep reaches `idx`
      with `out` written. */
  predicate Pending(all: seq<seq<Entry>>, g: seq<seq<Entry>>, out: seq<Entry>, idx: nat)
    requires idx <= |g|
  {
    out + Heads(g[idx..]) + RoundRobin(g[..idx] + Tails(g[idx..])) == RoundRobin(all)
  }

  /** A sweep that has popped nothing has only passed empty groups. */
  predicate Progress(g: seq<seq<Entry>>, start: seq<seq<Entry>>, idx: nat)
  {
    && TotalLen(g) <= TotalLen(start)
    && (TotalLen(g) == TotalLen(start) ==> forall d :: 0 <= d < idx && d < |g| ==> g[d] == [])
  }

  /** One step of the sweep: pop group `idx` when it is not empty. */
  lemma PassBody(all: seq<seq<Entry>>, start: seq<seq<Entry>>, g: seq<seq<Entry>>, out: seq<Entry>, idx: nat)
    requires idx < |g| && Pending(all, g, out, idx) && Progress(g, start, idx)
    ensures g[idx] != [] ==>
      Pending(all, g[idx := g[idx][1..]], out + [g[idx][0]], idx + 1) &&
      Progress(g[idx := g[idx][1..]], start, idx + 1)
    ensures g[idx] == [] ==> Pending(all, g, out, idx + 1) && Progress(g, start, idx + 1)
  {
    PassAdvance(all, g, out, idx);
    if g[idx] != [] {
      TotalLenPop(g, idx);
    }
  }

  /** The `worklist_map` of `_write_worklist`: each entry appended to the
      list of its destination, in order. */
  method GroupByDest(sorted: seq<Entry>, cap: nat) returns (groups: seq<seq<Entry>>)
    requires forall e :: e in sorted ==> e.destIdx < cap
    ensures groups == Group(sorted, cap)
  {
    groups := seq(cap, _ => []);
    var i := 0;
    while i < |sorted|
      invariant 0 <= i <= |sorted| && |groups| == cap
      invariant forall d :: 0 <= d < cap ==> groups[d] == FilterDest(sorted[..i], d)
    {
      var e := sorted[i];
      GroupStep(groups, sorted, i);
      groups := groups[e.destIdx := groups[e.destIdx] + [e]];
      i := i + 1;
    }
    assert sorted[..i] == sorted;
  }

  /** `_write_worklist`: sort, group by destination, then cycle over the
      plate's well indices popping one entry from each non-empty group until
      all groups are empty. The rows it writes are returned in order. */
  method WriteWorklist(worklist: seq<Entry>, rows: nat, cols: nat) returns (out: seq<Entry>)
    requires forall e :: e in worklist ==> e.destIdx < rows * cols
    ensures out == Merged(worklist, rows * cols)
    ensures multiset(out) == multiset(worklist)
    ensures forall d :: 0 <= d < rows * cols ==> FilterDest(out, d) == SortBySrc(FilterDest(worklist, d))
  {
    var cap := rows * cols;
    var sorted := SortBySrc(worklist);
    SortedFits(worklist, cap);
    var groups := GroupByDest(sorted, cap);
    out := Drain(groups);
    MergedFacts(worklist, cap);
  }
}
