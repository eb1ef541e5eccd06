/** The LCR protocol (lcr_utils/lcr.py): the worklist steps that fill each
    assembly's reaction well, the order in which a run writes its plates and
    worklists, and the volume every reaction well receives. The phospho
    protocol repeats the step builders verbatim and uses them from here. */
module Lcr {
  import opened Worklist
  import opened Build
  import opened Assembly
  import Merge

  const DominoPool := "domino pool"
  const Trough := "MastermixTrough"
  const Components := "components"
  const DominoPools := "domino_pools"
  const LcrPlate := "lcr"

  /** The reagents added to every reaction of the LCR step, in the order the
      step visits them. */
  const LcrReagents: seq<(string, real)> := [(LcrMastermix, 7.0), (Ampligase, 1.5)]

  // ---------------------------------------------------------------------
  // Water (`__write_water_worklist`)
  // ---------------------------------------------------------------------

  /** `total` less `partVol` for each backbone and ORF part of the pool. */
  function WaterVolume(total: real, partVol: real, p: Pool): real
  {
    total - (|p.backbone| + |p.parts|) as real * partVol
  }

  /** Water for assembly `k`: `total` less `partVol` for each backbone and
      ORF part of its pool, from the k-th water well. */
  function WaterBlock(pools: map<string, Pool>, ids: seq<string>, dest: string, total: real, partVol: real,
                      cw: map<string, Placement>, k: nat): Outcome<seq<Entry>>
    requires k < |ids|
  {
    var p := PoolOf(pools, ids[k]);
    match WaterWell(cw, k)
    case Missing(key) => Missing(key)
    case Ok(w) =>
      Ok([Entry(dest, k, w.plate, w.idx, WaterVolume(total, partVol, p), Water, Water, "", ids[k])])
  }

  function WaterBlocks(pools: map<string, Pool>, ids: seq<string>, dest: string, total: real, partVol: real,
                       cw: map<string, Placement>): (r: seq<Outcome<seq<Entry>>>)
    ensures |r| == |ids|
    ensures forall k :: 0 <= k < |ids| ==> r[k] == WaterBlock(pools, ids, dest, total, partVol, cw, k)
  {
    seq(|ids|, k requires 0 <= k < |ids| => WaterBlock(pools, ids, dest, total, partVol, cw, k))
  }

  method WaterWorklist(pools: map<string, Pool>, ids: seq<string>, dest: string, total: real, partVol: real,
                       cw: map<string, Placement>) returns (r: Outcome<seq<Entry>>)
    ensures r == Gather(WaterBlocks(pools, ids, dest, total, partVol, cw))
  {
    ghost var bs := WaterBlocks(pools, ids, dest, total, partVol, cw);
    var worklist: seq<Entry> := [];
    var k := 0;
    while k < |ids|
      invariant 0 <= k <= |ids|
      invariant Gather(bs[..k]) == Ok(worklist)
    {
      var p := PoolOf(pools, ids[k]);
      var well := WaterWell(cw, k);
      GatherStep(bs, k);
      if well.Missing? {
        GatherAbort(bs, k + 1);
        return Missing(well.key);
      }
      var w := well.value;
      var e := Entry(dest, k, w.plate, w.idx, WaterVolume(total, partVol, p), Water, Water, "", ids[k]);
      worklist := worklist + [e];
      k := k + 1;
    }
    assert bs[..k] == bs;
    r := Ok(worklist);
  }

  /** Each water block fills its own position with the water the formula
      leaves. */
  lemma WaterShape(pools: map<string, Pool>, ids: seq<string>, dest: string, total: real, partVol: real,
                   cw: map<string, Placement>)
    ensures BlocksByPosition(WaterBlocks(pools, ids, dest, total, partVol, cw))
    ensures forall k :: 0 <= k < |ids| && WaterBlock(pools, ids, dest, total, partVol, cw, k).Ok? ==>
      SumVol(WaterBlock(pools, ids, dest, total, partVol, cw, k).value)
        == WaterVolume(total, partVol, PoolOf(pools, ids[k]))
  {
  }

  // ---------------------------------------------------------------------
  // Parts (`__write_parts_worklist`)
  // ---------------------------------------------------------------------

  /** Assembly `k`'s block: `partVol` of each backbone part, then 1 of
      each ORF part. */
  function PartsBlock(pools: map<string, Pool>, ids: seq<string>, dest: string, partVol: real,
                      cw: map<string, Placement>, k: nat): Outcome<seq<Entry>>
    requires k < |ids|
  {
    var p := PoolOf(pools, ids[k]);
    Then(Collect(PartDraws(cw, dest, k, partVol, p.backbone, ids[k])),
         Collect(PartDraws(cw, dest, k, 1.0, p.parts, ids[k])))
  }

  function PartsBlocks(pools: map<string, Pool>, ids: seq<string>, dest: string, partVol: real,
                       cw: map<string, Placement>): (r: seq<Outcome<seq<Entry>>>)
    ensures |r| == |ids|
    ensures forall k :: 0 <= k < |ids| ==> r[k] == PartsBlock(pools, ids, dest, partVol, cw, k)
  {
    seq(|ids|, k requires 0 <= k < |ids| => PartsBlock(pools, ids, dest, partVol, cw, k))
  }

  /** One pass of the outer loop: the backbone entries, then the ORF ones. */
  method PartsBlockOf(pools: map<string, Pool>, ids: seq<string>, dest: string, partVol: real,
                      cw: map<string, Placement>, k: nat) returns (b: Outcome<seq<Entry>>)
    requires k < |ids|
    ensures b == PartsBlock(pools, ids, dest, partVol, cw, k)
  {
    var pool := PoolOf(pools, ids[k]);
    var backbone := DrawParts(cw, dest, k, partVol, pool.backbone, ids[k]);
    if backbone.Missing? {
      return backbone;
    }
    var parts := DrawParts(cw, dest, k, 1.0, pool.parts, ids[k]);
    if parts.Missing? {
      return parts;
    }
    b := Ok(backbone.value + parts.value);
  }

  method PartsWorklist(pools: map<string, Pool>, ids: seq<string>, dest: string, partVol: real,
                       cw: map<string, Placement>) returns (r: Outcome<seq<Entry>>)
    ensures r == Gather(PartsBlocks(pools, ids, dest, partVol, cw))
  {
    ghost var bs := PartsBlocks(pools, ids, dest, partVol, cw);
    var worklist: seq<Entry> := [];
    var k := 0;
    while k < |ids|
      invariant 0 <= k <= |ids|
      invariant Gather(bs[..k]) == Ok(worklist)
    {
      var b := PartsBlockOf(pools, ids, dest, partVol, cw, k);
      GatherNext(bs, k, worklist, b);
      if b.Missing? {
        return b;
      }
      worklist := worklist + b.value;
      k := k + 1;
    }
    assert bs[..k] == bs;
    r := Ok(worklist);
  }

  /** `partVol` for each backbone part and 1 for each ORF part. */
  function PartsVolume(partVol: real, p: Pool): real
  {
    Scaled(|p.backbone|, partVol) + Scaled(|p.parts|, 1.0)
  }

  /** A parts block fills its own position with the volume of its parts. */
  lemma PartsBlockVolume(pools: map<string, Pool>, ids: seq<string>, dest: string, partVol: real,
                         cw: map<string, Placement>, k: nat)
    requires k < |ids| && PartsBlock(pools, ids, dest, partVol, cw, k).Ok?
    ensures AllTo(PartsBlock(pools, ids, dest, partVol, cw, k).value, k)
    ensures SumVol(PartsBlock(pools, ids, dest, partVol, cw, k).value) == PartsVolume(partVol, PoolOf(pools, ids[k]))
  {
    PoolPartsVolume(cw, dest, k, partVol, PoolOf(pools, ids[k]), ids[k]);
  }

  /** `partVol` of each backbone part of `p`, then 1 of each ORF part. */
  lemma PoolPartsVolume(cw: map<string, Placement>, dest: string, k: nat, partVol: real, p: Pool, plasmid: string)
    requires Then(Collect(PartDraws(cw, dest, k, partVol, p.backbone, plasmid)),
                  Collect(PartDraws(cw, dest, k, 1.0, p.parts, plasmid))).Ok?
    ensures var t := Then(Collect(PartDraws(cw, dest, k, partVol, p.backbone, plasmid)),
                          Collect(PartDraws(cw, dest, k, 1.0, p.parts, plasmid)));
      AllTo(t.value, k) && SumVol(t.value) == PartsVolume(partVol, p)
  {
    var a := Collect(PartDraws(cw, dest, k, partVol, p.backbone, plasmid));
    var b := Collect(PartDraws(cw, dest, k, 1.0, p.parts, plasmid));
    DrawsShape(cw, dest, k, partVol, p.backbone, plasmid);
    DrawsShape(cw, dest, k, 1.0, p.parts, plasmid);
    ThenVolume(a, b, k, Scaled(|p.backbone|, partVol), Scaled(|p.parts|, 1.0));
  }

  /** Two blocks for the same position make one block with their volumes
      added. */
  lemma ThenVolume(a: Outcome<seq<Entry>>, b: Outcome<seq<Entry>>, k: nat, x: real, y: real)
    requires a.Ok? && b.Ok? && AllTo(a.value, k) && AllTo(b.value, k)
    requires SumVol(a.value) == x && SumVol(b.value) == y
    ensures Then(a, b).Ok? && AllTo(Then(a, b).value, k) && SumVol(Then(a, b).value) == x + y
  {
    SumVolAppend(a.value, b.value);
  }

  lemma PartsShape(pools: map<string, Pool>, ids: seq<string>, dest: string, partVol: real,
                   cw: map<string, Placement>)
    ensures BlocksByPosition(PartsBlocks(pools, ids, dest, partVol, cw))
    ensures forall k :: 0 <= k < |ids| && PartsBlock(pools, ids, dest, partVol, cw, k).Ok? ==>
      SumVol(PartsBlock(pools, ids, dest, partVol, cw, k).value) == PartsVolume(partVol, PoolOf(pools, ids[k]))
  {
    forall k | 0 <= k < |ids| && PartsBlock(pools, ids, dest, partVol, cw, k).Ok?
      ensures AllTo(PartsBlock(pools, ids, dest, partVol, cw, k).value, k)
      ensures SumVol(PartsBlock(pools, ids, dest, partVol, cw, k).value) == PartsVolume(partVol, PoolOf(pools, ids[k]))
    {
      PartsBlockVolume(pools, ids, dest, partVol, cw, k);
    }
  }

  // ---------------------------------------------------------------------
  // Pool wells (`__write_dom_pools_worklist`, `__write_phospho_pools_worklist`)
  // ---------------------------------------------------------------------

  /** `vol` of assembly `k`'s pool, found under its id and `suffix`; the
      component name and description are `name`. */
  function PoolBlock(ids: seq<string>, dest: string, vol: real, cw: map<string, Placement>,
                     suffix: string, name: string, k: nat): Outcome<seq<Entry>>
    requires k < |ids|
  {
    match SingleWell(cw, ids[k] + suffix)
    case Missing(key) => Missing(key)
    case Ok(w) => Ok([Entry(dest, k, w.plate, w.idx, vol, name, name, "", ids[k])])
  }

  function PoolBlocks(ids: seq<string>, dest: string, vol: real, cw: map<string, Placement>,
                      suffix: string, name: string): (r: seq<Outcome<seq<Entry>>>)
    ensures |r| == |ids|
    ensures forall k :: 0 <= k < |ids| ==> r[k] == PoolBlock(ids, dest, vol, cw, suffix, name, k)
  {
    seq(|ids|, k requires 0 <= k < |ids| => PoolBlock(ids, dest, vol, cw, suffix, name, k))
  }

  method PoolWorklist(ids: seq<string>, dest: string, vol: real, cw: map<string, Placement>,
                      suffix: string, name: string) returns (r: Outcome<seq<Entry>>)
    ensures r == Gather(PoolBlocks(ids, dest, vol, cw, suffix, name))
  {
    ghost var bs := PoolBlocks(ids, dest, vol, cw, suffix, name);
    var worklist: seq<Entry> := [];
    var k := 0;
    while k < |ids|
      invariant 0 <= k <= |ids|
      invariant Gather(bs[..k]) == Ok(worklist)
    {
      var well := SingleWell(cw, ids[k] + suffix);
      GatherStep(bs, k);
      if well.Missing? {
        GatherAbort(bs, k + 1);
        return Missing(well.key);
      }
      var w := well.value;
      worklist := worklist + [Entry(dest, k, w.plate, w.idx, vol, name, name, "", ids[k])];
      k := k + 1;
    }
    assert bs[..k] == bs;
    r := Ok(worklist);
  }

  lemma PoolShape(ids: seq<string>, dest: string, vol: real, cw: map<string, Placement>,
                  suffix: string, name: string)
    ensures BlocksByPosition(PoolBlocks(ids, dest, vol, cw, suffix, name))
    ensures forall k :: 0 <= k < |ids| && PoolBlock(ids, dest, vol, cw, suffix, name, k).Ok? ==>
      SumVol(PoolBlock(ids, dest, vol, cw, suffix, name, k).value) == vol
    ensures forall k :: 0 <= k < |ids| ==>
      (PoolBlock(ids, dest, vol, cw, suffix, name, k).Ok? <==> ids[k] + suffix in cw && cw[ids[k] + suffix].Single?)
    ensures forall k :: 0 <= k < |ids| && PoolBlock(ids, dest, vol, cw, suffix, name, k).Missing? ==>
      PoolBlock(ids, dest, vol, cw, suffix, name, k).key == ids[k] + suffix
    ensures forall k :: 0 <= k < |ids| && PoolBlock(ids, dest, vol, cw, suffix, name, k).Ok? ==>
      ids[k] + suffix in cw && cw[ids[k] + suffix].Single? &&
      PoolBlock(ids, dest, vol, cw, suffix, name, k).value ==
        [Entry(dest, k, cw[ids[k] + suffix].well.plate, cw[ids[k] + suffix].well.idx, vol, name, name, "", ids[k])]
  {
  }

  // ---------------------------------------------------------------------
  // Reagents (`__write_default_reag_worklist`)
  // ---------------------------------------------------------------------

  /** `vol` of a reagent, drawn from the single well named after it. */
  function ReagentEntry(cw: map<string, Placement>, dest: string, k: nat, reagent: (string, real), plasmid: string)
    : (r: Outcome<Entry>)
    ensures r.Ok? ==> r.value.destIdx == k && r.value.vol == reagent.1 && r.value.component == reagent.0
  {
    match SingleWell(cw, reagent.0)
    case Missing(key) => Missing(key)
    case Ok(w) => Ok(Entry(dest, k, w.plate, w.idx, reagent.1, reagent.0, reagent.0, "", plasmid))
  }

  function ReagentDraws(cw: map<string, Placement>, dest: string, k: nat, reagents: seq<(string, real)>,
                        plasmid: string): (r: seq<Outcome<Entry>>)
    ensures |r| == |reagents|
    ensures forall j :: 0 <= j < |reagents| ==> r[j] == ReagentEntry(cw, dest, k, reagents[j], plasmid)
  {
    seq(|reagents|, j requires 0 <= j < |reagents| => ReagentEntry(cw, dest, k, reagents[j], plasmid))
  }

  function ReagentBlocks(ids: seq<string>, dest: string, reagents: seq<(string, real)>,
                         cw: map<string, Placement>): (r: seq<Outcome<seq<Entry>>>)
    ensures |r| == |ids|
    ensures forall k :: 0 <= k < |ids| ==> r[k] == Collect(ReagentDraws(cw, dest, k, reagents, ids[k]))
  {
    seq(|ids|, k requires 0 <= k < |ids| => Collect(ReagentDraws(cw, dest, k, reagents, ids[k])))
  }

  method ReagentBlockOf(cw: map<string, Placement>, dest: string, k: nat, reagents: seq<(string, real)>,
                        plasmid: string) returns (b: Outcome<seq<Entry>>)
    ensures b == Collect(ReagentDraws(cw, dest, k, reagents, plasmid))
  {
    ghost var os := ReagentDraws(cw, dest, k, reagents, plasmid);
    var block: seq<Entry> := [];
    var j := 0;
    while j < |reagents|
      invariant 0 <= j <= |reagents|
      invariant Collect(os[..j]) == Ok(block)
    {
      var e := ReagentEntry(cw, dest, k, reagents[j], plasmid);
      CollectStep(os, j);
      if e.Missing? {
        CollectAbort(os, j + 1);
        return Missing(e.key);
      }
      block := block + [e.value];
      j := j + 1;
    }
    assert os[..j] == os;
    b := Ok(block);
  }

  method ReagentWorklist(ids: seq<string>, dest: string, reagents: seq<(string, real)>,
                         cw: map<string, Placement>) returns (r: Outcome<seq<Entry>>)
    ensures r == Gather(ReagentBlocks(ids, dest, reagents, cw))
  {
    ghost var bs := ReagentBlocks(ids, dest, reagents, cw);
    var worklist: seq<Entry> := [];
    var k := 0;
    while k < |ids|
      invariant 0 <= k <= |ids|
      invariant Gather(bs[..k]) == Ok(worklist)
    {
      var b := ReagentBlockOf(cw, dest, k, reagents, ids[k]);
      GatherNext(bs, k, worklist, b);
      if b.Missing? {
        return b;
      }
      worklist := worklist + b.value;
      k := k + 1;
    }
    assert bs[..k] == bs;
    r := Ok(worklist);
  }

  /** Total volume of a list of reagents. */
  function ReagentTotal(reagents: seq<(string, real)>): real
  {
    if reagents == [] then 0.0 else ReagentTotal(reagents[..|reagents| - 1]) + reagents[|reagents| - 1].1
  }

  /** A reagent block holds one entry per reagent, each at its own volume. */
  lemma {:induction false} ReagentBlockVolume(cw: map<string, Placement>, dest: string, k: nat,
                                              reagents: seq<(string, real)>, plasmid: string)
    requires Collect(ReagentDraws(cw, dest, k, reagents, plasmid)).Ok?
    ensures AllTo(Collect(ReagentDraws(cw, dest, k, reagents, plasmid)).value, k)
    ensures SumVol(Collect(ReagentDraws(cw, dest, k, reagents, plasmid)).value) == ReagentTotal(reagents)
  {
    var os := ReagentDraws(cw, dest, k, reagents, plasmid);
    var v := Collect(os).value;
    assert forall i :: 0 <= i < |v| ==> v[i] == os[i].value;
    if reagents != [] {
      var n := |reagents| - 1;
      assert os[..n] == ReagentDraws(cw, dest, k, reagents[..n], plasmid);
      ReagentBlockVolume(cw, dest, k, reagents[..n], plasmid);
      SumVolAppend(Collect(os[..n]).value, [os[n].value]);
    }
  }

  lemma {:induction false} ReagentTotalAppend(a: seq<(string, real)>, b: seq<(string, real)>)
    ensures ReagentTotal(a + b) == ReagentTotal(a) + ReagentTotal(b)
  {
    if b == [] {
      assert a + b == a;
    } else {
      assert (a + b)[..|a + b| - 1] == a + b[..|b| - 1];
      ReagentTotalAppend(a, b[..|b| - 1]);
    }
  }

  /** The total of a list of reagents does not depend on its order: any
      listing of the same reagents, such as another iteration order of the
      source's reagent dictionary, adds up to the same volume. */
  lemma {:induction false} ReagentTotalPermutation(rs: seq<(string, real)>, qs: seq<(string, real)>)
    requires multiset(rs) == multiset(qs)
    ensures ReagentTotal(rs) == ReagentTotal(qs)
    decreases |rs|
  {
    if rs == [] {
      assert |qs| == |multiset(qs)| == 0;
    } else {
      var n := |rs| - 1;
      var x := rs[n];
      assert rs == rs[..n] + [x];
      assert x in multiset(qs);
      var i :| 0 <= i < |qs| && qs[i] == x;
      var rest := qs[..i] + qs[i + 1..];
      assert qs == qs[..i] + [x] + qs[i + 1..];
      assert multiset(rs) == multiset(rs[..n]) + multiset{x};
      assert multiset(qs) == multiset(qs[..i]) + multiset{x} + multiset(qs[i + 1..]);
      assert multiset(rest) == multiset(qs[..i]) + multiset(qs[i + 1..]);
      assert multiset(rs[..n]) == multiset(rs) - multiset{x};
      assert multiset(rest) == multiset(qs) - multiset{x};
      ReagentTotalPermutation(rs[..n], rest);
      ReagentTotalAppend(qs[..i] + [x], qs[i + 1..]);
      ReagentTotalAppend(qs[..i], [x]);
      ReagentTotalAppend(qs[..i], qs[i + 1..]);
      assert [x][..0] == [];
    }
  }

  /** So a reagent block draws the same volume into its well whatever the
      order of the reagents. */
  lemma ReagentOrderVolume(cw: map<string, Placement>, dest: string, k: nat,
                           rs: seq<(string, real)>, qs: seq<(string, real)>, plasmid: string)
    requires multiset(rs) == multiset(qs)
    requires Collect(ReagentDraws(cw, dest, k, rs, plasmid)).Ok? && Collect(ReagentDraws(cw, dest, k, qs, plasmid)).Ok?
    ensures SumVol(Collect(ReagentDraws(cw, dest, k, rs, plasmid)).value)
            == SumVol(Collect(ReagentDraws(cw, dest, k, qs, plasmid)).value)
  {
    ReagentBlockVolume(cw, dest, k, rs, plasmid);
    ReagentBlockVolume(cw, dest, k, qs, plasmid);
    ReagentTotalPermutation(rs, qs);
  }

  lemma ReagentShape(ids: seq<string>, dest: string, reagents: seq<(string, real)>, cw: map<string, Placement>)
    ensures BlocksByPosition(ReagentBlocks(ids, dest, reagents, cw))
    ensures forall k :: 0 <= k < |ids| && Collect(ReagentDraws(cw, dest, k, reagents, ids[k])).Ok? ==>
      SumVol(Collect(ReagentDraws(cw, dest, k, reagents, ids[k])).value) == ReagentTotal(reagents)
  {
    forall k | 0 <= k < |ids| && Collect(ReagentDraws(cw, dest, k, reagents, ids[k])).Ok?
      ensures AllTo(Collect(ReagentDraws(cw, dest, k, reagents, ids[k])).value, k)
      ensures SumVol(Collect(ReagentDraws(cw, dest, k, reagents, ids[k])).value) == ReagentTotal(reagents)
    {
      ReagentBlockVolume(cw, dest, k, reagents, ids[k]);
    }
  }

  // ---------------------------------------------------------------------
  // Writing a worklist's steps (`__write_lcr_worklist`)
  // ---------------------------------------------------------------------

  /** Writing the steps of one worklist in order: the rows of each step as
      the merge orders them, up to the first step whose lookup fails, whose
      key the worklist then raises. */
  function Written(plate: string, steps: seq<Outcome<seq<Entry>>>, cap: nat): (r: (Outcome<()>, seq<Output>))
    ensures r.0.Ok? <==> forall i :: 0 <= i < |steps| ==> steps[i].Ok?
  {
    if steps == [] then (Ok(()), [])
    else if steps[0].Missing? then (Missing(steps[0].key), [])
    else
      var rest := Written(plate, steps[1..], cap);
      (rest.0, [Rows(plate, Merge.Merged(steps[0].value, cap))] + rest.1)
  }

  /** `n` rows records for `plate`. */
  function RowsTags(plate: string, n: nat): (r: seq<(Record, string)>)
    ensures |r| == n
  {
    if n == 0 then [] else [(RowsRecord, plate)] + RowsTags(plate, n - 1)
  }

  /** A worklist's steps write only rows for its plate, one record per
      step written, every step when none fails. */
  lemma {:induction false} WrittenTags(plate: string, steps: seq<Outcome<seq<Entry>>>, cap: nat)
    ensures |Written(plate, steps, cap).1| <= |steps|
    ensures Written(plate, steps, cap).0.Ok? ==> |Written(plate, steps, cap).1| == |steps|
    ensures Tags(Written(plate, steps, cap).1) == RowsTags(plate, |Written(plate, steps, cap).1|)
  {
    if steps != [] && steps[0].Ok? {
      WrittenTags(plate, steps[1..], cap);
      var rest := Written(plate, steps[1..], cap).1;
      assert Written(plate, steps, cap).1 == [Rows(plate, Merge.Merged(steps[0].value, cap))] + rest;
    }
  }

  /** `out` is what a worklist writes before its step `i`: every earlier
      step succeeded, and record j is step j's merged rows. */
  predicate WrittenUpTo(plate: string, steps: seq<Outcome<seq<Entry>>>, cap: nat, i: nat, out: seq<Output>)
  {
    && i < |steps|
    && (forall j :: 0 <= j < i ==> steps[j].Ok?)
    && |out| == i
    && (forall j :: 0 <= j < i ==> out[j] == Rows(plate, Merge.Merged(steps[j].value, cap)))
  }

  /** A worklist that raises raises the key of its first failing step,
      having written the merged rows of each step before it, in order. */
  lemma {:induction false} WrittenStops(plate: string, steps: seq<Outcome<seq<Entry>>>, cap: nat)
    requires Written(plate, steps, cap).0.Missing?
    ensures exists i :: 0 <= i < |steps| && steps[i] == Missing(Written(plate, steps, cap).0.key) &&
                        WrittenUpTo(plate, steps, cap, i, Written(plate, steps, cap).1)
  {
    if steps[0].Ok? {
      var rest := steps[1..];
      WrittenStops(plate, rest, cap);
      var out := Written(plate, rest, cap).1;
      var i :| 0 <= i < |rest| && rest[i] == Missing(Written(plate, rest, cap).0.key) &&
               WrittenUpTo(plate, rest, cap, i, out);
      var head := Rows(plate, Merge.Merged(steps[0].value, cap));
      assert Written(plate, steps, cap).1 == [head] + out;
      assert steps[i + 1] == rest[i];
      forall j | 0 <= j < i + 1
        ensures steps[j].Ok? && ([head] + out)[j] == Rows(plate, Merge.Merged(steps[j].value, cap))
      {
        if j > 0 {
          assert steps[j] == rest[j - 1];
        }
      }
      assert WrittenUpTo(plate, steps, cap, i + 1, [head] + out);
    }
  }

  /** Volume the successful steps deliver into well `d`. */
  function StepVolume(steps: seq<Outcome<seq<Entry>>>, d: int): real
  {
    if steps == [] then 0.0
    else (if steps[0].Ok? then VolumeAt(steps[0].value, d) else 0.0) + StepVolume(steps[1..], d)
  }

  /** A successful step addresses only wells below `n`. */
  predicate Within(step: Outcome<seq<Entry>>, n: nat)
  {
    step.Ok? ==> forall e :: e in step.value ==> e.destIdx < n
  }

  predicate StepsWithin(steps: seq<Outcome<seq<Entry>>>, n: nat)
  {
    forall i :: 0 <= i < |steps| ==> Within(steps[i], n)
  }

  lemma WithinMore(steps: seq<Outcome<seq<Entry>>>, n: nat, m: nat)
    requires StepsWithin(steps, n) && n <= m
    ensures StepsWithin(steps, m)
  {
    forall i | 0 <= i < |steps| ensures Within(steps[i], m) {
      assert Within(steps[i], n);
    }
  }

  /** The merge reorders each step's rows but delivers the same volume into
      every well, so a written worklist delivers what its steps dispense. */
  lemma {:induction false} WrittenDelivered(plate: string, steps: seq<Outcome<seq<Entry>>>, cap: nat, d: nat)
    requires StepsWithin(steps, cap) && Written(plate, steps, cap).0.Ok?
    ensures Delivered(Written(plate, steps, cap).1, plate, d) == StepVolume(steps, d)
  {
    if steps != [] {
      var head := [Rows(plate, Merge.Merged(steps[0].value, cap))];
      assert StepsWithin(steps[1..], cap) by {
        forall i | 0 <= i < |steps[1..]| ensures Within(steps[1..][i], cap) {
          assert steps[1..][i] == steps[i + 1];
        }
      }
      WrittenDelivered(plate, steps[1..], cap, d);
      DeliveredAppend(head, Written(plate, steps[1..], cap).1, plate, d);
      assert head[..0] == [];
      Merge.MergedVolumeAt(steps[0].value, cap, d);
    }
  }

  /** The steps of the LCR worklist: water to 15.5 less a part's volume
      per part, the parts at 1, the domino pool at 1, and the reagents. */
  function LcrSteps(pools: map<string, Pool>, ids: seq<string>, cw: map<string, Placement>)
    : seq<Outcome<seq<Entry>>>
  {
    [Gather(WaterBlocks(pools, ids, LcrPlate, 15.5, 1.0, cw)),
     Gather(PartsBlocks(pools, ids, LcrPlate, 1.0, cw)),
     Gather(PoolBlocks(ids, LcrPlate, 1.0, cw, DominoPoolSuffix, DominoPool)),
     Gather(ReagentBlocks(ids, LcrPlate, LcrReagents, cw))]
  }

  /** A step built from per-position blocks fills only the positions of
      the assemblies. */
  lemma GatherWithin(bs: seq<Outcome<seq<Entry>>>, n: nat)
    requires BlocksByPosition(bs) && |bs| == n
    ensures Within(Gather(bs), n)
  {
    if Gather(bs).Ok? {
      GatherDests(bs);
    }
  }

  lemma LcrWithin(pools: map<string, Pool>, ids: seq<string>, cw: map<string, Placement>)
    ensures StepsWithin(LcrSteps(pools, ids, cw), |ids|)
  {
    var steps := LcrSteps(pools, ids, cw);
    forall i | 0 <= i < |steps| ensures Within(steps[i], |ids|) {
      if i == 0 {
        WaterWithin(pools, ids, LcrPlate, 15.5, 1.0, cw);
      } else if i == 1 {
        PartsWithin(pools, ids, LcrPlate, 1.0, cw);
      } else if i == 2 {
        PoolWithin(ids, LcrPlate, 1.0, cw, DominoPoolSuffix, DominoPool);
      } else {
        ReagentWithin(ids, LcrPlate, LcrReagents, cw);
      }
    }
  }

  lemma WaterWithin(pools: map<string, Pool>, ids: seq<string>, dest: string, total: real, partVol: real,
                    cw: map<string, Placement>)
    ensures Within(Gather(WaterBlocks(pools, ids, dest, total, partVol, cw)), |ids|)
  {
    WaterShape(pools, ids, dest, total, partVol, cw);
    GatherWithin(WaterBlocks(pools, ids, dest, total, partVol, cw), |ids|);
  }

  lemma PartsWithin(pools: map<string, Pool>, ids: seq<string>, dest: string, partVol: real,
                    cw: map<string, Placement>)
    ensures Within(Gather(PartsBlocks(pools, ids, dest, partVol, cw)), |ids|)
  {
    PartsShape(pools, ids, dest, partVol, cw);
    GatherWithin(PartsBlocks(pools, ids, dest, partVol, cw), |ids|);
  }

  lemma PoolWithin(ids: seq<string>, dest: string, vol: real, cw: map<string, Placement>,
                   suffix: string, name: string)
    ensures Within(Gather(PoolBlocks(ids, dest, vol, cw, suffix, name)), |ids|)
  {
    PoolShape(ids, dest, vol, cw, suffix, name);
    GatherWithin(PoolBlocks(ids, dest, vol, cw, suffix, name), |ids|);
  }

  lemma ReagentWithin(ids: seq<string>, dest: string, reagents: seq<(string, real)>, cw: map<string, Placement>)
    ensures Within(Gather(ReagentBlocks(ids, dest, reagents, cw)), |ids|)
  {
    ReagentShape(ids, dest, reagents, cw);
    GatherWithin(ReagentBlocks(ids, dest, reagents, cw), |ids|);
  }

  /** Four steps deliver the sum of what each delivers. */
  lemma StepVolume4(a: Outcome<seq<Entry>>, b: Outcome<seq<Entry>>, c: Outcome<seq<Entry>>,
                    e: Outcome<seq<Entry>>, d: int)
    requires a.Ok? && b.Ok? && c.Ok? && e.Ok?
    ensures StepVolume([a, b, c, e], d)
            == VolumeAt(a.value, d) + VolumeAt(b.value, d) + VolumeAt(c.value, d) + VolumeAt(e.value, d)
  {
    assert [e][1..] == [];
    assert StepVolume([e], d) == VolumeAt(e.value, d);
    assert [c, e][1..] == [e];
    assert StepVolume([c, e], d) == VolumeAt(c.value, d) + VolumeAt(e.value, d);
    assert [b, c, e][1..] == [c, e];
    assert StepVolume([b, c, e], d) == VolumeAt(b.value, d) + VolumeAt(c.value, d) + VolumeAt(e.value, d);
    assert [a, b, c, e][1..] == [b, c, e];
  }

  /** A successful LCR worklist brings every reaction well of the run to
      25: the water makes up for the parts, then 1 of domino pool, 7 of
      mastermix and 1.5 of ampligase. Wells past the last assembly get
      nothing. */
  lemma LcrVolume(pools: map<string, Pool>, ids: seq<string>, cw: map<string, Placement>, d: nat)
    requires forall i :: 0 <= i < |LcrSteps(pools, ids, cw)| ==> LcrSteps(pools, ids, cw)[i].Ok?
    ensures StepVolume(LcrSteps(pools, ids, cw), d) == if d < |ids| then 25.0 else 0.0
  {
    var steps := LcrSteps(pools, ids, cw);
    assert steps[0].Ok? && steps[1].Ok? && steps[2].Ok? && steps[3].Ok?;
    StepVolume4(steps[0], steps[1], steps[2], steps[3], d);
    WaterShape(pools, ids, LcrPlate, 15.5, 1.0, cw);
    PartsShape(pools, ids, LcrPlate, 1.0, cw);
    PoolShape(ids, LcrPlate, 1.0, cw, DominoPoolSuffix, DominoPool);
    ReagentShape(ids, LcrPlate, LcrReagents, cw);
    GatherVolumeAt(WaterBlocks(pools, ids, LcrPlate, 15.5, 1.0, cw), d);
    GatherVolumeAt(PartsBlocks(pools, ids, LcrPlate, 1.0, cw), d);
    GatherVolumeAt(PoolBlocks(ids, LcrPlate, 1.0, cw, DominoPoolSuffix, DominoPool), d);
    GatherVolumeAt(ReagentBlocks(ids, LcrPlate, LcrReagents, cw), d);
    if d < |ids| {
      var p := PoolOf(pools, ids[d]);
      LcrWellVolume(p);
    }
  }

  /** The arithmetic of one reaction well. */
  lemma LcrWellVolume(p: Pool)
    ensures WaterVolume(15.5, 1.0, p) + PartsVolume(1.0, p) + 1.0 + ReagentTotal(LcrReagents) == 25.0
  {
    ScaledProduct(|p.backbone|, 1.0);
    ScaledProduct(|p.parts|, 1.0);
    assert LcrReagents[..1] == [(LcrMastermix, 7.0)] && LcrReagents[..1][..0] == [];
    assert ReagentTotal(LcrReagents[..1]) == 7.0;
    assert ReagentTotal(LcrReagents) == 8.5;
  }

  /** The first `k` steps succeeded and wrote `out`; what is still to be
      written comes from the steps from `k` on. */
  predicate WrittenFrom(plate: string, steps: seq<Outcome<seq<Entry>>>, cap: nat, k: nat, out: seq<Output>)
  {
    k <= |steps| &&
    Written(plate, steps, cap).0 == Written(plate, steps[k..], cap).0 &&
    Written(plate, steps, cap).1 == out + Written(plate, steps[k..], cap).1
  }

  lemma WrittenStart(plate: string, steps: seq<Outcome<seq<Entry>>>, cap: nat)
    ensures WrittenFrom(plate, steps, cap, 0, [])
  {
    assert steps[0..] == steps;
    assert [] + Written(plate, steps, cap).1 == Written(plate, steps, cap).1;
  }

  /** Writing step `k`: its rows when it succeeded, else the whole
      worklist stops with its key. */
  lemma WrittenNext(plate: string, steps: seq<Outcome<seq<Entry>>>, cap: nat, k: nat, out: seq<Output>)
    requires WrittenFrom(plate, steps, cap, k, out) && k < |steps|
    ensures steps[k].Ok? ==> WrittenFrom(plate, steps, cap, k + 1, out + [Rows(plate, Merge.Merged(steps[k].value, cap))])
    ensures steps[k].Missing? ==> Written(plate, steps, cap).0 == Missing(steps[k].key) && Written(plate, steps, cap).1 == out
  {
    assert steps[k..][1..] == steps[k + 1..];
  }

  lemma WrittenEnd(plate: string, steps: seq<Outcome<seq<Entry>>>, cap: nat, out: seq<Output>)
    requires WrittenFrom(plate, steps, cap, |steps|, out)
    ensures Written(plate, steps, cap).0 == Ok(()) && Written(plate, steps, cap).1 == out
  {
    assert steps[|steps|..] == [];
  }

  /** The volume that rows written to other plates, or no rows at all,
      deliver into a plate: none. */
  lemma {:induction false} DeliveredNone(out: seq<Output>, plate: string, d: int)
    requires forall o :: o in out ==> !(o.Rows? && o.plate == plate)
    ensures Delivered(out, plate, d) == 0.0
  {
    if out != [] {
      assert forall o :: o in out[..|out| - 1] ==> o in out;
      DeliveredNone(out[..|out| - 1], plate, d);
    }
  }

  // ---------------------------------------------------------------------
  // The run (`LcrThread.run`)
  // ---------------------------------------------------------------------

  /** What a run ends with: success or the key whose lookup raised, what it
      wrote, and the component-well map it leaves behind. */
  datatype RunResult = RunResult(result: Outcome<()>, log: seq<Output>, compWell: map<string, Placement>)

  /** The trough plate: water (one well per assembly) and the mastermix. */
  const TroughRows: seq<seq<string>> := [[Water], [LcrMastermix]]

  /** The order table with more single-component rows after it is a layout. */
  lemma OrderKeyed(fetch: string -> RegistryEntry, ids: seq<string>, extra: seq<seq<string>>)
    requires Keyed(extra)
    ensures Keyed(OrderRows(fetch, ids) + extra)
  {
    var rows := OrderRows(fetch, ids) + extra;
    forall i | 0 <= i < |rows| ensures rows[i] != [] {
      if i >= |OrderRows(fetch, ids)| {
        assert rows[i] == extra[i - |OrderRows(fetch, ids)|];
      }
    }
  }

  /** The trough and components plates of a run: the layouts written and
      the component-well map after both updates. The components plate is
      the order table with the rows `extra` after it. */
  function Plates(fetch: string -> RegistryEntry, ids: seq<string>, trough: seq<seq<string>>,
                  extra: seq<seq<string>>, cw0: map<string, Placement>): (seq<Output>, map<string, Placement>)
    requires Keyed(trough) && Keyed(extra)
  {
    OrderKeyed(fetch, ids, extra);
    var t := LayoutOf(Trough, trough, |ids|);
    var c := LayoutOf(Components, OrderRows(fetch, ids) + extra, |ids|);
    ([Layout(Trough, t), Layout(Components, c)], cw0 + t + c)
  }

  /** Writing the trough and components plates and adding their wells to
      the component-well map. */
  method WritePlates(t: AssemblyThread, trough: seq<seq<string>>, extra: seq<seq<string>>)
    modifies t, t.genie
    requires t.genie.Valid() && Keyed(trough) && Keyed(extra)
    ensures t.genie.Valid()
    ensures var p := Plates(t.genie.fetch, t.genie.iceIds, trough, extra, old(t.compWell));
            t.log == old(t.log) + p.0 && t.compWell == p.1
  {
    ghost var log0, cw0 := t.log, t.compWell;
    var wells := t.WritePlate(Trough, trough);
    t.Update(wells);
    ghost var log1, cw1 := t.log, t.compWell;
    var order := t.genie.GetOrder();
    OrderKeyed(t.genie.fetch, t.genie.iceIds, extra);
    assert t.log == log1 && t.compWell == cw1;
    var comps := t.WritePlate(Components, order + extra);
    t.Update(comps);
    PlatesOf(t.genie.fetch, t.genie.iceIds, trough, extra, cw0, wells, comps, log0, log1, t.log);
  }

  lemma PlatesOf(fetch: string -> RegistryEntry, ids: seq<string>, trough: seq<seq<string>>,
                 extra: seq<seq<string>>, cw0: map<string, Placement>,
                 wells: map<string, Placement>, comps: map<string, Placement>,
                 log0: seq<Output>, log1: seq<Output>, log2: seq<Output>)
    requires Keyed(trough) && Keyed(extra)
    requires wells == LayoutOf(Trough, trough, |ids|)
    requires comps == LayoutOf(Components, OrderRows(fetch, ids) + extra, |ids|)
    requires log1 == log0 + [Layout(Trough, wells)] && log2 == log1 + [Layout(Components, comps)]
    ensures Plates(fetch, ids, trough, extra, cw0) == (log2[|log0|..], cw0 + wells + comps)
    ensures log2 == log0 + log2[|log0|..]
  {
    assert log2[|log0|..] == [Layout(Trough, wells), Layout(Components, comps)];
  }

  /** The plates of an LCR run: water and mastermix in the trough, the
      order table and the ampligase on the components plate. */
  function LcrPlates(fetch: string -> RegistryEntry, ids: seq<string>, cw0: map<string, Placement>)
    : (seq<Output>, map<string, Placement>)
  {
    assert Keyed(TroughRows) && Keyed([[Ampligase]]);
    Plates(fetch, ids, TroughRows, [[Ampligase]], cw0)
  }

  /** A run of the LCR protocol over the assemblies `ids` on plates of `cap`
      wells, from the component-well map `cw0`: the trough and components
      plates, then the rest of the run. */
  function LcrRun(fetch: string -> RegistryEntry, ids: seq<string>, cap: nat, cw0: map<string, Placement>): RunResult
  {
    var plates := LcrPlates(fetch, ids, cw0);
    var rest := LcrFromPools(PoolsOf(fetch, ids), ids, cap, plates.1);
    RunResult(rest.result, plates.0 + rest.log, rest.compWell)
  }

  /** What `_write_dom_pool_worklist` writes when it succeeds. */
  function PooledLog(pools: map<string, Pool>, dest: string, cap: nat, wells: map<string, Placement>,
                     worklist: seq<Entry>): seq<Output>
  {
    [Header(dest), Layout(dest, wells), Rows(dest, Merge.Merged(worklist, cap))]
  }

  /** The run after its plates: the domino pools from the component-well
      map `cw1`, then the LCR worklist with the pool wells added. */
  function LcrFromPools(pools: map<string, Pool>, ids: seq<string>, cap: nat, cw1: map<string, Placement>): RunResult
  {
    var dp := Gather(DomPoolBlocks(pools, DominoPools, 1.75, cw1));
    if dp.Missing? then RunResult(Missing(dp.key), [Header(DominoPools)], cw1)
    else
      var wells := PoolWells(DominoPoolSuffix, SortIds(pools.Keys), DominoPools, |pools.Keys|);
      var cw := cw1 + wells;
      var lcr := Written(LcrPlate, LcrSteps(pools, ids, cw), cap);
      RunResult(lcr.0, PooledLog(pools, DominoPools, cap, wells, dp.value) + ([Header(LcrPlate)] + lcr.1), cw)
  }

  /** `_write_worklist` of step `k`, which succeeded, of a worklist whose
      earlier steps wrote `out` after `base`. */
  method WriteStep(t: AssemblyThread, plate: string, ghost steps: seq<Outcome<seq<Entry>>>, ghost k: nat,
                   worklist: seq<Entry>, ghost base: seq<Output>, ghost out: seq<Output>) returns (ghost out': seq<Output>)
    modifies t
    requires k < |steps| && steps[k] == Ok(worklist) && StepsWithin(steps, t.rows * t.cols)
    requires WrittenFrom(plate, steps, t.rows * t.cols, k, out) && t.log == base + out
    ensures WrittenFrom(plate, steps, t.rows * t.cols, k + 1, out')
    ensures t.log == base + out' && t.compWell == old(t.compWell)
  {
    WrittenNext(plate, steps, t.rows * t.cols, k, out);
    assert Within(steps[k], t.rows * t.cols);
    t.WriteWorklist(plate, worklist);
    out' := out + [Rows(plate, Merge.Merged(worklist, t.rows * t.cols))];
  }

  /** After step `k`: either it succeeded and the worklist goes on from
      step `k + 1` having written `out`, or the worklist raised `r`'s key
      having written `out`. */
  predicate Advanced(plate: string, steps: seq<Outcome<seq<Entry>>>, cap: nat, k: nat, r: Outcome<()>,
                     out: seq<Output>)
  {
    (r.Ok? ==> WrittenFrom(plate, steps, cap, k + 1, out)) &&
    (r.Missing? ==> Written(plate, steps, cap).0 == r && Written(plate, steps, cap).1 == out)
  }

  /** Building step `k` with `build`'s result and writing it when it
      succeeded. */
  method FinishStep(t: AssemblyThread, plate: string, ghost steps: seq<Outcome<seq<Entry>>>, ghost k: nat,
                    step: Outcome<seq<Entry>>, ghost base: seq<Output>, ghost out: seq<Output>)
    returns (r: Outcome<()>, ghost out': seq<Output>)
    modifies t
    requires k < |steps| && steps[k] == step && StepsWithin(steps, t.rows * t.cols)
    requires WrittenFrom(plate, steps, t.rows * t.cols, k, out) && t.log == base + out
    ensures Advanced(plate, steps, t.rows * t.cols, k, r, out')
    ensures t.log == base + out' && t.compWell == old(t.compWell)
  {
    if step.Missing? {
      WrittenNext(plate, steps, t.rows * t.cols, k, out);
      return Missing(step.key), out;
    }
    out' := WriteStep(t, plate, steps, k, step.value, base, out);
    r := Ok(());
  }

  /** The water step (`__write_water_worklist`) as step `k` of a worklist. */
  method WaterStep(t: AssemblyThread, plate: string, pools: map<string, Pool>, total: real, partVol: real,
                   ghost steps: seq<Outcome<seq<Entry>>>, ghost k: nat, ghost base: seq<Output>, ghost out: seq<Output>)
    returns (r: Outcome<()>, ghost out': seq<Output>)
    modifies t
    requires k < |steps| && steps[k] == Gather(WaterBlocks(pools, t.genie.iceIds, plate, total, partVol, t.compWell))
    requires StepsWithin(steps, t.rows * t.cols) && WrittenFrom(plate, steps, t.rows * t.cols, k, out) && t.log == base + out
    ensures Advanced(plate, steps, t.rows * t.cols, k, r, out')
    ensures t.log == base + out' && t.compWell == old(t.compWell)
  {
    var step := WaterWorklist(pools, t.genie.iceIds, plate, total, partVol, t.compWell);
    r, out' := FinishStep(t, plate, steps, k, step, base, out);
  }

  /** The parts step (`__write_parts_worklist`) as step `k` of a worklist. */
  method PartsStep(t: AssemblyThread, plate: string, pools: map<string, Pool>, partVol: real,
                   ghost steps: seq<Outcome<seq<Entry>>>, ghost k: nat, ghost base: seq<Output>, ghost out: seq<Output>)
    returns (r: Outcome<()>, ghost out': seq<Output>)
    modifies t
    requires k < |steps| && steps[k] == Gather(PartsBlocks(pools, t.genie.iceIds, plate, partVol, t.compWell))
    requires StepsWithin(steps, t.rows * t.cols) && WrittenFrom(plate, steps, t.rows * t.cols, k, out) && t.log == base + out
    ensures Advanced(plate, steps, t.rows * t.cols, k, r, out')
    ensures t.log == base + out' && t.compWell == old(t.compWell)
  {
    var step := PartsWorklist(pools, t.genie.iceIds, plate, partVol, t.compWell);
    r, out' := FinishStep(t, plate, steps, k, step, base, out);
  }

  /** A pool step (`__write_dom_pools_worklist`, and its phospho twin) as
      step `k` of a worklist. */
  method PoolStep(t: AssemblyThread, plate: string, vol: real, suffix: string, name: string,
                  ghost steps: seq<Outcome<seq<Entry>>>, ghost k: nat, ghost base: seq<Output>, ghost out: seq<Output>)
    returns (r: Outcome<()>, ghost out': seq<Output>)
    modifies t
    requires k < |steps| && steps[k] == Gather(PoolBlocks(t.genie.iceIds, plate, vol, t.compWell, suffix, name))
    requires StepsWithin(steps, t.rows * t.cols) && WrittenFrom(plate, steps, t.rows * t.cols, k, out) && t.log == base + out
    ensures Advanced(plate, steps, t.rows * t.cols, k, r, out')
    ensures t.log == base + out' && t.compWell == old(t.compWell)
  {
    var step := PoolWorklist(t.genie.iceIds, plate, vol, t.compWell, suffix, name);
    r, out' := FinishStep(t, plate, steps, k, step, base, out);
  }

  /** The reagent step (`__write_default_reag_worklist`) as step `k` of a
      worklist. */
  method ReagentStep(t: AssemblyThread, plate: string, reagents: seq<(string, real)>,
                     ghost steps: seq<Outcome<seq<Entry>>>, ghost k: nat, ghost base: seq<Output>, ghost out: seq<Output>)
    returns (r: Outcome<()>, ghost out': seq<Output>)
    modifies t
    requires k < |steps| && steps[k] == Gather(ReagentBlocks(t.genie.iceIds, plate, reagents, t.compWell))
    requires StepsWithin(steps, t.rows * t.cols) && WrittenFrom(plate, steps, t.rows * t.cols, k, out) && t.log == base + out
    ensures Advanced(plate, steps, t.rows * t.cols, k, r, out')
    ensures t.log == base + out' && t.compWell == old(t.compWell)
  {
    var step := ReagentWorklist(t.genie.iceIds, plate, reagents, t.compWell);
    r, out' := FinishStep(t, plate, steps, k, step, base, out);
  }

  /** `__write_lcr_worklist`: the header, then water, parts, domino pools
      and reagents, each step written as soon as it is built. */
  method LcrWorklist(t: AssemblyThread, pools: map<string, Pool>) returns (r: Outcome<()>)
    modifies t
    requires |t.genie.iceIds| <= t.rows * t.cols
    ensures var w := Written(LcrPlate, LcrSteps(pools, t.genie.iceIds, old(t.compWell)), t.rows * t.cols);
            r == w.0 && t.log == old(t.log) + [Header(LcrPlate)] + w.1 && t.compWell == old(t.compWell)
  {
    ghost var cap := t.rows * t.cols;
    ghost var steps := LcrSteps(pools, t.genie.iceIds, t.compWell);
    LcrWithin(pools, t.genie.iceIds, t.compWell);
    WithinMore(steps, |t.genie.iceIds|, cap);
    t.WriteWorklistHeader(LcrPlate);
    ghost var log0 := t.log;
    ghost var out: seq<Output> := [];
    WrittenStart(LcrPlate, steps, cap);

    r, out := WaterStep(t, LcrPlate, pools, 15.5, 1.0, steps, 0, log0, out);
    if r.Missing? {
      return;
    }
    r, out := PartsStep(t, LcrPlate, pools, 1.0, steps, 1, log0, out);
    if r.Missing? {
      return;
    }
    r, out := PoolStep(t, LcrPlate, 1.0, DominoPoolSuffix, DominoPool, steps, 2, log0, out);
    if r.Missing? {
      return;
    }
    r, out := ReagentStep(t, LcrPlate, LcrReagents, steps, 3, log0, out);
    if r.Missing? {
      return;
    }
    WrittenEnd(LcrPlate, steps, cap, out);
    r := Ok(());
  }

  /** Every row of the trough and the extra row names its component. */
  lemma LcrKeyed()
    ensures Keyed(TroughRows) && Keyed([[Ampligase]])
  {
    assert TroughRows[1] == [LcrMastermix];
  }

  /** `LcrThread.run`. The plates must hold every assembly: when
      `rows * cols > 0` the source's merge does not terminate otherwise, and
      the case `rows * cols == 0` is left out with it (see the README line
      on `Merge.WriteWorklist`). */
  method Run(t: AssemblyThread) returns (r: Outcome<()>)
    modifies t, t.genie
    requires t.genie.Valid() && |t.genie.iceIds| <= t.rows * t.cols
    ensures t.genie.Valid()
    ensures var run := LcrRun(t.genie.fetch, t.genie.iceIds, t.rows * t.cols, old(t.compWell));
            r == run.result && t.log == old(t.log) + run.log && t.compWell == run.compWell
  {
    ghost var log0 := t.log;
    var pools := t.GetPools();
    LcrKeyed();
    WritePlates(t, TroughRows, [[Ampligase]]);
    ghost var log1 := t.log;
    PoolsCount(t.genie.fetch, t.genie.iceIds);
    r := RunFromPools(t, pools);
    LogAssoc(log0, log1[|log0|..], t.log[|log1|..]);
    assert log1 == log0 + log1[|log0|..];
  }

  /** The rest of `LcrThread.run` once the plates are written. */
  method RunFromPools(t: AssemblyThread, pools: map<string, Pool>) returns (r: Outcome<()>)
    modifies t
    requires |pools.Keys| <= t.rows * t.cols && |t.genie.iceIds| <= t.rows * t.cols
    ensures var rest := LcrFromPools(pools, t.genie.iceIds, t.rows * t.cols, old(t.compWell));
            r == rest.result && t.log == old(t.log) + rest.log && t.compWell == rest.compWell
  {
    ghost var log0 := t.log;
    ghost var cw1 := t.compWell;
    var wells := t.WriteDomPoolWorklist(pools, DominoPools, 1.75);
    if wells.Missing? {
      return Missing(wells.key);
    }
    ghost var log2 := t.log;
    ghost var pooled := log2[|log0|..];
    assert log2 == log0 + pooled;
    t.Update(wells.value);
    r := LcrWorklist(t, pools);
    ghost var w := Written(LcrPlate, LcrSteps(pools, t.genie.iceIds, cw1 + wells.value), t.rows * t.cols);
    assert t.log == log2 + [Header(LcrPlate)] + w.1;
    LogAssoc(log0, pooled, [Header(LcrPlate)] + w.1);
    LogAssoc(log2, [Header(LcrPlate)], w.1);
  }

  lemma LogAssoc(a: seq<Output>, b: seq<Output>, c: seq<Output>)
    ensures a + b + c == a + (b + c)
  {
  }

  /** A worklist writes rows to its own plate only. */
  lemma {:induction false} WrittenPlate(plate: string, steps: seq<Outcome<seq<Entry>>>, cap: nat)
    ensures forall o :: o in Written(plate, steps, cap).1 ==> o.Rows? && o.plate == plate
  {
    if steps != [] && steps[0].Ok? {
      var rest := Written(plate, steps[1..], cap).1;
      WrittenPlate(plate, steps[1..], cap);
      assert Written(plate, steps, cap).1 == [Rows(plate, Merge.Merged(steps[0].value, cap))] + rest;
    }
  }

  /** After a successful run the reaction plate holds 25 in the well of
      every assembly and nothing elsewhere. */
  lemma LcrRunVolume(fetch: string -> RegistryEntry, ids: seq<string>, cap: nat, cw0: map<string, Placement>, d: nat)
    requires |ids| <= cap && LcrRun(fetch, ids, cap, cw0).result.Ok?
    ensures Delivered(LcrRun(fetch, ids, cap, cw0).log, LcrPlate, d) == if d < |ids| then 25.0 else 0.0
  {
    PoolsCount(fetch, ids);
    LcrFromPoolsVolume(PoolsOf(fetch, ids), ids, cap, LcrPlates(fetch, ids, cw0).1, d);
    LcrRunAfterPlates(fetch, ids, cap, cw0, LcrPlate, d);
  }

  /** After a successful run every domino pool holds 500. */
  lemma LcrRunPools(fetch: string -> RegistryEntry, ids: seq<string>, cap: nat, cw0: map<string, Placement>, d: nat)
    requires |ids| <= cap && LcrRun(fetch, ids, cap, cw0).result.Ok? && d < |PoolsOf(fetch, ids).Keys|
    ensures Delivered(LcrRun(fetch, ids, cap, cw0).log, DominoPools, d) == 500.0
  {
    PoolsCount(fetch, ids);
    LcrFromPoolsVolume(PoolsOf(fetch, ids), ids, cap, LcrPlates(fetch, ids, cw0).1, d);
    LcrRunAfterPlates(fetch, ids, cap, cw0, DominoPools, d);
  }

  /** The plate layouts of a run deliver nothing. */
  lemma LcrRunAfterPlates(fetch: string -> RegistryEntry, ids: seq<string>, cap: nat, cw0: map<string, Placement>,
                          plate: string, d: nat)
    ensures Delivered(LcrRun(fetch, ids, cap, cw0).log, plate, d)
         == Delivered(LcrFromPools(PoolsOf(fetch, ids), ids, cap, LcrPlates(fetch, ids, cw0).1).log, plate, d)
  {
    LcrRunLog(fetch, ids, cap, cw0);
    LcrPlatesDeliver(fetch, ids, cw0, plate, d);
    AfterNothing(LcrRun(fetch, ids, cap, cw0).log, LcrPlates(fetch, ids, cw0).0,
                 LcrFromPools(PoolsOf(fetch, ids), ids, cap, LcrPlates(fetch, ids, cw0).1).log, plate, d);
  }

  lemma LcrRunLog(fetch: string -> RegistryEntry, ids: seq<string>, cap: nat, cw0: map<string, Placement>)
    ensures LcrRun(fetch, ids, cap, cw0).log
         == LcrPlates(fetch, ids, cw0).0 + LcrFromPools(PoolsOf(fetch, ids), ids, cap, LcrPlates(fetch, ids, cw0).1).log
  {
  }

  /** The records the plates of a run write: the trough layout, then the
      components layout. */
  const PlateRecords: seq<(Record, string)> := [(LayoutRecord, Trough), (LayoutRecord, Components)]

  /** The records of a complete LCR run after its plates: the domino-pool
      header, layout and rows, then the LCR header and the rows of its four
      steps. */
  const LcrTail: seq<(Record, string)> :=
    [(HeaderRecord, DominoPools), (LayoutRecord, DominoPools), (RowsRecord, DominoPools),
     (HeaderRecord, LcrPlate)] + RowsTags(LcrPlate, 4)

  /** The records of a complete LCR run. */
  const LcrRecords: seq<(Record, string)> := PlateRecords + LcrTail

  /** The plates of a run write the trough layout, then the components
      layout. */
  lemma PlatesRecords(fetch: string -> RegistryEntry, ids: seq<string>, trough: seq<seq<string>>,
                      extra: seq<seq<string>>, cw0: map<string, Placement>)
    requires Keyed(trough) && Keyed(extra)
    ensures Tags(Plates(fetch, ids, trough, extra, cw0).0) == PlateRecords
  {
  }

  lemma LcrPlatesRecords(fetch: string -> RegistryEntry, ids: seq<string>, cw0: map<string, Placement>)
    ensures Tags(LcrPlates(fetch, ids, cw0).0) == PlateRecords
  {
    assert Keyed(TroughRows) && Keyed([[Ampligase]]);
    PlatesRecords(fetch, ids, TroughRows, [[Ampligase]], cw0);
  }

  /** A pool worklist writes its header, the layout of its pools, then its
      rows. */
  lemma PooledRecords(pools: map<string, Pool>, dest: string, cap: nat, wells: map<string, Placement>,
                      worklist: seq<Entry>)
    ensures Tags(PooledLog(pools, dest, cap, wells, worklist))
         == [(HeaderRecord, dest), (LayoutRecord, dest), (RowsRecord, dest)]
  {
    var log := PooledLog(pools, dest, cap, wells, worklist);
    assert Tags(log[2..]) == [(RowsRecord, dest)];
    assert log[1..][1..] == log[2..];
  }

  lemma {:induction false} RowsTagsPrefix(plate: string, n: nat, m: nat)
    requires n <= m
    ensures RowsTags(plate, m)[..n] == RowsTags(plate, n)
  {
    if n > 0 {
      RowsTagsPrefix(plate, n - 1, m - 1);
      assert RowsTags(plate, m)[1..][..n - 1] == RowsTags(plate, m - 1)[..n - 1];
    }
  }

  /** Records `head`, then `n` of the `m` rows records of a worklist: a
      prefix of the records with all `m` rows and whatever follows them,
      which starts as `head` does. */
  lemma StepsRecords(t: seq<(Record, string)>, head: seq<(Record, string)>, plate: string, n: nat, m: nat,
                     more: seq<(Record, string)>)
    requires 1 <= |head| && n <= m && t == head + RowsTags(plate, n)
    ensures head[..1] <= t <= head + RowsTags(plate, m) + more
    ensures n == m ==> t == head + RowsTags(plate, m)
  {
    RowsTagsPrefix(plate, n, m);
    assert t[..1] == head[..1];
    assert (head + RowsTags(plate, m) + more)[..|head| + n] == head + RowsTags(plate, m)[..n];
  }

  lemma PrefixAppend(a: seq<(Record, string)>, p: seq<(Record, string)>, q: seq<(Record, string)>)
    requires p <= q
    ensures a + p <= a + q
  {
    assert a + p == (a + q)[..|a| + |p|];
  }

  lemma TakeAppend(a: seq<(Record, string)>, b: seq<(Record, string)>)
    requires 1 <= |b|
    ensures (a + b)[..|a| + 1] == a + b[..1]
  {
    assert (a + b)[..|a| + 1] == a + b[..1];
  }

  /** Records `a`, then a log that follows the records `b`. */
  lemma {:induction false} AppendRecords(x: seq<Output>, y: seq<Output>, ok: bool, a: seq<(Record, string)>, b: seq<(Record, string)>)
    requires Tags(x) == a
    requires 1 <= |b| && b[..1] <= Tags(y) <= b
    requires ok ==> Tags(y) == b
    ensures (a + b)[..|a| + 1] <= Tags(x + y) <= a + b
    ensures 1 <= |a| ==> (a + b)[..1] <= Tags(x + y)
    ensures ok ==> Tags(x + y) == a + b
  {
    TagsAppend(x, y);
    PrefixAppend(a, Tags(y), b);
    PrefixAppend(a, b[..1], Tags(y));
    TakeAppend(a, b);
  }

  /** The records after the plate layouts: the domino-pool header always,
      then a prefix of the rest of a complete run's records, all of them
      when the run succeeds. */
  lemma LcrTailRecords(pools: map<string, Pool>, ids: seq<string>, cap: nat, cw1: map<string, Placement>)
    ensures LcrTail[..1] <= Tags(LcrFromPools(pools, ids, cap, cw1).log) <= LcrTail
    ensures LcrFromPools(pools, ids, cap, cw1).result.Ok? ==> Tags(LcrFromPools(pools, ids, cap, cw1).log) == LcrTail
  {
    var dp := Gather(DomPoolBlocks(pools, DominoPools, 1.75, cw1));
    if dp.Ok? {
      var wells := PoolWells(DominoPoolSuffix, SortIds(pools.Keys), DominoPools, |pools.Keys|);
      var steps := LcrSteps(pools, ids, cw1 + wells);
      var pooled := PooledLog(pools, DominoPools, cap, wells, dp.value);
      WrittenTags(LcrPlate, steps, cap);
      PooledRecords(pools, DominoPools, cap, wells, dp.value);
      LcrTailWritten(pooled, Written(LcrPlate, steps, cap));
    } else {
      LcrTailMissing();
    }
  }

  lemma LcrTailMissing()
    ensures LcrTail[..1] <= Tags([Header(DominoPools)]) <= LcrTail
  {
    assert Tags([Header(DominoPools)]) == LcrTail[..1];
  }

  /** The domino-pool records, the LCR header, then the rows of the steps
      written. */
  lemma LcrTailWritten(pooled: seq<Output>, lcr: (Outcome<()>, seq<Output>))
    requires Tags(pooled) == [(HeaderRecord, DominoPools), (LayoutRecord, DominoPools), (RowsRecord, DominoPools)]
    requires Tags(lcr.1) == RowsTags(LcrPlate, |lcr.1|) && |lcr.1| <= 4 && (lcr.0.Ok? ==> |lcr.1| == 4)
    ensures LcrTail[..1] <= Tags(pooled + ([Header(LcrPlate)] + lcr.1)) <= LcrTail
    ensures lcr.0.Ok? ==> Tags(pooled + ([Header(LcrPlate)] + lcr.1)) == LcrTail
  {
    var head := [(HeaderRecord, DominoPools), (LayoutRecord, DominoPools), (RowsRecord, DominoPools), (HeaderRecord, LcrPlate)];
    TagsAppend(pooled, [Header(LcrPlate)] + lcr.1);
    TagsAppend([Header(LcrPlate)], lcr.1);
    assert Tags([Header(LcrPlate)]) == [(HeaderRecord, LcrPlate)];
    StepsRecords(Tags(pooled + ([Header(LcrPlate)] + lcr.1)), head, LcrPlate, |lcr.1|, 4, []);
  }

  /** Every run writes the plate layouts and the domino-pool header first;
      a run that raises stops part-way through the records of a complete
      run, and a run that succeeds writes all of them. */
  lemma LcrRunRecords(fetch: string -> RegistryEntry, ids: seq<string>, cap: nat, cw0: map<string, Placement>)
    ensures LcrRecords[..3] <= Tags(LcrRun(fetch, ids, cap, cw0).log) <= LcrRecords
    ensures LcrRun(fetch, ids, cap, cw0).result.Ok? ==> Tags(LcrRun(fetch, ids, cap, cw0).log) == LcrRecords
  {
    var plates := LcrPlates(fetch, ids, cw0);
    var rest := LcrFromPools(PoolsOf(fetch, ids), ids, cap, plates.1);
    LcrRunLog(fetch, ids, cap, cw0);
    LcrTailRecords(PoolsOf(fetch, ids), ids, cap, plates.1);
    LcrPlatesRecords(fetch, ids, cw0);
    AppendRecords(plates.0, rest.log, rest.result.Ok?, PlateRecords, LcrTail);
  }

  lemma LcrPlatesDeliver(fetch: string -> RegistryEntry, ids: seq<string>, cw0: map<string, Placement>,
                         plate: string, d: nat)
    ensures Delivered(LcrPlates(fetch, ids, cw0).0, plate, d) == 0.0
  {
    PlatesDeliver(fetch, ids, TroughRows, [[Ampligase]], cw0, plate, d);
  }

  /** Output that delivers nothing does not change what follows it. */
  lemma AfterNothing(log: seq<Output>, a: seq<Output>, b: seq<Output>, plate: string, d: int)
    requires log == a + b && Delivered(a, plate, d) == 0.0
    ensures Delivered(log, plate, d) == Delivered(b, plate, d)
  {
    DeliveredAppend(a, b, plate, d);
  }

  /** Plate layouts deliver nothing. */
  lemma PlatesDeliver(fetch: string -> RegistryEntry, ids: seq<string>, trough: seq<seq<string>>,
                      extra: seq<seq<string>>, cw0: map<string, Placement>, plate: string, d: nat)
    requires Keyed(trough) && Keyed(extra)
    ensures Delivered(Plates(fetch, ids, trough, extra, cw0).0, plate, d) == 0.0
  {
    OrderKeyed(fetch, ids, extra);
    var t := LayoutOf(Trough, trough, |ids|);
    var c := LayoutOf(Components, OrderRows(fetch, ids) + extra, |ids|);
    assert Plates(fetch, ids, trough, extra, cw0).0 == [Layout(Trough, t), Layout(Components, c)];
    LayoutsDeliver(t, c, plate, d);
  }

  lemma LayoutsDeliver(t: map<string, Placement>, c: map<string, Placement>, plate: string, d: nat)
    ensures Delivered([Layout(Trough, t), Layout(Components, c)], plate, d) == 0.0
  {
    var out := [Layout(Trough, t), Layout(Components, c)];
    assert forall o :: o in out ==> o.Layout?;
    DeliveredNone(out, plate, d);
  }

  lemma LcrFromPoolsVolume(pools: map<string, Pool>, ids: seq<string>, cap: nat, cw1: map<string, Placement>, d: nat)
    requires |pools.Keys| <= |ids| <= cap && LcrFromPools(pools, ids, cap, cw1).result.Ok?
    ensures Delivered(LcrFromPools(pools, ids, cap, cw1).log, LcrPlate, d) == if d < |ids| then 25.0 else 0.0
    ensures d < |pools.Keys| ==> Delivered(LcrFromPools(pools, ids, cap, cw1).log, DominoPools, d) == 500.0
  {
    var dp := Gather(DomPoolBlocks(pools, DominoPools, 1.75, cw1));
    var wells := PoolWells(DominoPoolSuffix, SortIds(pools.Keys), DominoPools, |pools.Keys|);
    var pooled := PooledLog(pools, DominoPools, cap, wells, dp.value);
    var tail := [Header(LcrPlate)] + Written(LcrPlate, LcrSteps(pools, ids, cw1 + wells), cap).1;
    PooledVolume(pools, cw1, cap, wells, d);
    TailVolume(pools, ids, cap, cw1 + wells, d);
    DeliveredAppend(pooled, tail, LcrPlate, d);
    DeliveredAppend(pooled, tail, DominoPools, d);
  }

  /** Every domino pool holds 500, and nothing goes to the reaction plate. */
  lemma PooledVolume(pools: map<string, Pool>, cw1: map<string, Placement>, cap: nat,
                     wells: map<string, Placement>, d: nat)
    requires |pools.Keys| <= cap && Gather(DomPoolBlocks(pools, DominoPools, 1.75, cw1)).Ok?
    ensures var log := PooledLog(pools, DominoPools, cap, wells, Gather(DomPoolBlocks(pools, DominoPools, 1.75, cw1)).value);
      Delivered(log, LcrPlate, d) == 0.0 &&
      (d < |pools.Keys| ==> Delivered(log, DominoPools, d) == 500.0)
  {
    var bs := DomPoolBlocks(pools, DominoPools, 1.75, cw1);
    var dp := Gather(bs);
    PooledDelivered(pools, DominoPools, cap, wells, dp.value, LcrPlate, d);
    PooledDelivered(pools, DominoPools, cap, wells, dp.value, DominoPools, d);
    DomPoolVolume(pools, DominoPools, 1.75, cw1, d);
    GatherDests(bs);
    Merge.MergedVolumeAt(dp.value, cap, d);
  }

  /** A pool worklist's output delivers its merged rows to its own plate. */
  lemma PooledDelivered(pools: map<string, Pool>, dest: string, cap: nat, wells: map<string, Placement>,
                        worklist: seq<Entry>, plate: string, d: nat)
    ensures Delivered(PooledLog(pools, dest, cap, wells, worklist), plate, d)
            == if plate == dest then VolumeAt(Merge.Merged(worklist, cap), d) else 0.0
  {
    var log := PooledLog(pools, dest, cap, wells, worklist);
    var head := [Header(dest), Layout(dest, wells)];
    assert log[..2] == head;
    DeliveredNone(head, plate, d);
  }

  /** The LCR worklist brings each reaction well to 25 and writes to no
      other plate. */
  lemma TailVolume(pools: map<string, Pool>, ids: seq<string>, cap: nat, cw: map<string, Placement>, d: nat)
    requires |ids| <= cap && Written(LcrPlate, LcrSteps(pools, ids, cw), cap).0.Ok?
    ensures var tail := [Header(LcrPlate)] + Written(LcrPlate, LcrSteps(pools, ids, cw), cap).1;
      Delivered(tail, LcrPlate, d) == (if d < |ids| then 25.0 else 0.0) && Delivered(tail, DominoPools, d) == 0.0
  {
    var steps := LcrSteps(pools, ids, cw);
    var lcr := Written(LcrPlate, steps, cap);
    LcrWithin(pools, ids, cw);
    assert StepsWithin(steps, cap);
    WrittenDelivered(LcrPlate, steps, cap, d);
    LcrVolume(pools, ids, cw, d);
    WrittenPlate(LcrPlate, steps, cap);
    DeliveredNone(lcr.1, DominoPools, d);
    DeliveredAppend([Header(LcrPlate)], lcr.1, LcrPlate, d);
    DeliveredAppend([Header(LcrPlate)], lcr.1, DominoPools, d);
    DeliveredNone([Header(LcrPlate)], LcrPlate, d);
    DeliveredNone([Header(LcrPlate)], DominoPools, d);
  }

  // ---------------------------------------------------------------------
  // Where the plates put things
  // ---------------------------------------------------------------------

  lemma KeyedAppend(a: seq<seq<string>>, b: seq<seq<string>>)
    requires Keyed(a) && Keyed(b)
    ensures Keyed(a + b)
  {
    forall i | 0 <= i < |a + b| ensures (a + b)[i] != [] {
      if i >= |a| {
        assert (a + b)[i] == b[i - |a|];
      }
    }
  }

  /** No row of `a` is keyed by `name`. */
  predicate Avoids(a: seq<seq<string>>, name: string)
    requires Keyed(a)
  {
    forall k :: 0 <= k < |a| ==> a[k][0] != name
  }

  /** No key is shared between the rows of `a` and those of `b`. */
  predicate Apart(a: seq<seq<string>>, b: seq<seq<string>>)
    requires Keyed(a) && Keyed(b)
  {
    forall k, l :: 0 <= k < |a| && 0 <= l < |b| ==> a[k][0] != b[l][0]
  }

  /** The components plate's layout rows: the order table, whose keys
      ascend, then extra rows with distinct keys; no row is water. */
  predicate ComponentRows(rows: seq<seq<string>>, extra: seq<seq<string>>)
  {
    && Keyed(rows) && Keyed(extra)
    && (forall k, l :: 0 <= k < l < |rows| ==> Below(rows[k][0], rows[l][0]))
    && (forall l, m :: 0 <= l < m < |extra| ==> extra[l][0] != extra[m][0])
    && Avoids(rows, Water) && Avoids(extra, Water) && Apart(rows, extra)
  }

  /** Order row `i` takes components well `i`. */
  lemma OrderRowPlaced(rows: seq<seq<string>>, extra: seq<seq<string>>, n: nat, i: nat)
    requires ComponentRows(rows, extra) && i < |rows|
    ensures (KeyedAppend(rows, extra); var c := LayoutOf(Components, rows + extra, n);
             rows[i][0] in c && c[rows[i][0]] == Single(Well(i, Components, rows[i][1..])))
  {
    KeyedAppend(rows, extra);
    var cs := rows + extra;
    forall l | 0 <= l < |cs| ensures cs[l][0] != Water {
      if l >= |rows| {
        assert cs[l] == extra[l - |rows|];
      }
    }
    forall l | i < l < |cs| ensures cs[l][0] != cs[i][0] {
      if l < |rows| {
        BelowIrreflexive(rows[i][0]);
      } else {
        assert cs[l] == extra[l - |rows|];
      }
    }
    LayoutNoWater(Components, cs, n, i);
  }

  /** Extra row `l` takes the well after the order rows and the extra rows
      before it. */
  lemma ExtraRowPlaced(rows: seq<seq<string>>, extra: seq<seq<string>>, n: nat, l: nat)
    requires ComponentRows(rows, extra) && l < |extra|
    ensures (KeyedAppend(rows, extra); var c := LayoutOf(Components, rows + extra, n);
             extra[l][0] in c && c[extra[l][0]] == Single(Well(|rows| + l, Components, extra[l][1..])))
  {
    KeyedAppend(rows, extra);
    var cs := rows + extra;
    var i := |rows| + l;
    forall m | 0 <= m < |cs| ensures cs[m][0] != Water {
      if m >= |rows| {
        assert cs[m] == extra[m - |rows|];
      }
    }
    forall m | i < m < |cs| ensures cs[m][0] != cs[i][0] {
      assert cs[m] == extra[m - |rows|];
    }
    assert cs[i] == extra[l];
    LayoutNoWater(Components, cs, n, i);
  }

  /** A name no components row is keyed by is not on the components plate. */
  lemma ComponentsLack(rows: seq<seq<string>>, extra: seq<seq<string>>, n: nat, name: string)
    requires Keyed(rows) && Keyed(extra) && Avoids(rows, name) && Avoids(extra, name)
    ensures (KeyedAppend(rows, extra); name !in LayoutOf(Components, rows + extra, n))
  {
    KeyedAppend(rows, extra);
    var cs := rows + extra;
    forall m | 0 <= m < |cs| ensures cs[m][0] != name {
      if m >= |rows| {
        assert cs[m] == extra[m - |rows|];
      }
    }
    LayoutKeys(Components, cs, |cs|, n, name);
  }

  /** The order table is keyed in ascending id order. */
  lemma OrderAscends(fetch: string -> RegistryEntry, ids: seq<string>)
    ensures var rows := OrderRows(fetch, ids);
            Keyed(rows) && forall k, l :: 0 <= k < l < |rows| ==> Below(rows[k][0], rows[l][0])
  {
  }

  /** The LCR trough: water in wells 0..n-1, the mastermix in well n. */
  lemma LcrTrough(n: nat)
    ensures PlacedAt(LayoutOf(Trough, TroughRows, n), Water, Replicated(WaterWells(Trough, n, [])))
    ensures PlacedAt(LayoutOf(Trough, TroughRows, n), LcrMastermix, Single(Well(n, Trough, [])))
  {
    assert TroughRows[0][1..] == [] && TroughRows[1][1..] == [];
    LayoutWaterFirst(Trough, TroughRows, n, 0);
    LayoutWaterFirst(Trough, TroughRows, n, 1);
  }

  /** What the map updated with the trough, then the components plate, holds. */
  lemma Overlay(cw0: map<string, Placement>, t: map<string, Placement>, c: map<string, Placement>, name: string)
    requires name in t || name in c
    ensures name in cw0 + t + c
    ensures (cw0 + t + c)[name] == if name in c then c[name] else t[name]
  {
  }

  /** `name` maps to `p` in `cw`. */
  predicate PlacedAt(cw: map<string, Placement>, name: string, p: Placement)
  {
    name in cw && cw[name] == p
  }

  /** The components plate as laid out in `cw`: order row `i` in well `i`,
      extra row `l` in the well after the order rows and the extra rows
      before it. */
  predicate RowsPlaced(cw: map<string, Placement>, rows: seq<seq<string>>, extra: seq<seq<string>>)
    requires Keyed(rows) && Keyed(extra)
  {
    && (forall i :: 0 <= i < |rows| ==> PlacedAt(cw, rows[i][0], Single(Well(i, Components, rows[i][1..]))))
    && (forall l :: 0 <= l < |extra| ==> PlacedAt(cw, extra[l][0], Single(Well(|rows| + l, Components, extra[l][1..]))))
  }

  /** A trough row no components row is keyed by keeps its trough well
      once both plates are in the map. */
  lemma TroughOverlay(trough: seq<seq<string>>, rows: seq<seq<string>>, extra: seq<seq<string>>, n: nat,
                      cw0: map<string, Placement>, name: string)
    requires Keyed(trough) && Keyed(rows) && Keyed(extra) && Avoids(rows, name) && Avoids(extra, name)
    requires name in LayoutOf(Trough, trough, n)
    ensures (KeyedAppend(rows, extra);
             PlacedAt(cw0 + LayoutOf(Trough, trough, n) + LayoutOf(Components, rows + extra, n),
                      name, LayoutOf(Trough, trough, n)[name]))
  {
    KeyedAppend(rows, extra);
    ComponentsLack(rows, extra, n, name);
    Overlay(cw0, LayoutOf(Trough, trough, n), LayoutOf(Components, rows + extra, n), name);
  }

  /** The components plate once both plates are in the map. */
  lemma ComponentsOverlay(trough: seq<seq<string>>, rows: seq<seq<string>>, extra: seq<seq<string>>, n: nat,
                          cw0: map<string, Placement>)
    requires Keyed(trough) && ComponentRows(rows, extra)
    ensures (KeyedAppend(rows, extra);
             RowsPlaced(cw0 + LayoutOf(Trough, trough, n) + LayoutOf(Components, rows + extra, n), rows, extra))
  {
    KeyedAppend(rows, extra);
    var t := LayoutOf(Trough, trough, n);
    var c := LayoutOf(Components, rows + extra, n);
    var cw := cw0 + t + c;
    forall i | 0 <= i < |rows| ensures PlacedAt(cw, rows[i][0], Single(Well(i, Components, rows[i][1..]))) {
      OrderRowPlaced(rows, extra, n, i);
      Overlay(cw0, t, c, rows[i][0]);
    }
    forall l | 0 <= l < |extra| ensures PlacedAt(cw, extra[l][0], Single(Well(|rows| + l, Components, extra[l][1..]))) {
      ExtraRowPlaced(rows, extra, n, l);
      Overlay(cw0, t, c, extra[l][0]);
    }
  }

  /** The map the plates leave behind: the trough, then the components
      plate, over the map before them. */
  lemma PlatesMap(fetch: string -> RegistryEntry, ids: seq<string>, trough: seq<seq<string>>,
                  extra: seq<seq<string>>, cw0: map<string, Placement>)
    requires Keyed(trough) && Keyed(extra)
    ensures (KeyedAppend(OrderRows(fetch, ids), extra);
             Plates(fetch, ids, trough, extra, cw0).1
             == cw0 + LayoutOf(Trough, trough, |ids|) + LayoutOf(Components, OrderRows(fetch, ids) + extra, |ids|))
  {
    KeyedAppend(OrderRows(fetch, ids), extra);
  }

  /** The trough row `name`, which no components row is keyed by, in the
      map the plates leave behind. */
  lemma PlatesTrough(fetch: string -> RegistryEntry, ids: seq<string>, trough: seq<seq<string>>,
                     extra: seq<seq<string>>, cw0: map<string, Placement>, name: string, p: Placement)
    requires Keyed(trough) && Keyed(extra) && Avoids(OrderRows(fetch, ids), name) && Avoids(extra, name)
    requires PlacedAt(LayoutOf(Trough, trough, |ids|), name, p)
    ensures PlacedAt(Plates(fetch, ids, trough, extra, cw0).1, name, p)
  {
    PlatesMap(fetch, ids, trough, extra, cw0);
    TroughOverlay(trough, OrderRows(fetch, ids), extra, |ids|, cw0, name);
  }

  /** The components plate in the map the plates leave behind. */
  lemma PlatesComponents(fetch: string -> RegistryEntry, ids: seq<string>, trough: seq<seq<string>>,
                         extra: seq<seq<string>>, cw0: map<string, Placement>)
    requires Keyed(trough) && ComponentRows(OrderRows(fetch, ids), extra)
    ensures RowsPlaced(Plates(fetch, ids, trough, extra, cw0).1, OrderRows(fetch, ids), extra)
  {
    PlatesMap(fetch, ids, trough, extra, cw0);
    ComponentsOverlay(trough, OrderRows(fetch, ids), extra, |ids|, cw0);
  }

  /** The LCR components plate rows: the order table, then the ampligase. */
  lemma LcrComponentRows(fetch: string -> RegistryEntry, ids: seq<string>)
    requires Avoids(OrderRows(fetch, ids), Water) && Avoids(OrderRows(fetch, ids), Ampligase)
    ensures ComponentRows(OrderRows(fetch, ids), [[Ampligase]])
  {
  }

  /** The LCR plates, components side: order row `i` in components well `i`
      and the ampligase in the well after the last order row, unless a part
      id is water or ampligase. */
  lemma LcrComponentsPlaced(fetch: string -> RegistryEntry, ids: seq<string>, cw0: map<string, Placement>)
    requires Avoids(OrderRows(fetch, ids), Water) && Avoids(OrderRows(fetch, ids), Ampligase)
    ensures RowsPlaced(LcrPlates(fetch, ids, cw0).1, OrderRows(fetch, ids), [[Ampligase]])
  {
    LcrComponentRows(fetch, ids);
    PlatesComponents(fetch, ids, TroughRows, [[Ampligase]], cw0);
  }

  /** The LCR water volume falls below zero exactly when an assembly has
      more than 15 backbone and ORF parts. */
  lemma LcrWaterNegative(p: Pool)
    ensures WaterVolume(15.5, 1.0, p) < 0.0 <==> |p.backbone| + |p.parts| > 15
  {
  }
}
