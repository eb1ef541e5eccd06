/** The phospho-LCR protocol (lcr_utils/phospho_lcr.py): the parts are first
    phosphorylated on their own plate, whose wells then become the phospho
    pools of the LCR step. The step builders are those of the LCR protocol,
    which the source repeats verbatim. */
module PhosphoLcr {
  import opened Worklist
  import opened Build
  import opened Assembly
  import opened Lcr
  import Merge

  const Pnk := "pnk"
  const PnkMastermix := "pnk-mastermix"
  const PhosphoPlate := "phospho"
  const PhosphoPoolSuffix := "_phospho_pool"
  const PhosphoPool := "phospho pool"

  /** The reagents of the phosphorylation step. */
  const PnkReagents: seq<(string, real)> := [(PnkMastermix, 3.0), (Pnk, 1.0)]

  /** The reagents of the LCR step of this protocol. */
  const PhosphoLcrReagents: seq<(string, real)> := [(LcrMastermix, 5.2), (Ampligase, 1.5)]

  /** The trough plate: water (one well per assembly) and both mastermixes. */
  const PhosphoTroughRows: seq<seq<string>> := [[Water], [LcrMastermix], [PnkMastermix]]

  // ---------------------------------------------------------------------
  // The phosphorylation worklist (`__write_phospho_worklist`)
  // ---------------------------------------------------------------------

  /** Water to 16 less 1.2 per part, the backbone parts at 1.2 and the ORF
      parts at 1, then the kinase reagents. */
  function PhosphoSteps(pools: map<string, Pool>, ids: seq<string>, cw: map<string, Placement>)
    : seq<Outcome<seq<Entry>>>
  {
    [Gather(WaterBlocks(pools, ids, PhosphoPlate, 16.0, 1.2, cw)),
     Gather(PartsBlocks(pools, ids, PhosphoPlate, 1.2, cw)),
     Gather(ReagentBlocks(ids, PhosphoPlate, PnkReagents, cw))]
  }

  /** The keys of the pools once the water and parts steps have indexed
      the pool of every assembly: the default dictionary adds the missing
      ones. */
  function Touched(pools: map<string, Pool>, ids: seq<string>): (r: set<string>)
    ensures forall id :: id in r <==> id in pools || id in ids
  {
    pools.Keys + set id | id in ids
  }

  /** Indexing the pools of the run adds no key that is not an assembly of
      the run. */
  lemma TouchedKeys(fetch: string -> RegistryEntry, ids: seq<string>)
    ensures Touched(PoolsOf(fetch, ids), ids) == set id | id in ids
  {
    forall id | id in PoolsOf(fetch, ids) ensures id in ids {
      PoolsKeys(fetch, ids, id);
    }
  }

  /** The phospho pools as lcr_utils/phospho_lcr.py registers them: the pool
      of the k-th key in sorted order is well k of the phospho plate, although
      the phosphorylation reactions are laid out in run order. */
  function PhosphoWellsAsWritten(pools: map<string, Pool>, ids: seq<string>): map<string, Placement>
  {
    PoolWells(PhosphoPoolSuffix, SortIds(Touched(pools, ids)), PhosphoPlate, |Touched(pools, ids)|)
  }

  /** The phospho pools as the rest of this model registers them: the pool of
      the k-th assembly of the run is well k, where its reaction was made. */
  function PhosphoWells(ids: seq<string>): map<string, Placement>
  {
    PoolWells(PhosphoPoolSuffix, ids, PhosphoPlate, |ids|)
  }

  /** What the phosphorylation worklist raises or returns, and what it
      writes: the header, the steps up to the first failing one and, when
      every step succeeds, the layout of the phospho pools. */
  function PhosphoWritten(pools: map<string, Pool>, ids: seq<string>, cap: nat, cw: map<string, Placement>)
    : (Outcome<map<string, Placement>>, seq<Output>)
  {
    var w := Written(PhosphoPlate, PhosphoSteps(pools, ids, cw), cap);
    if w.0.Missing? then (Missing(w.0.key), [Header(PhosphoPlate)] + w.1)
    else (Ok(PhosphoWells(ids)), [Header(PhosphoPlate)] + w.1 + [Layout(PhosphoPlate, PhosphoWells(ids))])
  }

  lemma PhosphoWithin(pools: map<string, Pool>, ids: seq<string>, cw: map<string, Placement>)
    ensures StepsWithin(PhosphoSteps(pools, ids, cw), |ids|)
  {
    var steps := PhosphoSteps(pools, ids, cw);
    forall i | 0 <= i < |steps| ensures Within(steps[i], |ids|) {
      if i == 0 {
        WaterWithin(pools, ids, PhosphoPlate, 16.0, 1.2, cw);
      } else if i == 1 {
        PartsWithin(pools, ids, PhosphoPlate, 1.2, cw);
      } else {
        ReagentWithin(ids, PhosphoPlate, PnkReagents, cw);
      }
    }
  }

  /** The loop that registers a pool well for each key, in order. */
  method RegisterPools(suffix: string, ids: seq<string>, dest: string) returns (wells: map<string, Placement>)
    ensures wells == PoolWells(suffix, ids, dest, |ids|)
  {
    wells := map[];
    var k := 0;
    while k < |ids|
      invariant 0 <= k <= |ids|
      invariant wells == PoolWells(suffix, ids, dest, k)
    {
      wells := wells[ids[k] + suffix := Single(Well(k, dest, []))];
      k := k + 1;
    }
  }

  /** `__write_phospho_worklist`. */
  method PhosphoWorklist(t: AssemblyThread, pools: map<string, Pool>) returns (r: Outcome<map<string, Placement>>)
    modifies t
    requires |t.genie.iceIds| <= t.rows * t.cols
    ensures var w := PhosphoWritten(pools, t.genie.iceIds, t.rows * t.cols, old(t.compWell));
            r == w.0 && t.log == old(t.log) + w.1 && t.compWell == old(t.compWell)
  {
    ghost var log0 := t.log;
    ghost var w := Written(PhosphoPlate, PhosphoSteps(pools, t.genie.iceIds, t.compWell), t.rows * t.cols);
    ghost var written := PhosphoWritten(pools, t.genie.iceIds, t.rows * t.cols, t.compWell);
    t.WriteWorklistHeader(PhosphoPlate);
    var steps := PhosphoStepsWorklist(t, pools);
    if steps.Missing? {
      assert written.1 == [Header(PhosphoPlate)] + w.1;
      LogAssoc(log0, [Header(PhosphoPlate)], w.1);
      return Missing(steps.key);
    }
    var wells := RegisterPools(PhosphoPoolSuffix, t.genie.iceIds, PhosphoPlate);
    ghost var log1 := t.log;
    t.WriteCompWells(PhosphoPlate, wells);
    assert written.1 == [Header(PhosphoPlate)] + w.1 + [Layout(PhosphoPlate, wells)];
    LogAssoc(log0, [Header(PhosphoPlate)] + w.1, [Layout(PhosphoPlate, wells)]);
    LogAssoc(log0, [Header(PhosphoPlate)], w.1);
    r := Ok(wells);
  }

  /** The three steps of the phosphorylation worklist, after its header. */
  method PhosphoStepsWorklist(t: AssemblyThread, pools: map<string, Pool>) returns (r: Outcome<()>)
    modifies t
    requires |t.genie.iceIds| <= t.rows * t.cols
    ensures var w := Written(PhosphoPlate, PhosphoSteps(pools, t.genie.iceIds, old(t.compWell)), t.rows * t.cols);
            r == w.0 && t.log == old(t.log) + w.1 && t.compWell == old(t.compWell)
  {
    ghost var cap := t.rows * t.cols;
    ghost var steps := PhosphoSteps(pools, t.genie.iceIds, t.compWell);
    PhosphoWithin(pools, t.genie.iceIds, t.compWell);
    WithinMore(steps, |t.genie.iceIds|, cap);
    ghost var log0 := t.log;
    ghost var out: seq<Output> := [];
    WrittenStart(PhosphoPlate, steps, cap);

    r, out := WaterStep(t, PhosphoPlate, pools, 16.0, 1.2, steps, 0, log0, out);
    if r.Missing? {
      return;
    }
    r, out := PartsStep(t, PhosphoPlate, pools, 1.2, steps, 1, log0, out);
    if r.Missing? {
      return;
    }
    r, out := ReagentStep(t, PhosphoPlate, PnkReagents, steps, 2, log0, out);
    if r.Missing? {
      return;
    }
    WrittenEnd(PhosphoPlate, steps, cap, out);
    r := Ok(());
  }

  // ---------------------------------------------------------------------
  // The LCR worklist of this protocol (`__write_lcr_worklist`)
  // ---------------------------------------------------------------------

  /** Water to 4, 13.3 of the phospho pool, 1 of the domino pool and the
      reagents. */
  function PhosphoLcrSteps(pools: map<string, Pool>, ids: seq<string>, cw: map<string, Placement>)
    : seq<Outcome<seq<Entry>>>
  {
    [Gather(WaterBlocks(pools, ids, LcrPlate, 4.0, 0.0, cw)),
     Gather(PoolBlocks(ids, LcrPlate, 13.3, cw, PhosphoPoolSuffix, PhosphoPool)),
     Gather(PoolBlocks(ids, LcrPlate, 1.0, cw, DominoPoolSuffix, DominoPool)),
     Gather(ReagentBlocks(ids, LcrPlate, PhosphoLcrReagents, cw))]
  }

  lemma PhosphoLcrWithin(pools: map<string, Pool>, ids: seq<string>, cw: map<string, Placement>)
    ensures StepsWithin(PhosphoLcrSteps(pools, ids, cw), |ids|)
  {
    var steps := PhosphoLcrSteps(pools, ids, cw);
    forall i | 0 <= i < |steps| ensures Within(steps[i], |ids|) {
      if i == 0 {
        WaterWithin(pools, ids, LcrPlate, 4.0, 0.0, cw);
      } else if i == 1 {
        PoolWithin(ids, LcrPlate, 13.3, cw, PhosphoPoolSuffix, PhosphoPool);
      } else if i == 2 {
        PoolWithin(ids, LcrPlate, 1.0, cw, DominoPoolSuffix, DominoPool);
      } else {
        ReagentWithin(ids, LcrPlate, PhosphoLcrReagents, cw);
      }
    }
  }

  /** `__write_lcr_worklist` of this protocol. */
  method PhosphoLcrWorklist(t: AssemblyThread, pools: map<string, Pool>) returns (r: Outcome<()>)
    modifies t
    requires |t.genie.iceIds| <= t.rows * t.cols
    ensures var w := Written(LcrPlate, PhosphoLcrSteps(pools, t.genie.iceIds, old(t.compWell)), t.rows * t.cols);
            r == w.0 && t.log == old(t.log) + [Header(LcrPlate)] + w.1 && t.compWell == old(t.compWell)
  {
    ghost var cap := t.rows * t.cols;
    ghost var steps := PhosphoLcrSteps(pools, t.genie.iceIds, t.compWell);
    PhosphoLcrWithin(pools, t.genie.iceIds, t.compWell);
    WithinMore(steps, |t.genie.iceIds|, cap);
    t.WriteWorklistHeader(LcrPlate);
    ghost var log0 := t.log;
    ghost var out: seq<Output> := [];
    WrittenStart(LcrPlate, steps, cap);

    r, out := WaterStep(t, LcrPlate, pools, 4.0, 0.0, steps, 0, log0, out);
    if r.Missing? {
      return;
    }
    r, out := PoolStep(t, LcrPlate, 13.3, PhosphoPoolSuffix, PhosphoPool, steps, 1, log0, out);
    if r.Missing? {
      return;
    }
    r, out := PoolStep(t, LcrPlate, 1.0, DominoPoolSuffix, DominoPool, steps, 2, log0, out);
    if r.Missing? {
      return;
    }
    r, out := ReagentStep(t, LcrPlate, PhosphoLcrReagents, steps, 3, log0, out);
    if r.Missing? {
      return;
    }
    WrittenEnd(LcrPlate, steps, cap, out);
    r := Ok(());
  }

  // ---------------------------------------------------------------------
  // The run (`PhosphoLcrThread.run`)
  // ---------------------------------------------------------------------

  /** The extra rows of the components plate: ampligase, then the kinase. */
  const PhosphoExtraRows: seq<seq<string>> := [[Ampligase], [Pnk]]

  /** The plates of a phospho-LCR run: water and both mastermixes in the
      trough, the order table, the ampligase and the kinase on the
      components plate. */
  function PhosphoPlates(fetch: string -> RegistryEntry, ids: seq<string>, cw0: map<string, Placement>)
    : (seq<Output>, map<string, Placement>)
  {
    assert Keyed(PhosphoTroughRows) && Keyed(PhosphoExtraRows);
    Plates(fetch, ids, PhosphoTroughRows, PhosphoExtraRows, cw0)
  }

  /** Every row of the trough and extra rows names its component. */
  lemma PhosphoKeyed()
    ensures Keyed(PhosphoTroughRows) && Keyed(PhosphoExtraRows)
  {
    assert PhosphoTroughRows[2] == [PnkMastermix];
  }

  /** A run of the phospho-LCR protocol over the assemblies `ids` on plates
      of `cap` wells, from the component-well map `cw0`. */
  function PhosphoRun(fetch: string -> RegistryEntry, ids: seq<string>, cap: nat, cw0: map<string, Placement>)
    : RunResult
  {
    var plates := PhosphoPlates(fetch, ids, cw0);
    var rest := PhosphoFromPools(PoolsOf(fetch, ids), ids, cap, plates.1);
    RunResult(rest.result, plates.0 + rest.log, rest.compWell)
  }

  /** The run after its plates: the domino pools from `cw1`, then the rest
      with the pool wells added. */
  function PhosphoFromPools(pools: map<string, Pool>, ids: seq<string>, cap: nat, cw1: map<string, Placement>)
    : RunResult
  {
    var dp := Gather(DomPoolBlocks(pools, DominoPools, 1.75, cw1));
    if dp.Missing? then RunResult(Missing(dp.key), [Header(DominoPools)], cw1)
    else
      var wells := PoolWells(DominoPoolSuffix, SortIds(pools.Keys), DominoPools, |pools.Keys|);
      var rest := PhosphoAfterDoms(pools, ids, cap, cw1 + wells);
      RunResult(rest.result, PooledLog(pools, DominoPools, cap, wells, dp.value) + rest.log, rest.compWell)
  }

  /** The phosphorylation worklist from `cw2`, then, with the phospho pool
      wells added, the LCR worklist. */
  function PhosphoAfterDoms(pools: map<string, Pool>, ids: seq<string>, cap: nat, cw2: map<string, Placement>)
    : RunResult
  {
    var ph := PhosphoWritten(pools, ids, cap, cw2);
    if ph.0.Missing? then RunResult(Missing(ph.0.key), ph.1, cw2)
    else
      var cw3 := cw2 + ph.0.value;
      var lcr := Written(LcrPlate, PhosphoLcrSteps(pools, ids, cw3), cap);
      RunResult(lcr.0, ph.1 + ([Header(LcrPlate)] + lcr.1), cw3)
  }

  /** `PhosphoLcrThread.run`. The plates must hold every assembly: when
      `rows * cols > 0` the source's merge does not terminate otherwise, and
      the case `rows * cols == 0` is left out with it (see the README line
      on `Merge.WriteWorklist`). */
  method Run(t: AssemblyThread) returns (r: Outcome<()>)
    modifies t, t.genie
    requires t.genie.Valid() && |t.genie.iceIds| <= t.rows * t.cols
    ensures t.genie.Valid()
    ensures var run := PhosphoRun(t.genie.fetch, t.genie.iceIds, t.rows * t.cols, old(t.compWell));
            r == run.result && t.log == old(t.log) + run.log && t.compWell == run.compWell
  {
    ghost var log0 := t.log;
    var pools := t.GetPools();
    PhosphoKeyed();
    WritePlates(t, PhosphoTroughRows, PhosphoExtraRows);
    ghost var log1 := t.log;
    PoolsCount(t.genie.fetch, t.genie.iceIds);
    r := RunFromPools(t, pools);
    LogAssoc(log0, log1[|log0|..], t.log[|log1|..]);
    assert log1 == log0 + log1[|log0|..];
  }

  /** The domino pools, once the plates are written. */
  method RunFromPools(t: AssemblyThread, pools: map<string, Pool>) returns (r: Outcome<()>)
    modifies t
    requires |pools.Keys| <= t.rows * t.cols && |t.genie.iceIds| <= t.rows * t.cols
    ensures var rest := PhosphoFromPools(pools, t.genie.iceIds, t.rows * t.cols, old(t.compWell));
            r == rest.result && t.log == old(t.log) + rest.log && t.compWell == rest.compWell
  {
    ghost var log0 := t.log;
    var wells := t.WriteDomPoolWorklist(pools, DominoPools, 1.75);
    if wells.Missing? {
      return Missing(wells.key);
    }
    ghost var log2 := t.log;
    ghost var pooled := log2[|log0|..];
    assert log2 == log0 + pooled;
    t.Update(wells.value);
    r := RunAfterDoms(t, pools);
    LogAssoc(log0, pooled, t.log[|log2|..]);
  }

  /** The phosphorylation and LCR worklists, once the domino pools are
      written. */
  method RunAfterDoms(t: AssemblyThread, pools: map<string, Pool>) returns (r: Outcome<()>)
    modifies t
    requires |t.genie.iceIds| <= t.rows * t.cols
    ensures var rest := PhosphoAfterDoms(pools, t.genie.iceIds, t.rows * t.cols, old(t.compWell));
            r == rest.result && t.log == old(t.log) + rest.log && t.compWell == rest.compWell
  {
    ghost var log0 := t.log;
    ghost var ph := PhosphoWritten(pools, t.genie.iceIds, t.rows * t.cols, t.compWell);
    ghost var cw2 := t.compWell;
    var wells := PhosphoWorklist(t, pools);
    if wells.Missing? {
      return Missing(wells.key);
    }
    ghost var log1 := t.log;
    assert log1 == log0 + ph.1;
    t.Update(wells.value);
    assert t.compWell == cw2 + ph.0.value;
    r := PhosphoLcrWorklist(t, pools);
    ghost var lcr := Written(LcrPlate, PhosphoLcrSteps(pools, t.genie.iceIds, cw2 + ph.0.value), t.rows * t.cols);
    assert t.log == log1 + [Header(LcrPlate)] + lcr.1;
    LogAssoc(log1, [Header(LcrPlate)], lcr.1);
    LogAssoc(log0, ph.1, [Header(LcrPlate)] + lcr.1);
  }

  // ---------------------------------------------------------------------
  // What the run delivers
  // ---------------------------------------------------------------------

  /** Three steps deliver the sum of what each delivers. */
  lemma StepVolume3(a: Outcome<seq<Entry>>, b: Outcome<seq<Entry>>, c: Outcome<seq<Entry>>, d: int)
    requires a.Ok? && b.Ok? && c.Ok?
    ensures StepVolume([a, b, c], d) == VolumeAt(a.value, d) + VolumeAt(b.value, d) + VolumeAt(c.value, d)
  {
    assert [c][1..] == [];
    assert StepVolume([c], d) == VolumeAt(c.value, d);
    assert [b, c][1..] == [c];
    assert StepVolume([b, c], d) == VolumeAt(b.value, d) + VolumeAt(c.value, d);
    assert [a, b, c][1..] == [b, c];
  }

  /** The arithmetic of one phosphorylation well: water makes up for the
      backbone at 1.2 but the ORF parts are drawn at 1, so the well falls
      short of 20 by 0.2 per ORF part. */
  lemma PhosphoWellVolume(p: Pool)
    ensures WaterVolume(16.0, 1.2, p) + PartsVolume(1.2, p) + ReagentTotal(PnkReagents)
            == 20.0 - 0.2 * |p.parts| as real
  {
    ScaledProduct(|p.backbone|, 1.2);
    ScaledProduct(|p.parts|, 1.0);
    assert PnkReagents[..1] == [(PnkMastermix, 3.0)] && PnkReagents[..1][..0] == [];
    assert ReagentTotal(PnkReagents[..1]) == 3.0;
    assert ReagentTotal(PnkReagents) == 4.0;
  }

  /** A successful phosphorylation worklist brings the well of assembly `d`
      to 20 less 0.2 per ORF part; wells past the last assembly get
      nothing. */
  lemma PhosphoVolume(pools: map<string, Pool>, ids: seq<string>, cw: map<string, Placement>, d: nat)
    requires forall i :: 0 <= i < |PhosphoSteps(pools, ids, cw)| ==> PhosphoSteps(pools, ids, cw)[i].Ok?
    ensures StepVolume(PhosphoSteps(pools, ids, cw), d)
            == if d < |ids| then 20.0 - 0.2 * |PoolOf(pools, ids[d]).parts| as real else 0.0
  {
    var steps := PhosphoSteps(pools, ids, cw);
    assert steps[0].Ok? && steps[1].Ok? && steps[2].Ok?;
    StepVolume3(steps[0], steps[1], steps[2], d);
    WaterShape(pools, ids, PhosphoPlate, 16.0, 1.2, cw);
    PartsShape(pools, ids, PhosphoPlate, 1.2, cw);
    ReagentShape(ids, PhosphoPlate, PnkReagents, cw);
    GatherVolumeAt(WaterBlocks(pools, ids, PhosphoPlate, 16.0, 1.2, cw), d);
    GatherVolumeAt(PartsBlocks(pools, ids, PhosphoPlate, 1.2, cw), d);
    GatherVolumeAt(ReagentBlocks(ids, PhosphoPlate, PnkReagents, cw), d);
    if d < |ids| {
      PhosphoWellVolume(PoolOf(pools, ids[d]));
    }
  }

  /** The arithmetic of one reaction well: 4 of water, 13.3 of phospho pool,
      1 of domino pool, 5.2 of mastermix and 1.5 of ampligase. */
  lemma PhosphoLcrWellVolume(p: Pool)
    ensures WaterVolume(4.0, 0.0, p) + 13.3 + 1.0 + ReagentTotal(PhosphoLcrReagents) == 25.0
  {
    assert PhosphoLcrReagents[..1] == [(LcrMastermix, 5.2)] && PhosphoLcrReagents[..1][..0] == [];
    assert ReagentTotal(PhosphoLcrReagents[..1]) == 5.2;
    assert ReagentTotal(PhosphoLcrReagents) == 6.7;
  }

  /** A successful LCR worklist of this protocol brings every reaction well
      of the run to 25, whatever the parts; wells past the last assembly get
      nothing. */
  lemma PhosphoLcrVolume(pools: map<string, Pool>, ids: seq<string>, cw: map<string, Placement>, d: nat)
    requires forall i :: 0 <= i < |PhosphoLcrSteps(pools, ids, cw)| ==> PhosphoLcrSteps(pools, ids, cw)[i].Ok?
    ensures StepVolume(PhosphoLcrSteps(pools, ids, cw), d) == if d < |ids| then 25.0 else 0.0
  {
    var steps := PhosphoLcrSteps(pools, ids, cw);
    assert steps[0].Ok? && steps[1].Ok? && steps[2].Ok? && steps[3].Ok?;
    StepVolume4(steps[0], steps[1], steps[2], steps[3], d);
    WaterShape(pools, ids, LcrPlate, 4.0, 0.0, cw);
    PoolShape(ids, LcrPlate, 13.3, cw, PhosphoPoolSuffix, PhosphoPool);
    PoolShape(ids, LcrPlate, 1.0, cw, DominoPoolSuffix, DominoPool);
    ReagentShape(ids, LcrPlate, PhosphoLcrReagents, cw);
    GatherVolumeAt(WaterBlocks(pools, ids, LcrPlate, 4.0, 0.0, cw), d);
    GatherVolumeAt(PoolBlocks(ids, LcrPlate, 13.3, cw, PhosphoPoolSuffix, PhosphoPool), d);
    GatherVolumeAt(PoolBlocks(ids, LcrPlate, 1.0, cw, DominoPoolSuffix, DominoPool), d);
    GatherVolumeAt(ReagentBlocks(ids, LcrPlate, PhosphoLcrReagents, cw), d);
    if d < |ids| {
      PhosphoLcrWellVolume(PoolOf(pools, ids[d]));
    }
  }

  /** Destination `k` of the LCR step draws its phospho pool from a well of
      the phospho plate whose reaction was made for the same assembly; when
      the ids of the run are distinct, from well `k` itself. */
  lemma PhosphoPoolSource(ids: seq<string>, cw: map<string, Placement>, k: nat)
    requires k < |ids|
    ensures PoolBlock(ids, LcrPlate, 13.3, cw + PhosphoWells(ids), PhosphoPoolSuffix, PhosphoPool, k).Ok?
    ensures var e := PoolBlock(ids, LcrPlate, 13.3, cw + PhosphoWells(ids), PhosphoPoolSuffix, PhosphoPool, k).value;
            |e| == 1 && e[0].destIdx == k && e[0].srcPlate == PhosphoPlate &&
            e[0].srcIdx < |ids| && ids[e[0].srcIdx] == ids[k]
    ensures (forall a, b :: 0 <= a < b < |ids| ==> ids[a] != ids[b]) ==>
            PoolBlock(ids, LcrPlate, 13.3, cw + PhosphoWells(ids), PhosphoPoolSuffix, PhosphoPool, k)
            == Ok([Entry(LcrPlate, k, PhosphoPlate, k, 13.3, PhosphoPool, PhosphoPool, "", ids[k])])
  {
    var j := PoolWellsFind(PhosphoPoolSuffix, ids, PhosphoPlate, |ids|, k);
    assert (cw + PhosphoWells(ids))[ids[k] + PhosphoPoolSuffix] == Single(Well(j, PhosphoPlate, []));
    if forall a, b :: 0 <= a < b < |ids| ==> ids[a] != ids[b] {
      assert j == k;
    }
  }

  /** So the phospho-pool step of the LCR worklist cannot fail. */
  lemma PhosphoPoolStep(ids: seq<string>, cw: map<string, Placement>)
    ensures Gather(PoolBlocks(ids, LcrPlate, 13.3, cw + PhosphoWells(ids), PhosphoPoolSuffix, PhosphoPool)).Ok?
  {
    var bs := PoolBlocks(ids, LcrPlate, 13.3, cw + PhosphoWells(ids), PhosphoPoolSuffix, PhosphoPool);
    forall k | 0 <= k < |bs| ensures bs[k].Ok? {
      PhosphoPoolSource(ids, cw, k);
    }
  }

  lemma SortTwo()
    ensures SortIds({"A", "B"}) == ["A", "B"]
  {
    var keys := SortIds({"A", "B"});
    assert Below("A", "B") && !Below("B", "A");
    assert "A" in keys && "B" in keys;
  }

  lemma TouchedRun()
    ensures Touched(map[], ["B", "A"]) == {"A", "B"}
    ensures |Touched(map[], ["B", "A"])| == 2
  {
    assert Touched(map[], ["B", "A"]) == {"A", "B"};
  }

  /** Sorting the keys of the run ["B", "A"] puts "A" first, so the source
      registers the pool of "B" at well 1. */
  lemma SortedRun()
    ensures "B" + PhosphoPoolSuffix in PhosphoWellsAsWritten(map[], ["B", "A"])
    ensures PhosphoWellsAsWritten(map[], ["B", "A"])["B" + PhosphoPoolSuffix] == Single(Well(1, PhosphoPlate, []))
  {
    TouchedRun();
    SortTwo();
    var keys: seq<string> := ["A", "B"];
    assert PhosphoWellsAsWritten(map[], ["B", "A"]) == PoolWells(PhosphoPoolSuffix, keys, PhosphoPlate, 2);
    PoolWellsAt(PhosphoPoolSuffix, keys, PhosphoPlate, 2, 1);
  }

  /** With the run ["B", "A"] the source registers the pool of "B", the first
      assembly, at well 1 of the phospho plate, where the reaction of "A" was
      made, so the LCR reaction of "B" draws the pool of "A". */
  lemma PhosphoNumberingDefect(cw: map<string, Placement>)
    ensures PoolBlock(["B", "A"], LcrPlate, 13.3, cw + PhosphoWellsAsWritten(map[], ["B", "A"]),
                      PhosphoPoolSuffix, PhosphoPool, 0)
            == Ok([Entry(LcrPlate, 0, PhosphoPlate, 1, 13.3, PhosphoPool, PhosphoPool, "", "B")])
  {
    SortedRun();
    var wells := PhosphoWellsAsWritten(map[], ["B", "A"]);
    assert (cw + wells)["B" + PhosphoPoolSuffix] == Single(Well(1, PhosphoPlate, []));
  }

  /** What the phosphorylation worklist leaves in well `d`: 20 less 0.2 per
      ORF part of the assembly there, nothing past the last assembly. */
  function PhosphoTarget(pools: map<string, Pool>, ids: seq<string>, d: int): real
  {
    if 0 <= d < |ids| then 20.0 - 0.2 * |PoolOf(pools, ids[d]).parts| as real else 0.0
  }

  /** Rows written between two outputs that are not rows. */
  lemma Bracketed(head: Output, body: seq<Output>, last: Output, plate: string, d: int)
    requires !head.Rows? && !last.Rows?
    ensures Delivered([head] + body + [last], plate, d) == Delivered(body, plate, d)
  {
    var front := [head] + body;
    assert (front + [last])[..|front|] == front;
    DeliveredAppend([head], body, plate, d);
    DeliveredNone([head], plate, d);
  }

  /** The steps of the phosphorylation worklist fill the phospho plate and
      write to no other plate. */
  lemma PhosphoStepsVolume(pools: map<string, Pool>, ids: seq<string>, cap: nat, cw: map<string, Placement>, d: nat)
    requires |ids| <= cap && Written(PhosphoPlate, PhosphoSteps(pools, ids, cw), cap).0.Ok?
    ensures var out := Written(PhosphoPlate, PhosphoSteps(pools, ids, cw), cap).1;
      Delivered(out, PhosphoPlate, d) == PhosphoTarget(pools, ids, d) &&
      Delivered(out, LcrPlate, d) == 0.0 && Delivered(out, DominoPools, d) == 0.0
  {
    var steps := PhosphoSteps(pools, ids, cw);
    var w := Written(PhosphoPlate, steps, cap);
    PhosphoWithin(pools, ids, cw);
    WrittenDelivered(PhosphoPlate, steps, cap, d);
    PhosphoVolume(pools, ids, cw, d);
    WrittenPlate(PhosphoPlate, steps, cap);
    DeliveredNone(w.1, LcrPlate, d);
    DeliveredNone(w.1, DominoPools, d);
  }

  /** So does the whole worklist, header and pool layout included. */
  lemma PhosphoWrittenVolume(pools: map<string, Pool>, ids: seq<string>, cap: nat, cw: map<string, Placement>, d: nat)
    requires |ids| <= cap && PhosphoWritten(pools, ids, cap, cw).0.Ok?
    ensures var out := PhosphoWritten(pools, ids, cap, cw).1;
      Delivered(out, PhosphoPlate, d) == PhosphoTarget(pools, ids, d) &&
      Delivered(out, LcrPlate, d) == 0.0 && Delivered(out, DominoPools, d) == 0.0
  {
    var w := Written(PhosphoPlate, PhosphoSteps(pools, ids, cw), cap);
    var head := Header(PhosphoPlate);
    var last := Layout(PhosphoPlate, PhosphoWells(ids));
    assert PhosphoWritten(pools, ids, cap, cw).1 == [head] + w.1 + [last];
    PhosphoStepsVolume(pools, ids, cap, cw, d);
    Bracketed(head, w.1, last, PhosphoPlate, d);
    Bracketed(head, w.1, last, LcrPlate, d);
    Bracketed(head, w.1, last, DominoPools, d);
  }

  /** The LCR worklist of this protocol brings each reaction well to 25
      and writes to no other plate. */
  lemma PhosphoTailVolume(pools: map<string, Pool>, ids: seq<string>, cap: nat, cw: map<string, Placement>, d: nat)
    requires |ids| <= cap && Written(LcrPlate, PhosphoLcrSteps(pools, ids, cw), cap).0.Ok?
    ensures var tail := [Header(LcrPlate)] + Written(LcrPlate, PhosphoLcrSteps(pools, ids, cw), cap).1;
      Delivered(tail, LcrPlate, d) == (if d < |ids| then 25.0 else 0.0) &&
      Delivered(tail, PhosphoPlate, d) == 0.0 && Delivered(tail, DominoPools, d) == 0.0
  {
    var steps := PhosphoLcrSteps(pools, ids, cw);
    var lcr := Written(LcrPlate, steps, cap);
    PhosphoLcrWithin(pools, ids, cw);
    WrittenDelivered(LcrPlate, steps, cap, d);
    PhosphoLcrVolume(pools, ids, cw, d);
    WrittenPlate(LcrPlate, steps, cap);
    DeliveredNone(lcr.1, PhosphoPlate, d);
    DeliveredNone(lcr.1, DominoPools, d);
    DeliveredNone([Header(LcrPlate)], LcrPlate, d);
    DeliveredNone([Header(LcrPlate)], PhosphoPlate, d);
    DeliveredNone([Header(LcrPlate)], DominoPools, d);
    DeliveredAppend([Header(LcrPlate)], lcr.1, LcrPlate, d);
    DeliveredAppend([Header(LcrPlate)], lcr.1, PhosphoPlate, d);
    DeliveredAppend([Header(LcrPlate)], lcr.1, DominoPools, d);
  }

  /** The two worklists after the domino pools fill the phospho and
      reaction plates and add nothing to the domino pools. */
  lemma AfterDomsVolume(pools: map<string, Pool>, ids: seq<string>, cap: nat, cw2: map<string, Placement>, d: nat)
    requires |ids| <= cap && PhosphoAfterDoms(pools, ids, cap, cw2).result.Ok?
    ensures var log := PhosphoAfterDoms(pools, ids, cap, cw2).log;
      Delivered(log, LcrPlate, d) == (if d < |ids| then 25.0 else 0.0) &&
      Delivered(log, PhosphoPlate, d) == PhosphoTarget(pools, ids, d) &&
      Delivered(log, DominoPools, d) == 0.0
  {
    var ph := PhosphoWritten(pools, ids, cap, cw2);
    var cw3 := cw2 + ph.0.value;
    var tail := [Header(LcrPlate)] + Written(LcrPlate, PhosphoLcrSteps(pools, ids, cw3), cap).1;
    assert PhosphoAfterDoms(pools, ids, cap, cw2).log == ph.1 + tail;
    PhosphoWrittenVolume(pools, ids, cap, cw2, d);
    PhosphoTailVolume(pools, ids, cap, cw3, d);
    DeliveredAppend(ph.1, tail, LcrPlate, d);
    DeliveredAppend(ph.1, tail, PhosphoPlate, d);
    DeliveredAppend(ph.1, tail, DominoPools, d);
  }

  lemma PhosphoFromPoolsVolume(pools: map<string, Pool>, ids: seq<string>, cap: nat, cw1: map<string, Placement>, d: nat)
    requires |pools.Keys| <= |ids| <= cap && PhosphoFromPools(pools, ids, cap, cw1).result.Ok?
    ensures var log := PhosphoFromPools(pools, ids, cap, cw1).log;
      Delivered(log, LcrPlate, d) == (if d < |ids| then 25.0 else 0.0) &&
      Delivered(log, PhosphoPlate, d) == PhosphoTarget(pools, ids, d) &&
      (d < |pools.Keys| ==> Delivered(log, DominoPools, d) == 500.0)
  {
    var dp := Gather(DomPoolBlocks(pools, DominoPools, 1.75, cw1));
    var wells := PoolWells(DominoPoolSuffix, SortIds(pools.Keys), DominoPools, |pools.Keys|);
    var pooled := PooledLog(pools, DominoPools, cap, wells, dp.value);
    var rest := PhosphoAfterDoms(pools, ids, cap, cw1 + wells);
    assert PhosphoFromPools(pools, ids, cap, cw1).log == pooled + rest.log;
    PooledVolume(pools, cw1, cap, wells, d);
    PooledDelivered(pools, DominoPools, cap, wells, dp.value, PhosphoPlate, d);
    AfterDomsVolume(pools, ids, cap, cw1 + wells, d);
    DeliveredAppend(pooled, rest.log, LcrPlate, d);
    DeliveredAppend(pooled, rest.log, PhosphoPlate, d);
    DeliveredAppend(pooled, rest.log, DominoPools, d);
  }

  lemma PhosphoRunLog(fetch: string -> RegistryEntry, ids: seq<string>, cap: nat, cw0: map<string, Placement>)
    ensures PhosphoRun(fetch, ids, cap, cw0).log
         == PhosphoPlates(fetch, ids, cw0).0 + PhosphoFromPools(PoolsOf(fetch, ids), ids, cap, PhosphoPlates(fetch, ids, cw0).1).log
  {
  }

  /** The records of a complete phosphorylation worklist: its header, the
      rows of its three steps, then the layout of the phospho pools. */
  const PhosphoStage: seq<(Record, string)> :=
    [(HeaderRecord, PhosphoPlate)] + RowsTags(PhosphoPlate, 3) + [(LayoutRecord, PhosphoPlate)]

  /** The records of a complete run after the domino pools: the
      phosphorylation worklist, then the LCR header and the rows of its
      four steps. */
  const AfterDomsTail: seq<(Record, string)> := PhosphoStage + [(HeaderRecord, LcrPlate)] + RowsTags(LcrPlate, 4)

  /** The records of a complete run after its plates. */
  const PhosphoTail: seq<(Record, string)> :=
    [(HeaderRecord, DominoPools), (LayoutRecord, DominoPools), (RowsRecord, DominoPools)] + AfterDomsTail

  /** The records of a complete phospho-LCR run. */
  const PhosphoRecords: seq<(Record, string)> := PlateRecords + PhosphoTail

  /** The header, then `|w.1|` of the three rows records, then, when no
      step failed, the pool layout. */
  lemma PhosphoStageOf(w: (Outcome<()>, seq<Output>), wells: map<string, Placement>)
    requires Tags(w.1) == RowsTags(PhosphoPlate, |w.1|) && |w.1| <= 3 && (w.0.Ok? ==> |w.1| == 3)
    ensures PhosphoStage[..1] <= Tags([Header(PhosphoPlate)] + w.1) <= PhosphoStage
    ensures w.0.Ok? ==> Tags([Header(PhosphoPlate)] + w.1 + [Layout(PhosphoPlate, wells)]) == PhosphoStage
  {
    var head := [(HeaderRecord, PhosphoPlate)];
    TagsAppend([Header(PhosphoPlate)], w.1);
    assert Tags([Header(PhosphoPlate)]) == head;
    StepsRecords(Tags([Header(PhosphoPlate)] + w.1), head, PhosphoPlate, |w.1|, 3, [(LayoutRecord, PhosphoPlate)]);
    if w.0.Ok? {
      TagsAppend([Header(PhosphoPlate)] + w.1, [Layout(PhosphoPlate, wells)]);
      assert Tags([Layout(PhosphoPlate, wells)]) == [(LayoutRecord, PhosphoPlate)];
    }
  }

  /** The phosphorylation worklist writes its header, then a prefix of its
      complete records, all of them when it succeeds. */
  lemma PhosphoStageRecords(pools: map<string, Pool>, ids: seq<string>, cap: nat, cw: map<string, Placement>)
    ensures PhosphoStage[..1] <= Tags(PhosphoWritten(pools, ids, cap, cw).1) <= PhosphoStage
    ensures PhosphoWritten(pools, ids, cap, cw).0.Ok? ==> Tags(PhosphoWritten(pools, ids, cap, cw).1) == PhosphoStage
  {
    var steps := PhosphoSteps(pools, ids, cw);
    WrittenTags(PhosphoPlate, steps, cap);
    PhosphoStageOf(Written(PhosphoPlate, steps, cap), PhosphoWells(ids));
  }

  /** The phosphorylation records, the LCR header, then the rows of the LCR
      steps written. */
  lemma AfterDomsOf(ph: seq<Output>, lcr: (Outcome<()>, seq<Output>))
    requires Tags(ph) == PhosphoStage
    requires Tags(lcr.1) == RowsTags(LcrPlate, |lcr.1|) && |lcr.1| <= 4 && (lcr.0.Ok? ==> |lcr.1| == 4)
    ensures AfterDomsTail[..1] <= Tags(ph + ([Header(LcrPlate)] + lcr.1)) <= AfterDomsTail
    ensures lcr.0.Ok? ==> Tags(ph + ([Header(LcrPlate)] + lcr.1)) == AfterDomsTail
  {
    var head := PhosphoStage + [(HeaderRecord, LcrPlate)];
    TagsAppend(ph, [Header(LcrPlate)] + lcr.1);
    TagsAppend([Header(LcrPlate)], lcr.1);
    assert Tags([Header(LcrPlate)]) == [(HeaderRecord, LcrPlate)];
    StepsRecords(Tags(ph + ([Header(LcrPlate)] + lcr.1)), head, LcrPlate, |lcr.1|, 4, []);
    assert head[..1] == AfterDomsTail[..1];
  }

  /** A prefix of the phosphorylation records is a prefix of the records
      after the domino pools. */
  lemma StageWithin(t: seq<(Record, string)>)
    requires PhosphoStage[..1] <= t <= PhosphoStage
    ensures AfterDomsTail[..1] <= t <= AfterDomsTail
  {
    assert AfterDomsTail[..|PhosphoStage|] == PhosphoStage;
    assert AfterDomsTail[..|t|] == PhosphoStage[..|t|];
  }

  lemma AfterDomsRecords(pools: map<string, Pool>, ids: seq<string>, cap: nat, cw2: map<string, Placement>)
    ensures AfterDomsTail[..1] <= Tags(PhosphoAfterDoms(pools, ids, cap, cw2).log) <= AfterDomsTail
    ensures PhosphoAfterDoms(pools, ids, cap, cw2).result.Ok? ==> Tags(PhosphoAfterDoms(pools, ids, cap, cw2).log) == AfterDomsTail
  {
    var ph := PhosphoWritten(pools, ids, cap, cw2);
    PhosphoStageRecords(pools, ids, cap, cw2);
    if ph.0.Missing? {
      StageWithin(Tags(ph.1));
    } else {
      var steps := PhosphoLcrSteps(pools, ids, cw2 + ph.0.value);
      WrittenTags(LcrPlate, steps, cap);
      AfterDomsOf(ph.1, Written(LcrPlate, steps, cap));
    }
  }

  /** The records after the plate layouts: the domino-pool header always,
      then a prefix of the rest of a complete run's records, all of them
      when the run succeeds. */
  lemma PhosphoTailRecords(pools: map<string, Pool>, ids: seq<string>, cap: nat, cw1: map<string, Placement>)
    ensures PhosphoTail[..1] <= Tags(PhosphoFromPools(pools, ids, cap, cw1).log) <= PhosphoTail
    ensures PhosphoFromPools(pools, ids, cap, cw1).result.Ok? ==> Tags(PhosphoFromPools(pools, ids, cap, cw1).log) == PhosphoTail
  {
    var dp := Gather(DomPoolBlocks(pools, DominoPools, 1.75, cw1));
    if dp.Ok? {
      var wells := PoolWells(DominoPoolSuffix, SortIds(pools.Keys), DominoPools, |pools.Keys|);
      var rest := PhosphoAfterDoms(pools, ids, cap, cw1 + wells);
      PooledRecords(pools, DominoPools, cap, wells, dp.value);
      AfterDomsRecords(pools, ids, cap, cw1 + wells);
      AppendRecords(PooledLog(pools, DominoPools, cap, wells, dp.value), rest.log, rest.result.Ok?,
                    [(HeaderRecord, DominoPools), (LayoutRecord, DominoPools), (RowsRecord, DominoPools)], AfterDomsTail);
    } else {
      PhosphoTailMissing();
    }
  }

  lemma PhosphoTailMissing()
    ensures PhosphoTail[..1] <= Tags([Header(DominoPools)]) <= PhosphoTail
  {
    assert Tags([Header(DominoPools)]) == PhosphoTail[..1];
  }

  lemma PhosphoPlatesRecords(fetch: string -> RegistryEntry, ids: seq<string>, cw0: map<string, Placement>)
    ensures Tags(PhosphoPlates(fetch, ids, cw0).0) == PlateRecords
  {
    assert Keyed(PhosphoTroughRows) && Keyed(PhosphoExtraRows);
    PlatesRecords(fetch, ids, PhosphoTroughRows, PhosphoExtraRows, cw0);
  }

  /** Every run writes the plate layouts and the domino-pool header first;
      a run that raises stops part-way through the records of a complete
      run, and a run that succeeds writes all of them. */
  lemma PhosphoRunRecords(fetch: string -> RegistryEntry, ids: seq<string>, cap: nat, cw0: map<string, Placement>)
    ensures PhosphoRecords[..3] <= Tags(PhosphoRun(fetch, ids, cap, cw0).log) <= PhosphoRecords
    ensures PhosphoRun(fetch, ids, cap, cw0).result.Ok? ==> Tags(PhosphoRun(fetch, ids, cap, cw0).log) == PhosphoRecords
  {
    var plates := PhosphoPlates(fetch, ids, cw0);
    var rest := PhosphoFromPools(PoolsOf(fetch, ids), ids, cap, plates.1);
    PhosphoRunLog(fetch, ids, cap, cw0);
    PhosphoTailRecords(PoolsOf(fetch, ids), ids, cap, plates.1);
    PhosphoPlatesRecords(fetch, ids, cw0);
    AppendRecords(plates.0, rest.log, rest.result.Ok?, PlateRecords, PhosphoTail);
  }

  lemma PhosphoPlatesDeliver(fetch: string -> RegistryEntry, ids: seq<string>, cw0: map<string, Placement>,
                             plate: string, d: nat)
    ensures Delivered(PhosphoPlates(fetch, ids, cw0).0, plate, d) == 0.0
  {
    assert Keyed(PhosphoTroughRows) && Keyed(PhosphoExtraRows);
    PlatesDeliver(fetch, ids, PhosphoTroughRows, PhosphoExtraRows, cw0, plate, d);
  }

  /** The plate layouts of a run deliver nothing. */
  lemma PhosphoRunAfterPlates(fetch: string -> RegistryEntry, ids: seq<string>, cap: nat, cw0: map<string, Placement>,
                              plate: string, d: nat)
    ensures Delivered(PhosphoRun(fetch, ids, cap, cw0).log, plate, d)
         == Delivered(PhosphoFromPools(PoolsOf(fetch, ids), ids, cap, PhosphoPlates(fetch, ids, cw0).1).log, plate, d)
  {
    PhosphoRunLog(fetch, ids, cap, cw0);
    PhosphoPlatesDeliver(fetch, ids, cw0, plate, d);
    AfterNothing(PhosphoRun(fetch, ids, cap, cw0).log, PhosphoPlates(fetch, ids, cw0).0,
                 PhosphoFromPools(PoolsOf(fetch, ids), ids, cap, PhosphoPlates(fetch, ids, cw0).1).log, plate, d);
  }

  /** After a successful run the reaction plate holds 25 in the well of
      every assembly, the phospho plate 20 less 0.2 per ORF part, and every
      domino pool 500. */
  lemma PhosphoRunVolume(fetch: string -> RegistryEntry, ids: seq<string>, cap: nat, cw0: map<string, Placement>, d: nat)
    requires |ids| <= cap && PhosphoRun(fetch, ids, cap, cw0).result.Ok?
    ensures var log := PhosphoRun(fetch, ids, cap, cw0).log;
      Delivered(log, LcrPlate, d) == (if d < |ids| then 25.0 else 0.0) &&
      Delivered(log, PhosphoPlate, d) == PhosphoTarget(PoolsOf(fetch, ids), ids, d) &&
      (d < |PoolsOf(fetch, ids).Keys| ==> Delivered(log, DominoPools, d) == 500.0)
  {
    PoolsCount(fetch, ids);
    PhosphoFromPoolsVolume(PoolsOf(fetch, ids), ids, cap, PhosphoPlates(fetch, ids, cw0).1, d);
    PhosphoRunAfterPlates(fetch, ids, cap, cw0, LcrPlate, d);
    PhosphoRunAfterPlates(fetch, ids, cap, cw0, PhosphoPlate, d);
    PhosphoRunAfterPlates(fetch, ids, cap, cw0, DominoPools, d);
  }

  // ---------------------------------------------------------------------
  // Where the plates put things
  // ---------------------------------------------------------------------

  /** The phospho-LCR trough: water in wells 0..n-1, the LCR mastermix in
      well n and the kinase mastermix in well n + 1. */
  lemma PhosphoTrough(n: nat)
    ensures PlacedAt(LayoutOf(Trough, PhosphoTroughRows, n), Water, Replicated(WaterWells(Trough, n, [])))
    ensures PlacedAt(LayoutOf(Trough, PhosphoTroughRows, n), LcrMastermix, Single(Well(n, Trough, [])))
    ensures PlacedAt(LayoutOf(Trough, PhosphoTroughRows, n), PnkMastermix, Single(Well(n + 1, Trough, [])))
  {
    assert PhosphoTroughRows[0][1..] == [] && PhosphoTroughRows[1][1..] == [] && PhosphoTroughRows[2][1..] == [];
    LayoutWaterFirst(Trough, PhosphoTroughRows, n, 0);
    LayoutWaterFirst(Trough, PhosphoTroughRows, n, 1);
    LayoutWaterFirst(Trough, PhosphoTroughRows, n, 2);
  }

  /** The phospho-LCR components plate rows: the order table, then the
      ampligase and the kinase. */
  lemma PhosphoComponentRows(fetch: string -> RegistryEntry, ids: seq<string>)
    requires Avoids(OrderRows(fetch, ids), Water) && Avoids(OrderRows(fetch, ids), Ampligase)
    requires Avoids(OrderRows(fetch, ids), Pnk)
    ensures ComponentRows(OrderRows(fetch, ids), PhosphoExtraRows)
  {
    OrderAscends(fetch, ids);
    PhosphoRowsFit(OrderRows(fetch, ids));
  }

  /** Ascending rows that avoid the names of the extra rows fit beside them. */
  lemma PhosphoRowsFit(rows: seq<seq<string>>)
    requires Keyed(rows) && forall k, l :: 0 <= k < l < |rows| ==> Below(rows[k][0], rows[l][0])
    requires Avoids(rows, Water) && Avoids(rows, Ampligase) && Avoids(rows, Pnk)
    ensures ComponentRows(rows, PhosphoExtraRows)
  {
    assert PhosphoExtraRows[0][0] == Ampligase && PhosphoExtraRows[1][0] == Pnk;
  }

  /** The phospho-LCR plates, components side: order row `i` in components
      well `i`, then the ampligase and the kinase in the two wells after the
      last order row, unless a part id is water, ampligase or the kinase. */
  lemma PhosphoComponentsPlaced(fetch: string -> RegistryEntry, ids: seq<string>, cw0: map<string, Placement>)
    requires Avoids(OrderRows(fetch, ids), Water) && Avoids(OrderRows(fetch, ids), Ampligase)
    requires Avoids(OrderRows(fetch, ids), Pnk)
    ensures RowsPlaced(PhosphoPlates(fetch, ids, cw0).1, OrderRows(fetch, ids), PhosphoExtraRows)
  {
    PhosphoComponentRows(fetch, ids);
    PlatesComponents(fetch, ids, PhosphoTroughRows, PhosphoExtraRows, cw0);
  }

  /** The phosphorylation water falls below zero exactly when an assembly
      has 14 or more backbone and ORF parts. */
  lemma PhosphoWaterNegative(p: Pool)
    ensures WaterVolume(16.0, 1.2, p) < 0.0 <==> |p.backbone| + |p.parts| >= 14
  {
  }
}
