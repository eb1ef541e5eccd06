/** The assembly engine shared by the protocols (lcr_utils/assembly.py): the
    well allocator of a plate layout, the classification of each assembly's
    linked parts into pools, the domino-pool step and the expansion of a
    component-well map into layout lines. */
module Assembly {
  import opened Worklist
  import opened Build
  import Merge

  const Water := "water"
  const LcrMastermix := "lgr-mastermix"
  const Ampligase := "ampligase"

  // ---------------------------------------------------------------------
  // Well allocator (`__get_comp_well`)
  // ---------------------------------------------------------------------

  /** A layout is a list of rows `[key] + extra`; every row has its key. */
  predicate Keyed(cs: seq<seq<string>>)
  {
    forall i :: 0 <= i < |cs| ==> cs[i] != []
  }

  /** Wells a row takes on the plate: one per assembly for water, else one. */
  function Width(c: seq<string>, n: nat): nat
    requires c != []
  {
    if c[0] == Water then n else 1
  }

  /** The value of the well counter when row `i` is reached. */
  function Offset(cs: seq<seq<string>>, i: nat, n: nat): nat
    requires Keyed(cs) && i <= |cs|
  {
    if i == 0 then 0 else Offset(cs, i - 1, n) + Width(cs[i - 1], n)
  }

  /** The water record: wells 0..n-1 of the plate, each with the row's extra
      fields. */
  function WaterWells(plate: string, n: nat, extra: seq<string>): (r: seq<Well>)
    ensures |r| == n && forall k :: 0 <= k < n ==> r[k].idx == k
  {
    seq(n, k requires 0 <= k < n => Well(k, plate, extra))
  }

  /** What row `i` is mapped to: water to wells 0..n-1, anything else to the
      single well at the counter. */
  function PlacementAt(plate: string, cs: seq<seq<string>>, i: nat, n: nat): Placement
    requires Keyed(cs) && i < |cs|
  {
    if cs[i][0] == Water then Replicated(WaterWells(plate, n, cs[i][1..]))
    else Single(Well(Offset(cs, i, n), plate, cs[i][1..]))
  }

  /** The component-well map after the first `j` rows (a later row with the
      same key overwrites an earlier one). */
  function LayoutUpTo(plate: string, cs: seq<seq<string>>, j: nat, n: nat): map<string, Placement>
    requires Keyed(cs) && j <= |cs|
  {
    if j == 0 then map[]
    else LayoutUpTo(plate, cs, j - 1, n)[cs[j - 1][0] := PlacementAt(plate, cs, j - 1, n)]
  }

  function LayoutOf(plate: string, cs: seq<seq<string>>, n: nat): map<string, Placement>
    requires Keyed(cs)
  {
    LayoutUpTo(plate, cs, |cs|, n)
  }

  /** `__get_comp_well` for a run of `n` assemblies. */
  method GetCompWell(plate: string, cs: seq<seq<string>>, n: nat) returns (m: map<string, Placement>)
    requires Keyed(cs)
    ensures m == LayoutOf(plate, cs, n)
  {
    m := map[];
    var wellIdx := 0;
    var i := 0;
    while i < |cs|
      invariant 0 <= i <= |cs|
      invariant m == LayoutUpTo(plate, cs, i, n)
      invariant wellIdx == Offset(cs, i, n)
    {
      var comps := cs[i];
      if comps[0] == Water {
        m := m[comps[0] := Replicated(WaterWells(plate, n, comps[1..]))];
        wellIdx := wellIdx + n;
      } else {
        m := m[comps[0] := Single(Well(wellIdx, plate, comps[1..]))];
        wellIdx := wellIdx + 1;
      }
      i := i + 1;
    }
  }

  /** The map has exactly the rows' keys. */
  lemma {:induction false} LayoutKeys(plate: string, cs: seq<seq<string>>, j: nat, n: nat, key: string)
    requires Keyed(cs) && j <= |cs|
    ensures key in LayoutUpTo(plate, cs, j, n) <==> exists i :: 0 <= i < j && cs[i][0] == key
  {
    if j > 0 {
      LayoutKeys(plate, cs, j - 1, n, key);
    }
  }

  /** A key is mapped to what its last row asks for. */
  lemma {:induction false} LayoutLast(plate: string, cs: seq<seq<string>>, j: nat, n: nat, i: nat)
    requires Keyed(cs) && i < j <= |cs|
    requires forall l :: i < l < j ==> cs[l][0] != cs[i][0]
    ensures cs[i][0] in LayoutUpTo(plate, cs, j, n)
    ensures LayoutUpTo(plate, cs, j, n)[cs[i][0]] == PlacementAt(plate, cs, i, n)
  {
    if i < j - 1 {
      LayoutLast(plate, cs, j - 1, n, i);
    }
  }

  /** Without water the counter hands out 0, 1, 2, ... in row order. */
  lemma {:induction false} OffsetNoWater(cs: seq<seq<string>>, i: nat, n: nat)
    requires Keyed(cs) && i <= |cs|
    requires forall l :: 0 <= l < i ==> cs[l][0] != Water
    ensures Offset(cs, i, n) == i
  {
    if i > 0 {
      OffsetNoWater(cs, i - 1, n);
    }
  }

  /** With water as the first row only, the other rows follow at n, n+1, ... */
  lemma {:induction false} OffsetWaterFirst(cs: seq<seq<string>>, i: nat, n: nat)
    requires Keyed(cs) && 1 <= i <= |cs|
    requires cs[0][0] == Water
    requires forall l :: 1 <= l < i ==> cs[l][0] != Water
    ensures Offset(cs, i, n) == n + i - 1
  {
    if i > 1 {
      OffsetWaterFirst(cs, i - 1, n);
    }
  }

  /** Rows with distinct keys and no water: row `i` gets well `i`. */
  lemma LayoutNoWater(plate: string, cs: seq<seq<string>>, n: nat, i: nat)
    requires Keyed(cs) && i < |cs|
    requires forall l :: 0 <= l < |cs| ==> cs[l][0] != Water
    requires forall l :: i < l < |cs| ==> cs[l][0] != cs[i][0]
    ensures cs[i][0] in LayoutOf(plate, cs, n)
    ensures LayoutOf(plate, cs, n)[cs[i][0]] == Single(Well(i, plate, cs[i][1..]))
  {
    LayoutLast(plate, cs, |cs|, n, i);
    OffsetNoWater(cs, i, n);
  }

  /** Water first (and only there), distinct keys: water occupies wells
      0..n-1 and row `i >= 1` gets well n + i - 1. */
  lemma LayoutWaterFirst(plate: string, cs: seq<seq<string>>, n: nat, i: nat)
    requires Keyed(cs) && i < |cs|
    requires cs[0][0] == Water
    requires forall l :: 1 <= l < |cs| ==> cs[l][0] != Water
    requires forall l :: i < l < |cs| ==> cs[l][0] != cs[i][0]
    ensures cs[i][0] in LayoutOf(plate, cs, n)
    ensures i == 0 ==> LayoutOf(plate, cs, n)[Water] == Replicated(WaterWells(plate, n, cs[0][1..]))
    ensures i > 0 ==> LayoutOf(plate, cs, n)[cs[i][0]] == Single(Well(n + i - 1, plate, cs[i][1..]))
  {
    LayoutLast(plate, cs, |cs|, n, i);
    if i > 0 {
      OffsetWaterFirst(cs, i, n);
    }
  }

  // ---------------------------------------------------------------------
  // Classifier (`_get_pools`)
  // ---------------------------------------------------------------------

  datatype Kind = Orf | Domino | Backbone

  /** ORF parts and dominoes by their `Type` parameter; anything else is
      taken to be a backbone. */
  function KindOf(d: PartData): Kind
  {
    if d.typeParam == "ORF" then Orf
    else if d.typeParam == "DOMINO" then Domino
    else Backbone
  }

  /** The three lists of one assembly's pool. */
  datatype Pool = Pool(parts: seq<PartData>, dominoes: seq<PartData>, backbone: seq<PartData>)

  const EmptyPool := Pool([], [], [])

  /** Appending one linked part to the list of its kind. */
  function AddPart(p: Pool, d: PartData): Pool
  {
    match KindOf(d)
    case Orf => p.(parts := p.parts + [d])
    case Domino => p.(dominoes := p.dominoes + [d])
    case Backbone => p.(backbone := p.backbone + [d])
  }

  /** The pool built from the linked parts `ds`, in their order. */
  function Classify(ds: seq<PartData>): Pool
  {
    if ds == [] then EmptyPool else AddPart(Classify(ds[..|ds| - 1]), ds[|ds| - 1])
  }

  /** The parts of `ds` of kind `k`, in their order. */
  function OfKind(ds: seq<PartData>, k: Kind): seq<PartData>
  {
    if ds == [] then []
    else OfKind(ds[..|ds| - 1], k) + if KindOf(ds[|ds| - 1]) == k then [ds[|ds| - 1]] else []
  }

  /** A list of kind `k` holds only parts of `ds` of that kind. */
  lemma {:induction false} OfKindSound(ds: seq<PartData>, k: Kind)
    ensures forall d :: d in OfKind(ds, k) ==> d in ds && KindOf(d) == k
  {
    if ds != [] {
      var init := ds[..|ds| - 1];
      OfKindSound(init, k);
      assert forall d :: d in init ==> d in ds;
    }
  }

  /** Each list of the pool is the subsequence of `ds` of its kind. */
  lemma {:induction false} ClassifyKinds(ds: seq<PartData>)
    ensures Classify(ds) == Pool(OfKind(ds, Orf), OfKind(ds, Domino), OfKind(ds, Backbone))
  {
    if ds != [] {
      ClassifyKinds(ds[..|ds| - 1]);
    }
  }

  /** Every linked part lands in exactly one list: the three lists together
      are a permutation of `ds`. */
  lemma {:induction false} KindsPartition(ds: seq<PartData>)
    ensures multiset(OfKind(ds, Orf)) + multiset(OfKind(ds, Domino)) + multiset(OfKind(ds, Backbone))
            == multiset(ds)
  {
    if ds != [] {
      var init, last := ds[..|ds| - 1], ds[|ds| - 1];
      var o, d, b := multiset(OfKind(init, Orf)), multiset(OfKind(init, Domino)), multiset(OfKind(init, Backbone));
      var o', d', b' := multiset(OfKind(ds, Orf)), multiset(OfKind(ds, Domino)), multiset(OfKind(ds, Backbone));
      assert o + d + b == multiset(init) by {
        KindsPartition(init);
      }
      assert o' + d' + b' == multiset(init) + multiset{last} by {
        OfKindStep(ds, Orf);
        OfKindStep(ds, Domino);
        OfKindStep(ds, Backbone);
        AddToOne(o, d, b, multiset(init), last);
        match KindOf(last)
        case Orf =>
          assert o' == o + multiset{last} && d' == d && b' == b;
        case Domino =>
          assert o' == o && d' == d + multiset{last} && b' == b;
        case Backbone =>
          assert o' == o && d' == d && b' == b + multiset{last};
      }
      assert multiset(ds) == multiset(init) + multiset{last} by {
        assert ds == init + [last];
      }
    }
  }

  /** Adding one element to one of three parts of a multiset. */
  lemma AddToOne<T>(x: multiset<T>, y: multiset<T>, z: multiset<T>, s: multiset<T>, e: T)
    requires x + y + z == s
    ensures (x + multiset{e}) + y + z == s + multiset{e}
    ensures x + (y + multiset{e}) + z == s + multiset{e}
    ensures x + y + (z + multiset{e}) == s + multiset{e}
  {
  }

  /** Appending a part adds it to the list of its own kind only. */
  lemma OfKindStep(ds: seq<PartData>, k: Kind)
    requires ds != []
    ensures multiset(OfKind(ds, k)) == multiset(OfKind(ds[..|ds| - 1], k)) +
              if KindOf(ds[|ds| - 1]) == k then multiset{ds[|ds| - 1]} else multiset{}
  {
  }

  /** Pools of two visits of the same assembly are concatenated list-wise. */
  function Join(a: Pool, b: Pool): Pool
  {
    Pool(a.parts + b.parts, a.dominoes + b.dominoes, a.backbone + b.backbone)
  }

  lemma JoinAddPart(a: Pool, b: Pool, d: PartData)
    ensures Join(a, AddPart(b, d)) == AddPart(Join(a, b), d)
  {
    match KindOf(d)
    case Orf => assert a.parts + (b.parts + [d]) == (a.parts + b.parts) + [d];
    case Domino => assert a.dominoes + (b.dominoes + [d]) == (a.dominoes + b.dominoes) + [d];
    case Backbone => assert a.backbone + (b.backbone + [d]) == (a.backbone + b.backbone) + [d];
  }

  /** `pools[ice_id]` of a defaultdict: absent keys read as an empty pool. */
  function PoolOf(pools: map<string, Pool>, id: string): Pool
  {
    if id in pools then pools[id] else EmptyPool
  }

  /** The cached data of an assembly's linked parts. */
  function LinkedData(fetch: string -> RegistryEntry, id: string): seq<PartData>
  {
    seq(|fetch(id).linkedParts|, j requires 0 <= j < |fetch(id).linkedParts| =>
      MakeData(fetch(fetch(id).linkedParts[j])))
  }

  /** The pools after visiting the assemblies `ids` in order. An assembly gets
      a key only once it has a linked part; a repeated id adds to its pool. */
  function PoolsOf(fetch: string -> RegistryEntry, ids: seq<string>): map<string, Pool>
  {
    if ids == [] then map[]
    else Visit(PoolsOf(fetch, ids[..|ids| - 1]), ids[|ids| - 1], LinkedData(fetch, ids[|ids| - 1]))
  }

  /** One assembly's visit: its linked parts `ds` are appended to its pool,
      which comes into existence with the first part. */
  function Visit(pools: map<string, Pool>, id: string, ds: seq<PartData>): map<string, Pool>
  {
    if ds == [] then pools else pools[id := Join(PoolOf(pools, id), Classify(ds))]
  }

  /** Only assemblies of the run, and only those with a linked part, have a
      pool. */
  lemma {:induction false} PoolsKeys(fetch: string -> RegistryEntry, ids: seq<string>, id: string)
    ensures id in PoolsOf(fetch, ids) <==> exists i :: 0 <= i < |ids| && ids[i] == id && fetch(id).linkedParts != []
  {
    if ids != [] {
      var init := ids[..|ids| - 1];
      PoolsKeys(fetch, init, id);
      assert forall i :: 0 <= i < |init| ==> init[i] == ids[i];
      assert |LinkedData(fetch, ids[|ids| - 1])| == |fetch(ids[|ids| - 1]).linkedParts|;
    }
  }

  lemma VisitOther(pools: map<string, Pool>, id: string, ds: seq<PartData>, other: string)
    requires other != id
    ensures PoolOf(Visit(pools, id, ds), other) == PoolOf(pools, other)
  {
  }

  lemma VisitFresh(pools: map<string, Pool>, id: string, ds: seq<PartData>)
    requires id !in pools
    ensures PoolOf(Visit(pools, id, ds), id) == Classify(ds)
  {
    if ds != [] {
      assert Join(EmptyPool, Classify(ds)) == Classify(ds);
    }
  }

  lemma DistinctInit(ids: seq<string>, init: seq<string>)
    requires |ids| > 0 && init == ids[..|ids| - 1]
    requires forall k, l :: 0 <= k < l < |ids| ==> ids[k] != ids[l]
    ensures forall k, l :: 0 <= k < l < |init| ==> init[k] != init[l]
    ensures forall k :: 0 <= k < |init| ==> init[k] != ids[|ids| - 1]
  {
    assert forall k :: 0 <= k < |init| ==> init[k] == ids[k];
  }

  /** With no repeated ids, an assembly's pool is the classification of its
      own linked parts. */
  lemma {:induction false} PoolsDistinct(fetch: string -> RegistryEntry, ids: seq<string>, i: nat)
    requires i < |ids|
    requires forall k, l :: 0 <= k < l < |ids| ==> ids[k] != ids[l]
    ensures PoolOf(PoolsOf(fetch, ids), ids[i]) == Classify(LinkedData(fetch, ids[i]))
  {
    var n := |ids| - 1;
    var init := ids[..n];
    var id := ids[n];
    var ds := LinkedData(fetch, id);
    assert PoolsOf(fetch, ids) == Visit(PoolsOf(fetch, init), id, ds);
    DistinctInit(ids, init);
    if i < n {
      PoolsDistinct(fetch, init, i);
      assert init[i] == ids[i];
      VisitOther(PoolsOf(fetch, init), id, ds, ids[i]);
    } else {
      PoolsKeys(fetch, init, id);
      VisitFresh(PoolsOf(fetch, init), id, ds);
    }
  }

  // ---------------------------------------------------------------------
  // Lookups in the component-well map
  // ---------------------------------------------------------------------

  /** `comp_well['water'][k]`: the k-th water well, or the key whose lookup
      raises. */
  function WaterWell(cw: map<string, Placement>, k: nat): Outcome<Well>
  {
    if Water in cw && cw[Water].Replicated? && k < |cw[Water].wells| then Ok(cw[Water].wells[k])
    else Missing(Water)
  }

  /** `comp_well[key]` for a component that sits in one well. */
  function SingleWell(cw: map<string, Placement>, key: string): Outcome<Well>
  {
    if key in cw && cw[key].Single? then Ok(cw[key].well) else Missing(key)
  }

  /** The entry drawing `vol` of the part `d` into position `k`: component
      name, description and part id come from the part's cached data. */
  function PartEntry(cw: map<string, Placement>, dest: string, k: nat, vol: real, d: PartData, plasmid: string)
    : (r: Outcome<Entry>)
    ensures r.Ok? ==> r.value.destIdx == k && r.value.vol == vol
  {
    match SingleWell(cw, d.partId)
    case Missing(key) => Missing(key)
    case Ok(w) => Ok(Entry(dest, k, w.plate, w.idx, vol, d.name, d.description, d.partId, plasmid))
  }

  /** The lookups of a list of parts, in order. */
  function PartDraws(cw: map<string, Placement>, dest: string, k: nat, vol: real, ds: seq<PartData>, plasmid: string)
    : (r: seq<Outcome<Entry>>)
    ensures |r| == |ds|
    ensures forall j :: 0 <= j < |ds| ==> r[j] == PartEntry(cw, dest, k, vol, ds[j], plasmid)
  {
    seq(|ds|, j requires 0 <= j < |ds| => PartEntry(cw, dest, k, vol, ds[j], plasmid))
  }

  /** A block of part entries has position `k` and volume `vol` throughout. */
  lemma DrawsShape(cw: map<string, Placement>, dest: string, k: nat, vol: real, ds: seq<PartData>, plasmid: string)
    requires Collect(PartDraws(cw, dest, k, vol, ds, plasmid)).Ok?
    ensures var v := Collect(PartDraws(cw, dest, k, vol, ds, plasmid)).value;
      |v| == |ds| && AllTo(v, k) && SumVol(v) == Scaled(|ds|, vol)
  {
    var v := Collect(PartDraws(cw, dest, k, vol, ds, plasmid)).value;
    assert forall i :: 0 <= i < |v| ==> v[i].destIdx == k && v[i].vol == vol;
    SumVolConst(v, vol);
  }

  /** The loop over a list of parts (`for domino in ...`, `for comp in
      ...`): the entries in order, or the first part id that is missing. */
  method DrawParts(cw: map<string, Placement>, dest: string, k: nat, vol: real, ds: seq<PartData>, plasmid: string)
    returns (b: Outcome<seq<Entry>>)
    ensures b == Collect(PartDraws(cw, dest, k, vol, ds, plasmid))
  {
    ghost var os := PartDraws(cw, dest, k, vol, ds, plasmid);
    var block: seq<Entry> := [];
    var j := 0;
    while j < |ds|
      invariant 0 <= j <= |ds|
      invariant Collect(os[..j]) == Ok(block)
    {
      var e := PartEntry(cw, dest, k, vol, ds[j], plasmid);
      CollectStep(os, j);
      if e.Missing? {
        CollectAbort(os, j + 1);
        return Missing(e.key);
      }
      block := block + [e.value];
      j := j + 1;
    }
    assert os[..j] == os;
    b := Ok(block);
  }

  // ---------------------------------------------------------------------
  // Domino pools (`_write_dom_pool_worklist`)
  // ---------------------------------------------------------------------

  const DominoPoolSuffix := "_domino_pool"

  /** Pool `k` (the k-th assembly in id order): water up to 500, then `vol`
      of each domino. */
  function DomPoolBlock(pools: map<string, Pool>, ids: seq<string>, dest: string, vol: real,
                        cw: map<string, Placement>, k: nat): Outcome<seq<Entry>>
    requires k < |ids|
  {
    var doms := PoolOf(pools, ids[k]).dominoes;
    var water := WaterWell(cw, k);
    var rest := Collect(PartDraws(cw, dest, k, vol, doms, ids[k]));
    if water.Missing? then Missing(water.key)
    else if rest.Missing? then rest
    else
      var w := water.value;
      Ok([Entry(dest, k, w.plate, w.idx, 500.0 - |doms| as real * vol, Water, Water, "", ids[k])] + rest.value)
  }

  /** The blocks of the pools `ids`, one per position. */
  function DomPoolBlocksOf(pools: map<string, Pool>, ids: seq<string>, dest: string, vol: real,
                           cw: map<string, Placement>): (r: seq<Outcome<seq<Entry>>>)
    ensures |r| == |ids|
    ensures forall k :: 0 <= k < |r| ==> r[k] == DomPoolBlock(pools, ids, dest, vol, cw, k)
  {
    seq(|ids|, k requires 0 <= k < |ids| => DomPoolBlock(pools, ids, dest, vol, cw, k))
  }

  /** The pools are visited in sorted id order. */
  function DomPoolBlocks(pools: map<string, Pool>, dest: string, vol: real, cw: map<string, Placement>)
    : (r: seq<Outcome<seq<Entry>>>)
    ensures |r| == |pools.Keys|
    ensures forall k :: 0 <= k < |r| ==> r[k] == DomPoolBlock(pools, SortIds(pools.Keys), dest, vol, cw, k)
  {
    DomPoolBlocksOf(pools, SortIds(pools.Keys), dest, vol, cw)
  }

  /** The synthetic wells registered for the first `k` pools: pool `i` is
      well `i` of plate `dest`, keyed by its id and `suffix`. */
  function PoolWells(suffix: string, ids: seq<string>, dest: string, k: nat): map<string, Placement>
    requires k <= |ids|
  {
    if k == 0 then map[]
    else PoolWells(suffix, ids, dest, k - 1)[ids[k - 1] + suffix := Single(Well(k - 1, dest, []))]
  }

  /** A pool's block fills position `k` and holds 500 in all. */
  lemma DomPoolBlockVolume(pools: map<string, Pool>, ids: seq<string>, dest: string, vol: real,
                           cw: map<string, Placement>, k: nat)
    requires k < |ids| && DomPoolBlock(pools, ids, dest, vol, cw, k).Ok?
    ensures AllTo(DomPoolBlock(pools, ids, dest, vol, cw, k).value, k)
    ensures SumVol(DomPoolBlock(pools, ids, dest, vol, cw, k).value) == 500.0
  {
    var doms := PoolOf(pools, ids[k]).dominoes;
    var w := WaterWell(cw, k).value;
    var rest := Collect(PartDraws(cw, dest, k, vol, doms, ids[k]));
    DrawsShape(cw, dest, k, vol, doms, ids[k]);
    DomPoolBlockValue(pools, ids, dest, vol, cw, k, w, rest.value);
    var v := DomPoolBlock(pools, ids, dest, vol, cw, k).value;
    FillTo(v[0], rest.value, |doms|, vol, 500.0);
    assert v == [v[0]] + rest.value;
  }

  /** A first entry of `total` less `n` draws, followed by those `n` draws,
      holds `total`. */
  lemma FillTo(head: Entry, rest: seq<Entry>, n: nat, v: real, total: real)
    requires head.vol == total - n as real * v && SumVol(rest) == Scaled(n, v)
    ensures SumVol([head] + rest) == total
  {
    ScaledProduct(n, v);
    assert ([head] + rest)[1..] == rest;
  }

  /** A block whose lookups all succeed: the water entry, then the domino
      entries. */
  /** A pool block succeeds exactly when water well `k` and a single well for
      every domino of the pool exist. It then draws the water from water well
      `k`, topping the well up to 500, and each domino, in pool order, at `vol`
      from that domino's own well, all into destination well `k`. */
  lemma DomPoolSources(pools: map<string, Pool>, ids: seq<string>, dest: string, vol: real,
                       cw: map<string, Placement>, k: nat)
    requires k < |ids|
    ensures var doms := PoolOf(pools, ids[k]).dominoes;
            DomPoolBlock(pools, ids, dest, vol, cw, k).Ok? <==>
              WaterWell(cw, k).Ok? && forall j :: 0 <= j < |doms| ==> doms[j].partId in cw && cw[doms[j].partId].Single?
    ensures var doms := PoolOf(pools, ids[k]).dominoes;
            var b := DomPoolBlock(pools, ids, dest, vol, cw, k);
            b.Ok? ==>
              && |b.value| == |doms| + 1
              && b.value[0] == Entry(dest, k, cw[Water].wells[k].plate, cw[Water].wells[k].idx,
                                     500.0 - |doms| as real * vol, Water, Water, "", ids[k])
              && forall j :: 0 <= j < |doms| ==>
                   b.value[j + 1] == Entry(dest, k, cw[doms[j].partId].well.plate, cw[doms[j].partId].well.idx,
                                           vol, doms[j].name, doms[j].description, doms[j].partId, ids[k])
  {
    var doms := PoolOf(pools, ids[k]).dominoes;
    var draws := PartDraws(cw, dest, k, vol, doms, ids[k]);
    var rest := Collect(draws);
    assert rest.Ok? <==> forall j :: 0 <= j < |doms| ==> doms[j].partId in cw && cw[doms[j].partId].Single? by {
      forall j | 0 <= j < |doms|
        ensures draws[j].Ok? <==> doms[j].partId in cw && cw[doms[j].partId].Single?
      {
        assert draws[j] == PartEntry(cw, dest, k, vol, doms[j], ids[k]);
      }
    }
    if WaterWell(cw, k).Ok? && rest.Ok? {
      var w := WaterWell(cw, k).value;
      DomPoolBlockValue(pools, ids, dest, vol, cw, k, w, rest.value);
      forall j | 0 <= j < |doms|
        ensures rest.value[j] == Entry(dest, k, cw[doms[j].partId].well.plate, cw[doms[j].partId].well.idx,
                                       vol, doms[j].name, doms[j].description, doms[j].partId, ids[k])
      {
        assert draws[j] == PartEntry(cw, dest, k, vol, doms[j], ids[k]);
      }
    }
  }

  lemma DomPoolBlockValue(pools: map<string, Pool>, ids: seq<string>, dest: string, vol: real,
                          cw: map<string, Placement>, k: nat, w: Well, rest: seq<Entry>)
    requires k < |ids| && WaterWell(cw, k) == Ok(w)
    requires Collect(PartDraws(cw, dest, k, vol, PoolOf(pools, ids[k]).dominoes, ids[k])) == Ok(rest)
    ensures DomPoolBlock(pools, ids, dest, vol, cw, k)
            == Ok([Entry(dest, k, w.plate, w.idx, 500.0 - |PoolOf(pools, ids[k]).dominoes| as real * vol,
                         Water, Water, "", ids[k])] + rest)
  {
    assert WaterWell(cw, k).value == w;
  }

  /** Every pool holds 500 once its water and dominoes are in. */
  lemma DomPoolVolume(pools: map<string, Pool>, dest: string, vol: real, cw: map<string, Placement>, k: nat)
    requires Gather(DomPoolBlocks(pools, dest, vol, cw)).Ok?
    ensures BlocksByPosition(DomPoolBlocks(pools, dest, vol, cw))
    ensures k < |pools.Keys| ==> VolumeAt(Gather(DomPoolBlocks(pools, dest, vol, cw)).value, k) == 500.0
  {
    var ids := SortIds(pools.Keys);
    var bs := DomPoolBlocks(pools, dest, vol, cw);
    forall i | 0 <= i < |bs| && bs[i].Ok?
      ensures AllTo(bs[i].value, i) && SumVol(bs[i].value) == 500.0
    {
      DomPoolBlockVolume(pools, ids, dest, vol, cw, i);
    }
    if k < |pools.Keys| {
      GatherVolumeAt(bs, k);
    }
  }

  lemma SuffixInjective(a: string, b: string, t: string)
    requires a + t == b + t
    ensures a == b
  {
    assert |a| == |b|;
    assert a == (a + t)[..|a|];
    assert b == (b + t)[..|b|];
  }

  /** With distinct ids, pool `i` is registered at well `i` of the pool plate,
      and nothing else is registered. */
  lemma {:induction false} PoolWellsAt(suffix: string, ids: seq<string>, dest: string, k: nat, i: nat)
    requires k <= |ids| && i < k
    requires forall a, b :: 0 <= a < b < |ids| ==> ids[a] != ids[b]
    ensures ids[i] + suffix in PoolWells(suffix, ids, dest, k)
    ensures PoolWells(suffix, ids, dest, k)[ids[i] + suffix] == Single(Well(i, dest, []))
  {
    if i < k - 1 {
      PoolWellsAt(suffix, ids, dest, k - 1, i);
      if ids[k - 1] + suffix == ids[i] + suffix {
        SuffixInjective(ids[k - 1], ids[i], suffix);
      }
    }
  }

  /** Whatever the ids, pool `i` is registered at some well `j` of the pool
      plate whose id is the same: the last registration of an id wins. */
  lemma {:induction false} PoolWellsFind(suffix: string, ids: seq<string>, dest: string, k: nat, i: nat)
    returns (j: nat)
    requires k <= |ids| && i < k
    ensures j < k && ids[j] == ids[i]
    ensures ids[i] + suffix in PoolWells(suffix, ids, dest, k)
    ensures PoolWells(suffix, ids, dest, k)[ids[i] + suffix] == Single(Well(j, dest, []))
  {
    if ids[k - 1] + suffix == ids[i] + suffix {
      SuffixInjective(ids[k - 1], ids[i], suffix);
      j := k - 1;
    } else {
      j := PoolWellsFind(suffix, ids, dest, k - 1, i);
    }
  }

  lemma {:induction false} PoolWellsKeys(suffix: string, ids: seq<string>, dest: string, k: nat, key: string)
    requires k <= |ids|
    ensures key in PoolWells(suffix, ids, dest, k) <==> exists i :: 0 <= i < k && key == ids[i] + suffix
  {
    if k > 0 {
      PoolWellsKeys(suffix, ids, dest, k - 1, key);
    }
  }

  /** The pool of the i-th key in sorted order is well i of the pool plate. */
  lemma SortedPoolWell(suffix: string, keys: set<string>, dest: string, i: nat)
    requires i < |keys|
    ensures SortIds(keys)[i] + suffix in PoolWells(suffix, SortIds(keys), dest, |keys|)
    ensures PoolWells(suffix, SortIds(keys), dest, |keys|)[SortIds(keys)[i] + suffix] == Single(Well(i, dest, []))
  {
    var ids := SortIds(keys);
    forall a, b | 0 <= a < b < |ids| ensures ids[a] != ids[b] {
      if ids[a] == ids[b] {
        BelowIrreflexive(ids[a]);
      }
    }
    PoolWellsAt(suffix, ids, dest, |keys|, i);
  }

  /** A pool well is registered for every key and for nothing else. */
  lemma SortedPoolKeys(suffix: string, keys: set<string>, dest: string, id: string)
    ensures id + suffix in PoolWells(suffix, SortIds(keys), dest, |keys|) <==> id in keys
  {
    var ids := SortIds(keys);
    PoolWellsKeys(suffix, ids, dest, |keys|, id + suffix);
    if id + suffix in PoolWells(suffix, ids, dest, |keys|) {
      var i :| 0 <= i < |keys| && id + suffix == ids[i] + suffix;
      SuffixInjective(id, ids[i], suffix);
      assert ids[i] in ids;
    }
    if id in keys {
      assert id in ids;
      var i :| 0 <= i < |ids| && ids[i] == id;
    }
  }

  /** One pass of the loop of `_write_dom_pool_worklist`: the water entry
      of pool `k`, then its dominoes. */
  method DomPoolBlockOf(pools: map<string, Pool>, ids: seq<string>, dest: string, vol: real,
                        cw: map<string, Placement>, k: nat) returns (b: Outcome<seq<Entry>>)
    requires k < |ids|
    ensures b == DomPoolBlock(pools, ids, dest, vol, cw, k)
  {
    var id := ids[k];
    var doms := PoolOf(pools, id).dominoes;
    var water := WaterWell(cw, k);
    if water.Missing? {
      return Missing(water.key);
    }
    var well := water.value;
    var rest := DrawParts(cw, dest, k, vol, doms, id);
    if rest.Missing? {
      return rest;
    }
    DomPoolBlockValue(pools, ids, dest, vol, cw, k, well, rest.value);
    var first := Entry(dest, k, well.plate, well.idx, 500.0 - |doms| as real * vol, Water, Water, "", id);
    assert first == Entry(dest, k, well.plate, well.idx, 500.0 - |PoolOf(pools, ids[k]).dominoes| as real * vol,
                         Water, Water, "", ids[k]);
    b := Ok([first] + rest.value);
  }

  /** The loop of `_write_dom_pool_worklist` over the pools `ids`: the
      step's worklist and the synthetic wells, one per pool. */
  method DomPoolLoop(pools: map<string, Pool>, ids: seq<string>, dest: string, vol: real,
                     cw: map<string, Placement>)
    returns (r: Outcome<seq<Entry>>, wells: map<string, Placement>)
    ensures r == Gather(DomPoolBlocksOf(pools, ids, dest, vol, cw))
    ensures r.Ok? ==> wells == PoolWells(DominoPoolSuffix, ids, dest, |ids|)
  {
    ghost var bs := DomPoolBlocksOf(pools, ids, dest, vol, cw);
    var worklist: seq<Entry> := [];
    wells := map[];
    var k := 0;
    while k < |ids|
      invariant 0 <= k <= |ids|
      invariant Gather(bs[..k]) == Ok(worklist)
      invariant wells == PoolWells(DominoPoolSuffix, ids, dest, k)
    {
      var b := DomPoolBlockOf(pools, ids, dest, vol, cw, k);
      GatherNext(bs, k, worklist, b);
      if b.Missing? {
        return b, wells;
      }
      worklist := worklist + b.value;
      wells := wells[ids[k] + DominoPoolSuffix := Single(Well(k, dest, []))];
      k := k + 1;
    }
    assert bs[..k] == bs;
    r := Ok(worklist);
  }

  /** `_write_dom_pool_worklist` without its file output: the pools are
      visited in sorted id order. */
  method DomPoolWorklist(pools: map<string, Pool>, dest: string, vol: real, cw: map<string, Placement>)
    returns (r: Outcome<seq<Entry>>, wells: map<string, Placement>)
    ensures r == Gather(DomPoolBlocks(pools, dest, vol, cw))
    ensures r.Ok? ==> wells == PoolWells(DominoPoolSuffix, SortIds(pools.Keys), dest, |pools.Keys|)
  {
    r, wells := DomPoolLoop(pools, SortIds(pools.Keys), dest, vol, cw);
  }

  // ---------------------------------------------------------------------
  // Layout lines (`_write_comp_wells`)
  // ---------------------------------------------------------------------

  /** One line of a plate layout: well index, component and extra fields. */
  datatype Line = Line(idx: nat, comp: string, extra: seq<string>)

  /** The wells of a placement, in order. */
  function WellsOf(p: Placement): (r: seq<Well>)
    ensures |r| == if p.Single? then 1 else |p.wells|
  {
    match p
    case Single(w) => [w]
    case Replicated(ws) => ws
  }

  /** The line written for component `comp` in well `w`. */
  function WellLine(comp: string, w: Well): (r: Line)
    ensures r.idx == w.idx && r.comp == comp && r.extra == w.extra
  {
    Line(w.idx, comp, w.extra)
  }

  /** The lines of one map entry: one per well. */
  function LinesOf(key: string, p: Placement): (r: seq<Line>)
    ensures |r| == |WellsOf(p)|
    ensures forall k :: 0 <= k < |r| ==> r[k] == WellLine(key, WellsOf(p)[k])
  {
    match p
    case Single(w) => [Line(w.idx, key, w.extra)]
    case Replicated(ws) => seq(|ws|, i requires 0 <= i < |ws| => Line(ws[i].idx, key, ws[i].extra))
  }

  /** The lines of the map entries `items`, in their order. */
  function Expansion(items: seq<(string, Placement)>): seq<Line>
  {
    if items == [] then []
    else Expansion(items[..|items| - 1]) + LinesOf(items[|items| - 1].0, items[|items| - 1].1)
  }

  /** Number of wells a list of map entries occupies. */
  function WellCount(items: seq<(string, Placement)>): nat
  {
    if items == [] then 0
    else WellCount(items[..|items| - 1]) + if items[|items| - 1].1.Single? then 1 else |items[|items| - 1].1.wells|
  }

  lemma {:induction false} ExpansionCount(items: seq<(string, Placement)>)
    ensures |Expansion(items)| == WellCount(items)
  {
    if items != [] {
      ExpansionCount(items[..|items| - 1]);
    }
  }

  lemma {:induction false} ExpansionCovers(items: seq<(string, Placement)>)
    ensures forall i, k :: 0 <= i < |items| && 0 <= k < |WellsOf(items[i].1)| ==>
              WellLine(items[i].0, WellsOf(items[i].1)[k]) in Expansion(items)
  {
    if items != [] {
      var init := items[..|items| - 1];
      var last := items[|items| - 1];
      ExpansionCovers(init);
      assert Expansion(items) == Expansion(init) + LinesOf(last.0, last.1);
      forall i, k | 0 <= i < |items| && 0 <= k < |WellsOf(items[i].1)|
        ensures WellLine(items[i].0, WellsOf(items[i].1)[k]) in Expansion(items)
      {
        if i < |init| {
          assert items[i] == init[i];
        } else {
          assert LinesOf(last.0, last.1)[k] == WellLine(items[i].0, WellsOf(items[i].1)[k]);
        }
      }
    }
  }

  lemma {:induction false} ExpansionOnly(items: seq<(string, Placement)>)
    ensures forall l :: l in Expansion(items) ==>
              exists i, k :: 0 <= i < |items| && 0 <= k < |WellsOf(items[i].1)| &&
                             l == WellLine(items[i].0, WellsOf(items[i].1)[k])
  {
    if items != [] {
      var init := items[..|items| - 1];
      var last := items[|items| - 1];
      ExpansionOnly(init);
      assert Expansion(items) == Expansion(init) + LinesOf(last.0, last.1);
      forall l | l in Expansion(items)
        ensures exists i, k :: 0 <= i < |items| && 0 <= k < |WellsOf(items[i].1)| &&
                               l == WellLine(items[i].0, WellsOf(items[i].1)[k])
      {
        if l in Expansion(init) {
          var i, k :| 0 <= i < |init| && 0 <= k < |WellsOf(init[i].1)| && l == WellLine(init[i].0, WellsOf(init[i].1)[k]);
          assert items[i] == init[i];
        } else {
          var k :| 0 <= k < |LinesOf(last.0, last.1)| && LinesOf(last.0, last.1)[k] == l;
          assert items[|items| - 1] == last;
        }
      }
    }
  }

  /** The expansion writes one line per well: every well of every entry gets
      a line carrying its index, its component and its extras, and every
      line is such a line. */
  lemma ExpansionFacts(items: seq<(string, Placement)>)
    ensures |Expansion(items)| == WellCount(items)
    ensures forall i, k :: 0 <= i < |items| && 0 <= k < |WellsOf(items[i].1)| ==>
              WellLine(items[i].0, WellsOf(items[i].1)[k]) in Expansion(items)
    ensures forall l :: l in Expansion(items) ==>
              exists i, k :: 0 <= i < |items| && 0 <= k < |WellsOf(items[i].1)| &&
                             l == WellLine(items[i].0, WellsOf(items[i].1)[k])
  {
    ExpansionCount(items);
    ExpansionCovers(items);
    ExpansionOnly(items);
  }

  /** `items` lists the entries of the map `m`, as `iteritems` does: each
      entry once, every key of `m` present. */
  ghost predicate ListsEntries(items: seq<(string, Placement)>, m: map<string, Placement>)
  {
    && (forall i :: 0 <= i < |items| ==> items[i].0 in m && items[i].1 == m[items[i].0])
    && (forall key :: key in m ==> exists i :: 0 <= i < |items| && items[i].0 == key)
    && (forall i, j :: 0 <= i < j < |items| ==> items[i].0 != items[j].0)
  }

  /** Whatever order the entries of a component-well map are taken in, the
      lines written are exactly one per well of each component, carrying
      that well's index and extras. */
  lemma MapExpansion(items: seq<(string, Placement)>, m: map<string, Placement>)
    requires ListsEntries(items, m)
    ensures forall key, k :: key in m && 0 <= k < |WellsOf(m[key])| ==>
              WellLine(key, WellsOf(m[key])[k]) in Expansion(items)
    ensures forall l :: l in Expansion(items) ==>
              l.comp in m && exists k :: 0 <= k < |WellsOf(m[l.comp])| && l == WellLine(l.comp, WellsOf(m[l.comp])[k])
  {
    ExpansionFacts(items);
    forall key, k | key in m && 0 <= k < |WellsOf(m[key])|
      ensures WellLine(key, WellsOf(m[key])[k]) in Expansion(items)
    {
      var i :| 0 <= i < |items| && items[i].0 == key;
      assert items[i].1 == m[key];
    }
    forall l | l in Expansion(items)
      ensures l.comp in m && exists k :: 0 <= k < |WellsOf(m[l.comp])| && l == WellLine(l.comp, WellsOf(m[l.comp])[k])
    {
      var i, k :| 0 <= i < |items| && 0 <= k < |WellsOf(items[i].1)| && l == WellLine(items[i].0, WellsOf(items[i].1)[k]);
      assert items[i].1 == m[l.comp];
    }
  }

  /** The loop over map entries and, for a replicated value, its wells. */
  method ExpandCompWells(items: seq<(string, Placement)>) returns (lines: seq<Line>)
    ensures lines == Expansion(items)
  {
    lines := [];
    var i := 0;
    while i < |items|
      invariant 0 <= i <= |items|
      invariant lines == Expansion(items[..i])
    {
      var (comp, wells) := items[i];
      ghost var before := lines;
      match wells {
        case Single(w) =>
          lines := lines + [Line(w.idx, comp, w.extra)];
        case Replicated(ws) =>
          var j := 0;
          while j < |ws|
            invariant 0 <= j <= |ws|
            invariant lines == before + LinesOf(comp, wells)[..j]
          {
            lines := lines + [Line(ws[j].idx, comp, ws[j].extra)];
            j := j + 1;
          }
          assert LinesOf(comp, wells)[..j] == LinesOf(comp, wells);
      }
      assert items[..i + 1][..i] == items[..i];
      i := i + 1;
    }
    assert items[..i] == items;
  }

  // ---------------------------------------------------------------------
  // The thread (`AssemblyThread`)
  // ---------------------------------------------------------------------

  const DefaultRows := 8
  const DefaultCols := 12

  /** `query.get(key, default)` for the plate dimensions. */
  function Setting(query: map<string, nat>, key: string, default: nat): (r: nat)
    ensures key in query ==> r == query[key]
    ensures key !in query ==> r == default
  {
    if key in query then query[key] else default
  }

  /** What a run writes, in order: the column header of a worklist file, the
      lines of a plate layout, or the rows of one `_write_worklist` call. */
  datatype Output =
    | Header(plate: string)
    | Layout(plate: string, wells: map<string, Placement>)
    | Rows(plate: string, entries: seq<Entry>)

  /** The kind of an output record. */
  datatype Record = HeaderRecord | LayoutRecord | RowsRecord

  function RecordOf(o: Output): Record
  {
    match o
    case Header(_) => HeaderRecord
    case Layout(_, _) => LayoutRecord
    case Rows(_, _) => RowsRecord
  }

  /** Record by record, which kind of record a log holds for which plate. */
  function Tags(log: seq<Output>): (r: seq<(Record, string)>)
    ensures |r| == |log|
  {
    if log == [] then [] else [(RecordOf(log[0]), log[0].plate)] + Tags(log[1..])
  }

  lemma {:induction false} TagsAppend(a: seq<Output>, b: seq<Output>)
    ensures Tags(a + b) == Tags(a) + Tags(b)
  {
    if a == [] {
      assert a + b == b;
    } else {
      TagsAppend(a[1..], b);
      assert (a + b)[0] == a[0] && (a + b)[1..] == a[1..] + b;
    }
  }

  /** The volume the rows written to plate `plate` deliver into well `d`. */
  function Delivered(out: seq<Output>, plate: string, d: int): real
  {
    if out == [] then 0.0
    else
      var last := out[|out| - 1];
      Delivered(out[..|out| - 1], plate, d) + if last.Rows? && last.plate == plate then VolumeAt(last.entries, d) else 0.0
  }

  lemma {:induction false} DeliveredAppend(a: seq<Output>, b: seq<Output>, plate: string, d: int)
    ensures Delivered(a + b, plate, d) == Delivered(a, plate, d) + Delivered(b, plate, d)
    decreases |b|
  {
    if b == [] {
      assert a + b == a;
    } else {
      var n := |b| - 1;
      assert (a + b)[..|a + b| - 1] == a + b[..n];
      DeliveredAppend(a, b[..n], plate, d);
    }
  }

  /** A run of an assembly protocol: the registry client with its cache,
      the plate dimensions, the component-well map collected so far and the
      files written so far. */
  class AssemblyThread {
    const genie: BuildGenie
    const rows: nat
    const cols: nat
    var compWell: map<string, Placement>
    var log: seq<Output>

    constructor (fetch: string -> RegistryEntry, iceIds: seq<string>, query: map<string, nat>)
      ensures fresh(genie) && genie.Valid()
      ensures genie.fetch == fetch && genie.iceIds == iceIds && genie.data == map[]
      ensures rows == Setting(query, "rows", DefaultRows) && cols == Setting(query, "cols", DefaultCols)
      ensures compWell == map[] && log == []
    {
      genie := new BuildGenie(fetch, iceIds);
      rows := Setting(query, "rows", DefaultRows);
      cols := Setting(query, "cols", DefaultCols);
      compWell := map[];
      log := [];
    }

    /** The inner loop of `_get_pools`: the linked parts `parts` of the
        assembly `id` fetched through the cache and added to its pool. */
    method PoolParts(id: string, parts: seq<string>, pools0: map<string, Pool>) returns (pools: map<string, Pool>)
      modifies genie
      requires genie.Valid()
      requires parts == genie.fetch(id).linkedParts
      ensures genie.Valid()
      ensures pools == Visit(pools0, id, LinkedData(genie.fetch, id))
      ensures genie.data.Keys == old(genie.data).Keys + Elems(parts)
    {
      pools := pools0;
      ghost var ds := LinkedData(genie.fetch, id);
      ghost var k0 := genie.data.Keys;
      assert ds[..0] == [];
      assert parts[..0] == [];
      var j := 0;
      while j < |parts|
        invariant 0 <= j <= |parts|
        invariant genie.Valid()
        invariant pools == Visit(pools0, id, ds[..j])
        invariant genie.data.Keys == k0 + Elems(parts[..j])
      {
        ghost var inner := genie.data;
        var d := genie.GetData(parts[j]);
        VisitStep(pools0, id, ds, j);
        KeysStep(k0, inner, parts, j, d);
        pools := pools[id := AddPart(PoolOf(pools, id), d)];
        j := j + 1;
      }
      assert ds[..j] == ds;
      assert parts[..j] == parts;
    }

    /** `_get_pools`: every assembly's linked parts, fetched through the
        cache and sorted into its pool. */
    method GetPools() returns (pools: map<string, Pool>)
      modifies genie
      requires genie.Valid()
      ensures genie.Valid()
      ensures pools == PoolsOf(genie.fetch, genie.iceIds)
      ensures genie.data.Keys == old(genie.data).Keys + Fetched(genie.fetch, genie.iceIds)
    {
      var ids := genie.iceIds;
      pools := map[];
      var i := 0;
      while i < |ids|
        invariant 0 <= i <= |ids|
        invariant genie.Valid()
        invariant pools == PoolsOf(genie.fetch, ids[..i])
        invariant genie.data.Keys == old(genie.data).Keys + Fetched(genie.fetch, ids[..i])
      {
        var id := ids[i];
        ghost var cache := genie.data;
        var plasmid := genie.GetData(id);
        var parts := plasmid.entry.linkedParts;
        ghost var keys := genie.data.Keys;
        pools := PoolParts(id, parts, pools);
        FetchedStep(genie.fetch, old(genie.data).Keys, cache, ids, i, plasmid, keys, genie.data.Keys);
        PoolsOfSnoc(genie.fetch, ids, i);
        i := i + 1;
      }
      assert ids[..i] == ids;
    }

    /** `_write_plate`: allocates the wells of a layout and writes it. */
    method WritePlate(plate: string, components: seq<seq<string>>) returns (cw: map<string, Placement>)
      modifies this
      requires Keyed(components)
      ensures cw == LayoutOf(plate, components, |genie.iceIds|)
      ensures log == old(log) + [Layout(plate, cw)] && compWell == old(compWell)
    {
      cw := GetCompWell(plate, components, |genie.iceIds|);
      log := log + [Layout(plate, cw)];
    }

    /** `_write_comp_wells`: the layout of a plate whose wells were
        allocated elsewhere. */
    method WriteCompWells(plate: string, wells: map<string, Placement>)
      modifies this
      ensures log == old(log) + [Layout(plate, wells)] && compWell == old(compWell)
    {
      log := log + [Layout(plate, wells)];
    }

    /** `_write_worklist_header`. */
    method WriteWorklistHeader(plate: string)
      modifies this
      ensures log == old(log) + [Header(plate)] && compWell == old(compWell)
    {
      log := log + [Header(plate)];
    }

    /** `_write_worklist`: the rows in the order the merge writes them. */
    method WriteWorklist(plate: string, worklist: seq<Entry>)
      modifies this
      requires forall e :: e in worklist ==> e.destIdx < rows * cols
      ensures log == old(log) + [Rows(plate, Merge.Merged(worklist, rows * cols))]
      ensures compWell == old(compWell)
    {
      var out := Merge.WriteWorklist(worklist, rows, cols);
      log := log + [Rows(plate, out)];
    }

    /** `_write_dom_pool_worklist`: header, then (when every lookup
        succeeds) the pool plate's layout and the worklist; the pool wells
        are returned. */
    method WriteDomPoolWorklist(pools: map<string, Pool>, dest: string, vol: real)
      returns (r: Outcome<map<string, Placement>>)
      modifies this
      requires |pools.Keys| <= rows * cols
      ensures r.Ok? <==> Gather(DomPoolBlocks(pools, dest, vol, old(compWell))).Ok?
      ensures r.Missing? ==> r.key == Gather(DomPoolBlocks(pools, dest, vol, old(compWell))).key
                             && log == old(log) + [Header(dest)]
      ensures r.Ok? ==>
        r.value == PoolWells(DominoPoolSuffix, SortIds(pools.Keys), dest, |pools.Keys|) &&
        log == old(log) + [Header(dest), Layout(dest, r.value),
                           Rows(dest, Merge.Merged(Gather(DomPoolBlocks(pools, dest, vol, old(compWell))).value, rows * cols))]
      ensures compWell == old(compWell)
    {
      WriteWorklistHeader(dest);
      var worklist, wells := DomPoolWorklist(pools, dest, vol, compWell);
      if worklist.Missing? {
        return Missing(worklist.key);
      }
      DomPoolVolume(pools, dest, vol, compWell, 0);
      GatherDests(DomPoolBlocks(pools, dest, vol, compWell));
      WriteCompWells(dest, wells);
      WriteWorklist(dest, worklist.value);
      r := Ok(wells);
    }

    /** `_comp_well.update(m)`: the keys of `m` are added or overwritten. */
    method Update(m: map<string, Placement>)
      modifies this
      ensures compWell == old(compWell) + m && log == old(log)
    {
      compWell := compWell + m;
    }
  }

  /** Visiting one more assembly in `_get_pools`. */
  lemma PoolsOfSnoc(fetch: string -> RegistryEntry, ids: seq<string>, i: nat)
    requires i < |ids|
    ensures PoolsOf(fetch, ids[..i + 1]) == Visit(PoolsOf(fetch, ids[..i]), ids[i], LinkedData(fetch, ids[i]))
  {
    assert ids[..i + 1][..i] == ids[..i];
  }

  /** Growing an assembly's visit by one more linked part. */
  lemma VisitStep(pools: map<string, Pool>, id: string, ds: seq<PartData>, j: nat)
    requires j < |ds|
    ensures Visit(pools, id, ds[..j + 1])
            == Visit(pools, id, ds[..j])[id := AddPart(PoolOf(Visit(pools, id, ds[..j]), id), ds[j])]
  {
    var p := PoolOf(pools, id);
    assert ds[..j + 1][..j] == ds[..j];
    JoinAddPart(p, Classify(ds[..j]), ds[j]);
    if j == 0 {
      assert Join(p, EmptyPool) == p;
    }
  }

  /** Each visit adds at most one key: no more pools than assemblies. */
  lemma {:induction false} PoolsCount(fetch: string -> RegistryEntry, ids: seq<string>)
    ensures |PoolsOf(fetch, ids).Keys| <= |ids|
  {
    if ids != [] {
      var init := ids[..|ids| - 1];
      PoolsCount(fetch, init);
      var m := PoolsOf(fetch, init);
      var id := ids[|ids| - 1];
      var ds := LinkedData(fetch, id);
      if ds != [] {
        assert Visit(m, id, ds).Keys == m.Keys + {id};
      }
    }
  }
}
