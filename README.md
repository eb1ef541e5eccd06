# lcr assembly recipes in Dafny

This project models the core of `lcr_utils`, the code that turns a list of
plasmid registry ids into liquid-handling recipes for ligase cycling reaction
(LCR) assembly. The recipes are plate layouts and pipetting worklists. The
model covers:

- **Registry data and ordering** (`build.py`, module `Build`, class
  `BuildGenie`). A registry entry becomes a part tuple. Its short
  description has every bracketed note replaced by a space, and every
  `" - "` replaced by `"_"`. Tuples are cached per id. `get_order` lists
  every linked part once, sorted by part id, with the part's name, type,
  parameter type and description.
- **The well allocator** (`assembly.py`, module `Assembly`). A plate layout
  hands out consecutive wells. The first row, when it is water, gets one well
  per plasmid, and every later row gets one well. This gives the
  component-well map.
- **The pool classifier.** Each plasmid's linked parts are split into ORF
  parts, dominoes and backbones, keyed by plasmid.
- **The domino-pool worklist.** Each pool well gets water plus 1.75 µl of each
  domino, 500 µl in all. Each pool well is registered as `<id>_domino_pool`.
- **The worklist merge** (module `Merge`). Entries are sorted stably by
  source well, grouped by destination well, and drained round-robin over all
  `rows * cols` destinations.
- **The LCR protocol** (`lcr.py`, module `Lcr`). It lays out the trough and
  component plates, writes the domino pools, and then writes the LCR plate:
  water, parts, domino pool and reagents, 25 µl per well.
- **The phospho-LCR protocol** (`phospho_lcr.py`, module `PhosphoLcr`). It
  adds a PNK phosphorylation plate with `<id>_phospho_pool` wells. The LCR
  plate then draws 13.3 µl from each phospho pool.

The shared values are in module `Worklist`: wells, placements, worklist
entries, and the `Outcome` of a step. A step that looks up a missing
component-well key ends with `Missing(key)`, which stands for the
`KeyError`/`IndexError` the source raises. Files and logs are modelled as a
sequence of `Output` records on the thread (`Layout`, `Header`, `Rows`). The
volume delivered to a destination well is read off that log.

The model follows the code as written in two places where the protocol's
prose would suggest otherwise:

- In the phospho worklist, ORF parts are drawn at 1 µl, but the water is
  computed with a part volume of 1.2 µl. A phospho well therefore holds
  20 − 0.2·(number of ORF parts) µl.
- The phospho worklist's water step indexes the pools through a
  `defaultdict`, so afterwards every plasmid id is a key of the pools.

The source registers the phospho-pool wells in sorted id order, while the
phosphorylation reactions are laid out in run order. The model keeps that
numbering as `PhosphoLcr.PhosphoWellsAsWritten` and shows the wrong draw it
causes (see "## Findings"). The rest of the model registers pool k at well
k of the phospho plate, where its reaction is.

## Model

| member | source | states |
|---|---|---|
| Build.NormaliseIdentity | lcr_utils/build.py:60-61 | a description without brackets or spaced dashes is left unchanged |
| Build.NormaliseIdempotent | lcr_utils/build.py:60-61 | a normalised description has no bracket pair and no spaced dash, and normalising it again changes nothing |
| Build.SortIds | lcr_utils/build.py:45-46 | `sorted` of a set of ids: same elements, same count, strictly ascending in string order |
| Build.BelowTrans | lcr_utils/build.py:45-46 | the string order used by `sorted` is transitive |
| Build.BelowTotal | lcr_utils/build.py:45-46 | two distinct strings are ordered one way or the other |
| Build.OrderMapLast | lcr_utils/build.py:37-42 | a part id's entry is the fields of its last occurrence in the walk over linked parts |
| Build.Tabulate | lcr_utils/build.py:45-46 | one row per entry; each row is its key followed by that key's fields; keys strictly ascending |
| Build.TabulateCovers | lcr_utils/build.py:45-46 | every key of the entries appears as the head of some row |
| Build.BuildGenie.constructor | lcr_utils/build.py:20-31 | keeps the registry and the plasmid ids, starts with an empty cache and no registry calls |
| Build.BuildGenie.GetData | lcr_utils/build.py:48-66 | returns the tuple built from the registry entry, whether cached or not, and caches it; a cached id makes no registry call, an uncached one makes exactly one, so no id is ever fetched twice |
| Build.BuildGenie.GetOrder | lcr_utils/build.py:33-46 | returns the sorted order rows for the plasmid ids; the cache gains exactly the plasmid ids and their linked part ids |
| Build.BuildGenie.FetchParts | lcr_utils/build.py:37-42 | the inner loop adds the fields of each linked part to the order map, and the cache gains exactly those part ids |
| Assembly.AssemblyThread.constructor | lcr_utils/assembly.py:40-50 | rows and cols come from the query with defaults 8 and 12; starts with an empty component-well map and log |
| Assembly.GetCompWell | lcr_utils/assembly.py:139-159 | the loop builds exactly the layout map `LayoutOf` |
| Assembly.LayoutKeys | lcr_utils/assembly.py:144-157 | a name is in the layout iff it heads one of the rows |
| Assembly.LayoutLast | lcr_utils/assembly.py:144-157 | a repeated name keeps the placement of its last row |
| Assembly.LayoutNoWater | lcr_utils/assembly.py:154-157 | without water, row i is placed in well i with its extra fields |
| Assembly.LayoutWaterFirst | lcr_utils/assembly.py:145-157 | with water first, water gets wells 0..n-1 (one per plasmid), and row i > 0 gets well n+i-1 |
| Assembly.AssemblyThread.WritePlate | lcr_utils/assembly.py:103-107 | returns the layout map of the rows and logs that layout |
| Assembly.OfKindSound | lcr_utils/assembly.py:93-99 | each class holds only parts of its own type and only parts of the input |
| Assembly.ClassifyKinds | lcr_utils/assembly.py:93-99 | classifying appends ORF parts to parts, DOMINO parts to dominoes and anything else to backbone, keeping their order |
| Assembly.KindsPartition | lcr_utils/assembly.py:93-99 | the three classes together are a multiset partition of the linked parts |
| Assembly.PoolsKeys | lcr_utils/assembly.py:83-101 | a plasmid has a pool iff it is listed and has at least one linked part |
| Assembly.PoolsDistinct | lcr_utils/assembly.py:87-99 | for distinct plasmid ids, a plasmid's pool is the classification of its own linked parts |
| Assembly.PoolsCount | lcr_utils/assembly.py:83-101 | there are no more pools than plasmid ids |
| Assembly.AssemblyThread.GetPools | lcr_utils/assembly.py:83-101 | returns the pools of the plasmid ids; the cache gains exactly the plasmid ids and their linked part ids |
| Assembly.AssemblyThread.PoolParts | lcr_utils/assembly.py:89-99 | the inner loop adds each linked part of a plasmid to its pool, and the cache gains exactly those part ids |
| Assembly.DrawsShape | lcr_utils/assembly.py:69-75 | drawing a list of parts yields one entry per part, all to the same destination, totalling count × volume |
| Assembly.DomPoolSources | lcr_utils/assembly.py:59-75 | a pool block succeeds iff the water well and every domino well are found; then well k gets 500 − (number of dominoes) × vol of water from water well k, and vol of each domino from that domino's own well, in pool order |
| Assembly.DomPoolBlockVolume | lcr_utils/assembly.py:59-75 | every domino-pool well receives exactly 500 µl |
| Assembly.DomPoolVolume | lcr_utils/assembly.py:59-80 | the domino-pool worklist delivers 500 µl to each of the first (number of pools) wells |
| Assembly.PoolWellsAt | lcr_utils/assembly.py:77 | the i-th pool id is registered as `<id><suffix>` at well i of the destination plate |
| Assembly.PoolWellsFind | lcr_utils/phospho_lcr.py:65-66 | even with repeated ids, the name of the i-th id is registered at a well whose id is the same |
| Assembly.PoolWellsKeys | lcr_utils/assembly.py:77 | the registered names are exactly the pool ids with the suffix |
| Assembly.SortedPoolWell | lcr_utils/assembly.py:59-77 | in sorted id order, pool i is placed at well i |
| Assembly.SortedPoolKeys | lcr_utils/assembly.py:59-77 | `<id>_domino_pool` is registered iff id is a pool key |
| Assembly.DomPoolWorklist | lcr_utils/assembly.py:59-77 | the loop aborts at the first missing key; on success it returns the registered pool wells |
| Assembly.AssemblyThread.WriteDomPoolWorklist | lcr_utils/assembly.py:52-81 | logs a header; on a missing key it stops there; otherwise it logs the pool layout and the merged worklist, and returns the pool wells |
| Assembly.AssemblyThread.WriteWorklistHeader | lcr_utils/assembly.py:109-115 | appends one header record to the destination's worklist |
| Assembly.AssemblyThread.WriteWorklist | lcr_utils/assembly.py:117-137 | appends the merged rows of the worklist for the plate's rows × cols wells |
| Assembly.ExpansionFacts | lcr_utils/assembly.py:166-173 | a layout expands to one line per well: every well of every item gives the line (well, component, extra), and every line is such a well line |
| Assembly.MapExpansion | lcr_utils/assembly.py:161-173 | when the items list the map's entries once each, every well of every component gives its line, and every line is a well line of a component of the map |
| Assembly.ExpandCompWells | lcr_utils/assembly.py:166-173 | the loop writes exactly the expansion of the map's items |
| Assembly.AssemblyThread.WriteCompWells | lcr_utils/assembly.py:161-173 | appends the map's layout to the plate's log |
| Assembly.DeliveredAppend | lcr_utils/assembly.py:122 | worklist files are opened for append, so deliveries add up across appended logs |
| Merge.SortBySrc | lcr_utils/assembly.py:125 | the sort's result is ordered by source well and is a permutation of its input |
| Merge.SortBySrcStable | lcr_utils/assembly.py:125 | the sort is stable: for every source well, the entries drawn from it keep their order |
| Merge.SortFilterDest | lcr_utils/assembly.py:125-126 | grouping the sorted list by destination gives the sorted group of each destination |
| Merge.SortIdempotent | lcr_utils/assembly.py:125 | sorting twice equals sorting once |
| Merge.GroupMultiset | lcr_utils/assembly.py:123-126 | when every destination is below cap, the groups together hold exactly the worklist |
| Merge.RoundRobinMultiset | lcr_utils/assembly.py:128-137 | the round-robin drain emits every grouped entry exactly once |
| Merge.RoundRobinFilter | lcr_utils/assembly.py:128-137 | the drain emits each destination's entries in their group order |
| Merge.MergedFacts | lcr_utils/assembly.py:117-137 | the merged list is a permutation of the worklist, and each destination's entries come out sorted by source well |
| Merge.MergedVolumeAt | lcr_utils/assembly.py:117-137 | merging does not change the volume delivered to any well |
| Merge.MergedEmpty | lcr_utils/assembly.py:128-137 | an empty worklist writes no rows |
| Merge.MergedExample | lcr_utils/assembly.py:125-137 | three entries for well 0 and one for well 1 come out interleaved: a0, b, a1, a2 |
| Merge.Drain | lcr_utils/assembly.py:128-137 | the cycling loop emits exactly the round-robin drain |
| Merge.GroupByDest | lcr_utils/assembly.py:125-126 | the loop builds exactly the per-destination groups |
| Merge.WriteWorklist | lcr_utils/assembly.py:117-137 | the output is the merge, a permutation of the input, with each destination's entries sorted by source well |
| Worklist.Gather | lcr_utils/lcr.py:58-71 | a step succeeds iff every block does; a failed step names a key that some block was missing |
| Worklist.GatherVolumeAt | lcr_utils/lcr.py:58-71 | a gathered step delivers to well d exactly what block d holds |
| Worklist.Collect | lcr_utils/lcr.py:79-94 | a block of lookups succeeds iff every lookup does, and then holds the looked-up entries in order |
| Lcr.WaterWorklist | lcr_utils/lcr.py:54-71 | the water loop produces the gathered water blocks, aborting at the first missing key |
| Lcr.WaterShape | lcr_utils/lcr.py:58-69 | water block k goes to well k and holds total − (backbones + ORF parts) × part volume |
| Lcr.PartsWorklist | lcr_utils/lcr.py:73-96 | the parts loop produces the gathered parts blocks |
| Lcr.PartsBlockVolume | lcr_utils/lcr.py:77-94 | parts block k goes to well k: backbones at the part volume, ORF parts at 1 µl |
| Lcr.PartsShape | lcr_utils/lcr.py:77-94 | every parts block goes to its own well with the volume its pool calls for |
| Lcr.PoolWorklist | lcr_utils/lcr.py:98-110 | the pool loop produces the gathered pool blocks |
| Lcr.PoolShape | lcr_utils/lcr.py:102-108 | pool block k succeeds iff `<id><suffix>` names a single well, and is then one entry drawing vol from that well into well k; otherwise it raises that key |
| Lcr.ReagentWorklist | lcr_utils/lcr.py:112-125 | the reagent loop produces the gathered reagent blocks |
| Lcr.ReagentBlockVolume | lcr_utils/lcr.py:116-123 | reagent block k goes to well k and totals the reagents' volumes |
| Lcr.ReagentShape | lcr_utils/lcr.py:116-123 | every reagent block goes to its own well with the reagents' total volume |
| Lcr.ReagentTotalPermutation | lcr_utils/lcr.py:116-123 | any reordering of the reagents adds up to the same total |
| Lcr.ReagentOrderVolume | lcr_utils/lcr.py:116-123 | a reagent block draws the same volume whatever the order of the reagent dictionary |
| Lcr.Written | lcr_utils/lcr.py:40-52 | the run of steps succeeds iff every step does |
| Lcr.WrittenStops | lcr_utils/lcr.py:40-52 | a failing run raises the key of its first failing step, and has written exactly one record per earlier step: record j is step j's merged rows |
| Lcr.WrittenDelivered | lcr_utils/lcr.py:40-52 | a successful run delivers to each well the sum of its steps' volumes |
| Lcr.LcrWellVolume | lcr_utils/lcr.py:44-51 | water, parts, domino pool and reagents add up to 25 µl for any pool |
| Lcr.LcrVolume | lcr_utils/lcr.py:40-52 | each LCR well used receives 25 µl, and no other well receives anything |
| Lcr.LcrWaterNegative | lcr_utils/lcr.py:61-63 | the LCR water volume is negative iff a plasmid has more than 15 backbones and ORF parts |
| Lcr.LcrWorklist | lcr_utils/lcr.py:40-52 | writes the header and the four steps, stopping at the first missing key |
| Lcr.WritePlates | lcr_utils/lcr.py:25-31 | logs the trough and component layouts, and overlays both onto the component-well map |
| Lcr.LcrTrough | lcr_utils/lcr.py:25-27 | in the trough, water fills wells 0..n-1 and the LCR mastermix is at well n |
| Lcr.PlatesTrough | lcr_utils/lcr.py:25-31 | a trough placement survives the component overlay when no component has that name |
| Lcr.PlatesComponents | lcr_utils/lcr.py:29-31 | every ordered part and every extra reagent is at its row's well in the final map |
| Lcr.LcrComponentsPlaced | lcr_utils/lcr.py:29-31 | in an LCR run, the ordered parts take wells 0.. and ampligase takes the next well |
| Lcr.Run | lcr_utils/lcr.py:20-38 | the thread's log and map after run are those of the LCR run function |
| Lcr.RunFromPools | lcr_utils/lcr.py:33-38 | the steps after plate layout write the domino pools and then the LCR plate |
| Lcr.LcrRunRecords | lcr_utils/lcr.py:20-38 | the log is, record by record, a prefix of: trough layout, components layout, domino-pool header, layout and rows, LCR header and four LCR row records; it reaches at least the domino-pool header, and a successful run writes all of it |
| Lcr.LcrRunVolume | lcr_utils/lcr.py:20-38 | a successful run puts 25 µl in each LCR well used and nothing in the others |
| Lcr.LcrRunPools | lcr_utils/lcr.py:20-38 | a successful run puts 500 µl in each domino-pool well |
| PhosphoLcr.TouchedKeys | lcr_utils/phospho_lcr.py:63-66 | after the water step the pools' keys are exactly the plasmid ids, so the source numbers the phospho pools over those ids |
| PhosphoLcr.RegisterPools | lcr_utils/phospho_lcr.py:63-66 | the loop registers the i-th id given as `<id><suffix>` at well i |
| PhosphoLcr.PhosphoWellVolume | lcr_utils/phospho_lcr.py:54-61 | water, parts and PNK reagents add up to 20 − 0.2 × (number of ORF parts) µl |
| PhosphoLcr.PhosphoVolume | lcr_utils/phospho_lcr.py:50-61 | each phospho well used receives that volume, and no other well receives anything |
| PhosphoLcr.PhosphoWaterNegative | lcr_utils/phospho_lcr.py:58-59 | the phospho water volume is negative iff a plasmid has at least 14 backbones and ORF parts |
| PhosphoLcr.PhosphoWorklist | lcr_utils/phospho_lcr.py:50-70 | writes header, steps and pool layout; returns the phospho-pool wells, numbered in run order, or the first missing key |
| PhosphoLcr.PhosphoLcrWellVolume | lcr_utils/phospho_lcr.py:76-83 | water, phospho pool, domino pool and reagents add up to 25 µl |
| PhosphoLcr.PhosphoLcrVolume | lcr_utils/phospho_lcr.py:72-83 | each LCR well used receives 25 µl, and no other well receives anything |
| PhosphoLcr.PhosphoPoolSource | lcr_utils/phospho_lcr.py:129-139 | with the corrected registration, LCR well k draws its phospho pool from a phospho well whose reaction was made for the same plasmid, and from well k itself when the ids are distinct |
| PhosphoLcr.SortedRun | lcr_utils/phospho_lcr.py:65-66 | as the source numbers them, the pool of "B" in the run ["B", "A"] is registered at phospho well 1 |
| PhosphoLcr.PhosphoNumberingDefect | lcr_utils/phospho_lcr.py:65-66 | as the source numbers them, LCR well 0 of the run ["B", "A"] draws from phospho well 1, where the reaction of "A" is |
| PhosphoLcr.PhosphoPoolStep | lcr_utils/phospho_lcr.py:81 | once the phospho wells are registered, the phospho-pool step never misses a key |
| PhosphoLcr.PhosphoLcrWorklist | lcr_utils/phospho_lcr.py:72-83 | writes the header and the four LCR steps, stopping at the first missing key |
| PhosphoLcr.PhosphoTrough | lcr_utils/phospho_lcr.py:29-32 | in the trough, water fills wells 0..n-1, the LCR mastermix is at n and the PNK mastermix at n+1 |
| PhosphoLcr.PhosphoComponentsPlaced | lcr_utils/phospho_lcr.py:34-37 | the ordered parts take wells 0.., then ampligase, then pnk |
| PhosphoLcr.Run | lcr_utils/phospho_lcr.py:24-48 | the thread's log and map after run are those of the phospho run function |
| PhosphoLcr.RunFromPools | lcr_utils/phospho_lcr.py:39-48 | after the plates: domino pools, then phospho, then LCR |
| PhosphoLcr.RunAfterDoms | lcr_utils/phospho_lcr.py:43-48 | writes the phospho plate, registers its pools and then writes the LCR plate |
| PhosphoLcr.AfterDomsVolume | lcr_utils/phospho_lcr.py:43-48 | a successful tail puts 25 µl in each LCR well and the phospho volume in each phospho well |
| PhosphoLcr.PhosphoRunRecords | lcr_utils/phospho_lcr.py:24-48 | the log is, record by record, a prefix of: the two plate layouts, domino-pool header, layout and rows, phospho header, three phospho row records and layout, LCR header and four LCR row records; it reaches at least the domino-pool header, and a successful run writes all of it |
| PhosphoLcr.PhosphoRunVolume | lcr_utils/phospho_lcr.py:24-48 | a successful run: 25 µl per LCR well, the phospho volume per phospho well, 500 µl per domino pool |

## Left out

- Build.BuildGenie: the registry client is a total function from id to entry, so lookup failures and credentials are not modelled. The calls it receives are kept as a ghost log.
- `JobThread`, threading and the job's progress reporting are not modelled.
- File I/O is modelled as an append-only log of records. The CSV formatting and the `rmtree`/`mkdir` of the output directory are not modelled.
- `plate_utils.get_well` (index to well label) is not part of this model, so wells stay zero-based indices.
- Volumes are exact reals. Python's `str()` rendering of floats, and float rounding in sums such as 15.5 − n, are not modelled.
- `Assembly.ExpandCompWells`: the map's items are taken in a given order. The Python 2 sort by `v[0]` compares an int with a list for water and is not modelled.
- The iteration order of the reagent dictionaries is a fixed sequence. Lcr.ReagentTotalPermutation and Lcr.ReagentOrderVolume show that the volume a reagent block draws does not depend on that order. The order of the rows written does, and only the fixed order is modelled.
- `order.py` and the command-line entry points are not part of this model.
- Merge.WriteWorklist and Assembly.AssemblyThread.WriteWorklist require every destination below `rows * cols`. When `rows * cols` is positive and a destination is not below it, the source's `cycle` loop never ends. When `rows * cols` is 0 the source writes no rows at all; the same requires leaves that case out.
- A component-well value of the wrong shape is treated as a missing key. This covers a single well where water expects one per plasmid, and the reverse.
- The inheritance of `AssemblyThread` from `BuildGenieBase` is modelled as composition, through the `genie` field.
- PhosphoLcr.PhosphoWorklist: registers the phospho pools in run order, not in sorted order as the source does, so that each LCR well draws its own pool; when the run's ids are not sorted and distinct, the phospho layout it logs and the phospho-pool `srcIdx` of the LCR rows differ from the source's; the source's numbering is PhosphoLcr.PhosphoWellsAsWritten (see "## Findings").
- PhosphoLcr.Run: inherits PhosphoWorklist's run-order numbering, so for ids that are not sorted and distinct its logged phospho layout and phospho-pool `srcIdx` differ from the source's.
- PhosphoLcr.RunFromPools: inherits the same run-order numbering, with the same difference from the source.
- PhosphoLcr.RunAfterDoms: inherits the same run-order numbering, with the same difference from the source.
- Lcr.LcrComponentsPlaced and PhosphoLcr.PhosphoComponentsPlaced assume no part id is named `water`, `ampligase` or `pnk`. The source does not guard against such a clash.
- Lcr.Run: the trough layout of a whole run is stated through Lcr.LcrTrough and Lcr.PlatesTrough, not as one lemma about the run.

## Findings

| source | as written | input that shows it | evidently intended | confidence | as-written member | corrected member |
|---|---|---|---|---|---|---|
| lcr_utils/phospho_lcr.py:65-66 | the phospho pool of an id is registered at its position in `sorted(pools)`, but its reaction was made at its position in the run (lines 89, 108 and 161) | run ["B", "A"]: "B_phospho_pool" is well 1, which holds the reaction of "A", so LCR well 0 draws the wrong pool | register the pool of the k-th id of the run at well k, as `enumerate(self._ice_ids)` does for the reactions | not executed | PhosphoLcr.PhosphoNumberingDefect | PhosphoLcr.PhosphoPoolSource |
