/** Values shared by every step of the assembly pipeline: wells, the
    component-well map's values, pipetting instructions and the outcome of a
    step that looks components up in the component-well map. */
module Worklist {

  /** A well handed out on a plate: zero-based index, plate id and the extra
      fields of the component's layout row (`[idx, plate_id, comps[1:]]`). */
  datatype Well = Well(idx: nat, plate: string, extra: seq<string>)

  /** A value of the component-well map: one well, or (for water) one well
      per destination position. */
  datatype Placement = Single(well: Well) | Replicated(wells: seq<Well>)

  /** Result of a step that indexes the component-well map: the value, or the
      key whose lookup raised (KeyError / IndexError in the source). */
  datatype Outcome<T> = Ok(value: T) | Missing(key: string)

  /** One pipetting instruction, in the order of the worklist columns:
      destination plate and well, source plate and well, volume, component
      name, description, registry id of the part and assembly (plasmid) id. */
  datatype Entry = Entry(destPlate: string, destIdx: nat, srcPlate: string, srcIdx: nat,
                         vol: real, component: string, description: string,
                         iceId: string, plasmidId: string)

  /** The entries of `s` addressed to destination well `d`, in their order. */
  function FilterDest(s: seq<Entry>, d: int): (r: seq<Entry>)
    ensures forall e :: e in r ==> e in s && e.destIdx == d
    ensures |r| <= |s|
  {
    if s == [] then []
    else if s[0].destIdx == d then [s[0]] + FilterDest(s[1..], d)
    else FilterDest(s[1..], d)
  }

  lemma {:induction false} FilterDestAppend(a: seq<Entry>, b: seq<Entry>, d: int)
    ensures FilterDest(a + b, d) == FilterDest(a, d) + FilterDest(b, d)
  {
    if a == [] {
      assert a + b == b;
    } else {
      assert (a + b)[1..] == a[1..] + b;
      FilterDestAppend(a[1..], b, d);
    }
  }

  /** Total volume of a list of entries. */
  function SumVol(s: seq<Entry>): real
  {
    if s == [] then 0.0 else s[0].vol + SumVol(s[1..])
  }

  lemma {:induction false} SumVolAppend(a: seq<Entry>, b: seq<Entry>)
    ensures SumVol(a + b) == SumVol(a) + SumVol(b)
  {
    if a == [] {
      assert a + b == b;
    } else {
      assert (a + b)[1..] == a[1..] + b;
      SumVolAppend(a[1..], b);
    }
  }

  /** Volume that a worklist dispenses into destination well `d`. */
  function VolumeAt(s: seq<Entry>, d: int): real
  {
    SumVol(FilterDest(s, d))
  }

  /** Every entry of `s` goes to destination well `d`. */
  predicate AllTo(s: seq<Entry>, d: int)
  {
    forall e :: e in s ==> e.destIdx == d
  }

  lemma {:induction false} FilterDestAllTo(s: seq<Entry>, d: int, d': int)
    requires AllTo(s, d)
    ensures FilterDest(s, d') == if d == d' then s else []
  {
    if s != [] {
      assert s[0] in s;
      FilterDestAllTo(s[1..], d, d');
    }
  }

  /** The builders run one block per destination position and append the
      blocks in order; the first lookup that fails aborts the step. */
  function Gather(bs: seq<Outcome<seq<Entry>>>): (r: Outcome<seq<Entry>>)
    ensures r.Ok? <==> forall i :: 0 <= i < |bs| ==> bs[i].Ok?
    ensures r.Missing? ==> exists i :: 0 <= i < |bs| && bs[i] == Missing(r.key)
  {
    if bs == [] then Ok([])
    else
      var init := Gather(bs[..|bs| - 1]);
      if init.Missing? then init
      else if bs[|bs| - 1].Missing? then bs[|bs| - 1]
      else Ok(init.value + bs[|bs| - 1].value)
  }

  /** Block `i` holds only entries for destination position `i`. */
  predicate BlocksByPosition(bs: seq<Outcome<seq<Entry>>>)
  {
    forall i :: 0 <= i < |bs| && bs[i].Ok? ==> AllTo(bs[i].value, i)
  }

  /** What a step delivers into destination `d` is what block `d` holds. */
  lemma {:induction false} GatherVolumeAt(bs: seq<Outcome<seq<Entry>>>, d: int)
    requires Gather(bs).Ok? && BlocksByPosition(bs)
    ensures VolumeAt(Gather(bs).value, d) == if 0 <= d < |bs| then SumVol(bs[d].value) else 0.0
  {
    if bs != [] {
      var n := |bs| - 1;
      var init := bs[..n];
      assert BlocksByPosition(init) by {
        forall i | 0 <= i < |init| && init[i].Ok? ensures AllTo(init[i].value, i) {
          assert init[i] == bs[i];
        }
      }
      GatherVolumeAt(init, d);
      FilterDestAppend(Gather(init).value, bs[n].value, d);
      SumVolAppend(FilterDest(Gather(init).value, d), FilterDest(bs[n].value, d));
      FilterDestAllTo(bs[n].value, n, d);
      if 0 <= d < n {
        assert init[d] == bs[d];
      }
    }
  }

  /** A block made of one-entry lookups: the first failing lookup aborts it. */
  function Collect(os: seq<Outcome<Entry>>): (r: Outcome<seq<Entry>>)
    ensures r.Ok? <==> forall i :: 0 <= i < |os| ==> os[i].Ok?
    ensures r.Ok? ==> |r.value| == |os| && forall i :: 0 <= i < |os| ==> r.value[i] == os[i].value
  {
    if os == [] then Ok([])
    else
      var init := Collect(os[..|os| - 1]);
      if init.Missing? then init
      else if os[|os| - 1].Missing? then Missing(os[|os| - 1].key)
      else Ok(init.value + [os[|os| - 1].value])
  }

  /** Two blocks of lookups in a row: the first failure wins. */
  function Then(a: Outcome<seq<Entry>>, b: Outcome<seq<Entry>>): (r: Outcome<seq<Entry>>)
    ensures r.Ok? <==> a.Ok? && b.Ok?
    ensures r.Missing? ==> r.key == if a.Missing? then a.key else b.key
  {
    if a.Missing? then a else if b.Missing? then b else Ok(a.value + b.value)
  }

  /** The volume of `n` draws of `v` each. */
  function Scaled(n: nat, v: real): real
  {
    if n == 0 then 0.0 else Scaled(n - 1, v) + v
  }

  lemma {:induction false} ScaledProduct(n: nat, v: real)
    ensures Scaled(n, v) == n as real * v
  {
    if n > 0 {
      ScaledProduct(n - 1, v);
    }
  }

  lemma {:induction false} SumVolConst(s: seq<Entry>, v: real)
    requires forall i :: 0 <= i < |s| ==> s[i].vol == v
    ensures SumVol(s) == Scaled(|s|, v)
  {
    if s != [] {
      SumVolConst(s[1..], v);
    }
  }

  /** Appending one more block to a step that has gathered `k` blocks. */
  lemma GatherStep(bs: seq<Outcome<seq<Entry>>>, k: nat)
    requires k < |bs|
    ensures Gather(bs[..k + 1]) ==
      if Gather(bs[..k]).Missing? then Gather(bs[..k])
      else if bs[k].Missing? then bs[k]
      else Ok(Gather(bs[..k]).value + bs[k].value)
  {
    assert bs[..k + 1][..k] == bs[..k];
  }

  /** Appending one more lookup to a block that has collected `j` entries. */
  lemma CollectStep(os: seq<Outcome<Entry>>, j: nat)
    requires j < |os|
    ensures Collect(os[..j + 1]) ==
      if Collect(os[..j]).Missing? then Collect(os[..j])
      else if os[j].Missing? then Missing(os[j].key)
      else Ok(Collect(os[..j]).value + [os[j].value])
  {
    assert os[..j + 1][..j] == os[..j];
  }

  /** A gathered step addresses only the positions it has blocks for. */
  lemma {:induction false} GatherDests(bs: seq<Outcome<seq<Entry>>>)
    requires Gather(bs).Ok? && BlocksByPosition(bs)
    ensures forall e :: e in Gather(bs).value ==> e.destIdx < |bs|
  {
    if bs != [] {
      var n := |bs| - 1;
      var init := bs[..n];
      assert BlocksByPosition(init) by {
        forall i | 0 <= i < |init| && init[i].Ok? ensures AllTo(init[i].value, i) {
          assert init[i] == bs[i];
        }
      }
      GatherDests(init);
    }
  }

  /** Once a lookup has failed the step's outcome is fixed. */
  lemma {:induction false} GatherAbort(bs: seq<Outcome<seq<Entry>>>, k: nat)
    requires k <= |bs| && Gather(bs[..k]).Missing?
    ensures Gather(bs) == Gather(bs[..k])
    decreases |bs| - k
  {
    if k < |bs| {
      GatherStep(bs, k);
      GatherAbort(bs, k + 1);
    } else {
      assert bs[..k] == bs;
    }
  }

  /** One pass of a loop over the blocks: a failed block is the outcome of
      the whole step, a successful one extends the worklist. */
  lemma GatherNext(bs: seq<Outcome<seq<Entry>>>, k: nat, worklist: seq<Entry>, b: Outcome<seq<Entry>>)
    requires k < |bs| && Gather(bs[..k]) == Ok(worklist) && b == bs[k]
    ensures b.Missing? ==> Gather(bs) == b
    ensures b.Ok? ==> Gather(bs[..k + 1]) == Ok(worklist + b.value)
  {
    GatherStep(bs, k);
    if b.Missing? {
      GatherAbort(bs, k + 1);
    }
  }

  lemma {:induction false} CollectAbort(os: seq<Outcome<Entry>>, j: nat)
    requires j <= |os| && Collect(os[..j]).Missing?
    ensures Collect(os) == Collect(os[..j])
    decreases |os| - j
  {
    if j < |os| {
      CollectStep(os, j);
      CollectAbort(os, j + 1);
    } else {
      assert os[..j] == os;
    }
  }
}
