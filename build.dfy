/** The registry-facing base of every protocol (lcr_utils/build.py): the
    per-run metadata cache, the normalisation of part descriptions and the
    parts order list. The registry client itself is a function `fetch`. */
module Build {

  /** What the registry reports for one id: its metadata fields, the `Type`
      parameter, the sequence and the ids of its linked parts. */
  datatype RegistryEntry = RegistryEntry(partId: string, name: string, metaType: string,
                                         typeParam: string, shortDescription: string,
                                         sequence: string, linkedParts: seq<string>)

  /** The tuple `_get_data` caches: the entry itself, then part id, name,
      metadata type, `Type` parameter, normalised description, sequence. */
  datatype PartData = PartData(entry: RegistryEntry, partId: string, name: string,
                               metaType: string, typeParam: string, description: string,
                               sequence: string)

  function MakeData(e: RegistryEntry): PartData
  {
    PartData(e, e.partId, e.name, e.metaType, e.typeParam, Normalise(e.shortDescription), e.sequence)
  }

  // ---------------------------------------------------------------------
  // Description normalisation: re.sub('\s*\[[^\]]*\]\s*', ' ', d).replace(' - ', '_')
  // ---------------------------------------------------------------------

  /** `\s` of a Python 2 byte-string pattern. */
  predicate IsSpace(c: char)
  {
    c == ' ' || c == '\t' || c == '\n' || c == '\r' || c == '\U{B}' || c == '\U{C}'
  }

  /** Length of the leading run of whitespace (a greedy `\s*`). */
  function SpaceRun(s: string): (n: nat)
    ensures n <= |s|
    ensures forall i :: 0 <= i < n ==> IsSpace(s[i])
    ensures n < |s| ==> !IsSpace(s[n])
  {
    if s == [] || !IsSpace(s[0]) then 0 else 1 + SpaceRun(s[1..])
  }

  /** Index of the first `]`, if any (where `[^\]]*\]` stops). */
  function FirstClose(s: string): (r: Option<nat>)
    ensures r.None? <==> ']' !in s
    ensures r.Some? ==> r.value < |s| && s[r.value] == ']' && ']' !in s[..r.value]
  {
    if s == [] then None
    else if s[0] == ']' then Some(0)
    else
      var r := FirstClose(s[1..]);
      if r.None? then None
      else
        assert s[..r.value + 1] == [s[0]] + s[1..][..r.value];
        Some(r.value + 1)
  }

  datatype Option<T> = None | Some(value: T)

  /** Length of the match of `\s*\[[^\]]*\]\s*` at the start of `s`, if the
      pattern matches there. */
  function MatchAt(s: string): (r: Option<nat>)
    ensures r.Some? ==> 0 < r.value <= |s|
  {
    var w := SpaceRun(s);
    if w < |s| && s[w] == '[' then
      match FirstClose(s[w + 1..])
      case None => None
      case Some(j) =>
        var e := w + 1 + j + 1;
        Some(e + SpaceRun(s[e..]))
    else None
  }

  /** `re.sub` with that pattern and replacement `' '`: scan left to right,
      replacing each leftmost match and resuming after it. */
  function StripBrackets(s: string): string
    decreases |s|
  {
    if s == [] then []
    else
      match MatchAt(s)
      case Some(n) => " " + StripBrackets(s[n..])
      case None => [s[0]] + StripBrackets(s[1..])
  }

  predicate StartsWithDash(s: string)
  {
    |s| >= 3 && s[..3] == " - "
  }

  /** `str.replace(' - ', '_')`: non-overlapping, left to right. */
  function ReplaceDash(s: string): string
  {
    if StartsWithDash(s) then "_" + ReplaceDash(s[3..])
    else if s == [] then []
    else [s[0]] + ReplaceDash(s[1..])
  }

  /** The description stored in the cache. */
  function Normalise(description: string): string
  {
    ReplaceDash(StripBrackets(description))
  }

  /** `s` has no `[` that is followed, anywhere later, by a `]`. */
  predicate NoBracketPair(s: string)
  {
    s == [] || (if s[0] == '[' then ']' !in s[1..] else NoBracketPair(s[1..]))
  }

  /** No ` - ` occurs in `s`. */
  predicate NoSpacedDash(s: string)
  {
    s == [] || (!StartsWithDash(s) && NoSpacedDash(s[1..]))
  }

  lemma NotInSuffix(s: string, k: nat, c: char)
    requires c !in s && k <= |s|
    ensures c !in s[k..]
  {
    assert forall i :: 0 <= i < |s| - k ==> s[k..][i] == s[k + i];
  }

  lemma {:induction false} StripWithoutOpen(s: string)
    requires '[' !in s
    ensures StripBrackets(s) == s
  {
    if s != [] {
      var w := SpaceRun(s);
      assert w < |s| ==> s[w] in s;
      assert MatchAt(s).None?;
      NotInSuffix(s, 1, '[');
      StripWithoutOpen(s[1..]);
    }
  }

  lemma {:induction false} StripWithoutClose(s: string)
    requires ']' !in s
    ensures StripBrackets(s) == s
  {
    if s != [] {
      var w := SpaceRun(s);
      if w < |s| {
        NotInSuffix(s, w + 1, ']');
      }
      assert MatchAt(s).None?;
      NotInSuffix(s, 1, ']');
      StripWithoutClose(s[1..]);
    }
  }

  /** After bracket stripping, no `[...]` segment is left. */
  lemma {:induction false} StripLeavesNoPair(s: string)
    ensures NoBracketPair(StripBrackets(s))
  {
    if s != [] {
      match MatchAt(s)
      case Some(n) =>
        StripLeavesNoPair(s[n..]);
        assert (" " + StripBrackets(s[n..]))[1..] == StripBrackets(s[n..]);
      case None =>
        var r := StripBrackets(s);
        assert r[1..] == StripBrackets(s[1..]);
        if s[0] == '[' {
          assert SpaceRun(s) == 0;
          assert s[0 + 1..] == s[1..];
          StripWithoutClose(s[1..]);
        } else {
          StripLeavesNoPair(s[1..]);
        }
    }
  }

  lemma {:induction false} NoCloseAnyPair(s: string)
    requires ']' !in s
    ensures NoBracketPair(s)
  {
    if s != [] {
      NotInSuffix(s, 1, ']');
      NoCloseAnyPair(s[1..]);
    }
  }

  lemma {:induction false} NoPairSuffix(s: string, k: nat)
    requires NoBracketPair(s) && k <= |s|
    ensures NoBracketPair(s[k..])
  {
    if k > 0 {
      if s[0] == '[' {
        NotInSuffix(s[1..], k - 1, ']');
        assert s[1..][k - 1..] == s[k..];
        NoCloseAnyPair(s[k..]);
      } else {
        NoPairSuffix(s[1..], k - 1);
        assert s[1..][k - 1..] == s[k..];
      }
    }
  }

  lemma {:induction false} NoPairNoMatch(s: string)
    requires NoBracketPair(s) && s != []
    ensures MatchAt(s).None?
  {
    var w := SpaceRun(s);
    if w < |s| && s[w] == '[' {
      NoPairSuffix(s, w);
      assert s[w..][1..] == s[w + 1..];
    }
  }

  lemma {:induction false} StripNoPair(s: string)
    requires NoBracketPair(s)
    ensures StripBrackets(s) == s
  {
    if s != [] {
      NoPairNoMatch(s);
      NoPairSuffix(s, 1);
      StripNoPair(s[1..]);
    }
  }

  lemma {:induction false} ReplaceWithoutDash(s: string)
    requires NoSpacedDash(s)
    ensures ReplaceDash(s) == s
  {
    if s != [] {
      ReplaceWithoutDash(s[1..]);
    }
  }

  /** The replacement leaves no ` - ` behind. */
  lemma {:induction false} ReplaceLeavesNoDash(s: string)
    ensures NoSpacedDash(ReplaceDash(s))
  {
    if s == [] {
    } else if StartsWithDash(s) {
      ReplaceLeavesNoDash(s[3..]);
      var r := ReplaceDash(s[3..]);
      assert ("_" + r)[1..] == r;
      assert ("_" + r)[0] == '_';
    } else {
      var t := s[1..];
      ReplaceLeavesNoDash(t);
      var r := ReplaceDash(t);
      assert ([s[0]] + r)[1..] == r;
      ReplaceDashPrefix(t);
      assert |s| >= 3 ==> s[..3] == [s[0], t[0], t[1]];
    }
  }

  /** A replaced string starts with `- ` only if the original did. */
  lemma {:induction false} ReplaceDashPrefix(t: string)
    ensures |ReplaceDash(t)| >= 2 && ReplaceDash(t)[..2] == "- " ==> |t| >= 2 && t[..2] == "- "
  {
    var r := ReplaceDash(t);
    if StartsWithDash(t) {
      assert r[0] == '_';
      assert |r| >= 2 ==> r[..2][0] == r[0];
    } else if t != [] {
      var u := t[1..];
      assert r == [t[0]] + ReplaceDash(u);
      if StartsWithDash(u) {
        assert r == [t[0]] + ("_" + ReplaceDash(u[3..]));
        assert r[1] == '_';
        assert |r| >= 2 ==> r[..2][1] == r[1];
      } else if u != [] {
        assert r == [t[0]] + ([u[0]] + ReplaceDash(u[1..]));
        assert r[..2] == [t[0], u[0]];
        assert t[..2] == [t[0], u[0]];
      } else {
        assert ReplaceDash(u) == [];
        assert r == [t[0]];
      }
    }
  }

  lemma {:induction false} ReplaceNoClose(s: string)
    requires ']' !in s
    ensures ']' !in ReplaceDash(s)
  {
    if s == [] {
    } else if StartsWithDash(s) {
      NotInSuffix(s, 3, ']');
      ReplaceNoClose(s[3..]);
    } else {
      NotInSuffix(s, 1, ']');
      ReplaceNoClose(s[1..]);
    }
  }

  lemma {:induction false} ReplaceKeepsNoPair(s: string)
    requires NoBracketPair(s)
    ensures NoBracketPair(ReplaceDash(s))
  {
    if s == [] {
    } else if StartsWithDash(s) {
      NoPairSuffix(s, 3);
      ReplaceKeepsNoPair(s[3..]);
      assert ("_" + ReplaceDash(s[3..]))[1..] == ReplaceDash(s[3..]);
    } else {
      var r := ReplaceDash(s[1..]);
      assert ([s[0]] + r)[1..] == r;
      if s[0] == '[' {
        ReplaceNoClose(s[1..]);
      } else {
        ReplaceKeepsNoPair(s[1..]);
      }
    }
  }

  /** A description with no `[` and no ` - ` is left as it is. */
  lemma NormaliseIdentity(description: string)
    requires '[' !in description
    requires NoSpacedDash(description)
    ensures Normalise(description) == description
  {
    StripWithoutOpen(description);
    ReplaceWithoutDash(description);
  }

  /** Normalising twice is normalising once: the result has neither a
      bracketed segment nor a ` - `. */
  lemma NormaliseIdempotent(description: string)
    ensures NoBracketPair(Normalise(description)) && NoSpacedDash(Normalise(description))
    ensures Normalise(Normalise(description)) == Normalise(description)
  {
    var n := Normalise(description);
    StripLeavesNoPair(description);
    ReplaceKeepsNoPair(StripBrackets(description));
    ReplaceLeavesNoDash(StripBrackets(description));
    StripNoPair(n);
    ReplaceWithoutDash(n);
  }

  // ---------------------------------------------------------------------
  // String order of Python 2 `sorted` on byte strings
  // ---------------------------------------------------------------------

  /** `a < b`: lexicographic, a proper prefix coming first. */
  predicate Below(a: string, b: string)
  {
    b != [] && (a == [] || a[0] < b[0] || (a[0] == b[0] && Below(a[1..], b[1..])))
  }

  lemma {:induction false} BelowIrreflexive(a: string)
    ensures !Below(a, a)
  {
    if a != [] {
      BelowIrreflexive(a[1..]);
    }
  }

  lemma {:induction false} BelowTrans(a: string, b: string, c: string)
    requires Below(a, b) && Below(b, c)
    ensures Below(a, c)
  {
    if a != [] && a[0] == b[0] && b[0] == c[0] {
      BelowTrans(a[1..], b[1..], c[1..]);
    }
  }

  lemma {:induction false} BelowTotal(a: string, b: string)
    requires a != b
    ensures Below(a, b) || Below(b, a)
  {
    if a != [] && b != [] && a[0] == b[0] {
      assert a == [a[0]] + a[1..] && b == [b[0]] + b[1..];
      BelowTotal(a[1..], b[1..]);
    }
  }

  /** `m` is the smallest string of `ids`. */
  predicate IsLeast(m: string, ids: set<string>)
  {
    m in ids && forall x :: x in ids && x != m ==> Below(m, x)
  }

  lemma {:induction false} LeastExists(ids: set<string>)
    requires ids != {}
    ensures exists m :: IsLeast(m, ids)
    decreases |ids|
  {
    var x :| x in ids;
    if ids == {x} {
      assert IsLeast(x, ids);
    } else {
      var rest := ids - {x};
      LeastExists(rest);
      var m :| IsLeast(m, rest);
      if Below(x, m) {
        forall y | y in ids && y != x
          ensures Below(x, y)
        {
          if y != m {
            BelowTrans(x, m, y);
          }
        }
        assert IsLeast(x, ids);
      } else {
        BelowTotal(x, m);
        assert IsLeast(m, ids);
      }
    }
  }

  lemma LeastUnique(ids: set<string>)
    ensures forall a, b :: IsLeast(a, ids) && IsLeast(b, ids) ==> a == b
  {
    forall a, b | IsLeast(a, ids) && IsLeast(b, ids)
      ensures a == b
    {
      if a != b {
        BelowTrans(a, b, a);
        BelowIrreflexive(a);
      }
    }
  }

  /** `sorted(ids)`: the elements of `ids` in strictly ascending order. */
  function SortIds(ids: set<string>): (r: seq<string>)
    ensures |r| == |ids|
    ensures forall x :: x in r <==> x in ids
    ensures forall i, j :: 0 <= i < j < |r| ==> Below(r[i], r[j])
    decreases |ids|
  {
    if ids == {} then []
    else
      LeastExists(ids);
      LeastUnique(ids);
      var m :| IsLeast(m, ids);
      [m] + SortIds(ids - {m})
  }

  // ---------------------------------------------------------------------
  // The parts order list
  // ---------------------------------------------------------------------

  /** The fields of an order row after its key: name, metadata type, `Type`
      parameter, normalised description and sequence. */
  function Fields(d: PartData): seq<string>
  {
    [d.name, d.metaType, d.typeParam, d.description, d.sequence]
  }

  /** The linked parts of the plasmids `ids`, plasmid by plasmid. */
  function Linked(fetch: string -> RegistryEntry, ids: seq<string>): seq<string>
  {
    if ids == [] then []
    else Linked(fetch, ids[..|ids| - 1]) + fetch(ids[|ids| - 1]).linkedParts
  }

  /** The `entries` dict after visiting the parts `ps` in order: keyed by part
      id, a later part overwriting an earlier one with the same id. */
  function OrderMap(fetch: string -> RegistryEntry, ps: seq<string>): (r: map<string, seq<string>>)
    ensures r.Keys == PartIds(fetch, ps)
  {
    if ps == [] then map[]
    else
      var d := MakeData(fetch(ps[|ps| - 1]));
      OrderMap(fetch, ps[..|ps| - 1])[d.partId := Fields(d)]
  }

  /** The part ids the registry reports for the ids `ps`. */
  function PartIds(fetch: string -> RegistryEntry, ps: seq<string>): set<string>
  {
    if ps == [] then {} else PartIds(fetch, ps[..|ps| - 1]) + {fetch(ps[|ps| - 1]).partId}
  }

  lemma {:induction false} PartIdsMember(fetch: string -> RegistryEntry, ps: seq<string>, id: string)
    ensures id in PartIds(fetch, ps) <==> exists p :: p in ps && fetch(p).partId == id
  {
    if ps != [] {
      var init := ps[..|ps| - 1];
      PartIdsMember(fetch, init, id);
      assert forall q :: q in ps <==> q in init || q == ps[|ps| - 1];
    }
  }

  lemma OrderMapSnoc(fetch: string -> RegistryEntry, before: seq<string>, parts: seq<string>, j: nat)
    requires j < |parts|
    ensures OrderMap(fetch, before + parts[..j + 1])
            == OrderMap(fetch, before + parts[..j])[fetch(parts[j]).partId := Fields(MakeData(fetch(parts[j])))]
  {
    var ps := before + parts[..j + 1];
    var d := MakeData(fetch(ps[|ps| - 1]));
    assert OrderMap(fetch, ps) == OrderMap(fetch, ps[..|ps| - 1])[d.partId := Fields(d)];
    assert ps[|ps| - 1] == parts[j];
    assert ps[..|ps| - 1] == before + parts[..j];
  }

  lemma LinkedSnoc(fetch: string -> RegistryEntry, ids: seq<string>, i: nat)
    requires i < |ids|
    ensures Linked(fetch, ids[..i + 1]) == Linked(fetch, ids[..i]) + fetch(ids[i]).linkedParts
  {
    assert ids[..i + 1][..i] == ids[..i];
  }

  /** The row for a part id is the fields of the last part carrying it. */
  lemma {:induction false} OrderMapLast(fetch: string -> RegistryEntry, ps: seq<string>, i: nat)
    requires i < |ps|
    requires forall j :: i < j < |ps| ==> fetch(ps[j]).partId != fetch(ps[i]).partId
    ensures fetch(ps[i]).partId in OrderMap(fetch, ps)
    ensures OrderMap(fetch, ps)[fetch(ps[i]).partId] == Fields(MakeData(fetch(ps[i])))
  {
    if i < |ps| - 1 {
      var init := ps[..|ps| - 1];
      assert init[i] == ps[i];
      forall j | i < j < |init|
        ensures fetch(init[j]).partId != fetch(init[i]).partId
      {
        assert init[j] == ps[j];
      }
      OrderMapLast(fetch, init, i);
    }
  }

  /** What `get_order` returns: one row per part id, in ascending id order,
      holding the id and then its fields. */
  function OrderRows(fetch: string -> RegistryEntry, ids: seq<string>): seq<seq<string>>
  {
    Tabulate(OrderMap(fetch, Linked(fetch, ids)))
  }

  /** `[[key] + entries[key] for key in sorted(entries)]`. */
  function Tabulate(entries: map<string, seq<string>>): (r: seq<seq<string>>)
    ensures |r| == |entries|
    ensures forall k :: 0 <= k < |r| ==> |r[k]| >= 1 && r[k][0] in entries && r[k][1..] == entries[r[k][0]]
    ensures forall k, l :: 0 <= k < l < |r| ==> Below(r[k][0], r[l][0])
  {
    var keys := SortIds(entries.Keys);
    var r := seq(|keys|, k requires 0 <= k < |keys| => [keys[k]] + entries[keys[k]]);
    assert forall k :: 0 <= k < |r| ==> r[k][1..] == entries[keys[k]];
    r
  }

  /** Every key of `entries` has its row. */
  lemma TabulateCovers(entries: map<string, seq<string>>, id: string)
    requires id in entries
    ensures exists k :: 0 <= k < |Tabulate(entries)| && Tabulate(entries)[k][0] == id
  {
    var keys := SortIds(entries.Keys);
    var k :| 0 <= k < |keys| && keys[k] == id;
    assert Tabulate(entries)[k][0] == id;
  }

  /** The per-run metadata cache of a build application. `fetch` stands for
      the registry client; a lookup it cannot answer is not modelled. */
  /** The elements of `s`. */
  function Elems(s: seq<string>): (r: set<string>)
    ensures forall x :: x in r <==> x in s
  {
    if s == [] then {} else Elems(s[..|s| - 1]) + {s[|s| - 1]}
  }

  /** The ids whose lookups a visit of the plasmids `ids` asks for: each
      plasmid and each of its linked parts. */
  function Fetched(fetch: string -> RegistryEntry, ids: seq<string>): (r: set<string>)
    ensures forall x :: x in r <==> x in ids || x in Linked(fetch, ids)
  {
    if ids == [] then {}
    else Fetched(fetch, ids[..|ids| - 1]) + {ids[|ids| - 1]} + Elems(fetch(ids[|ids| - 1]).linkedParts)
  }

  /** Visiting one more plasmid asks for it and its linked parts. */
  lemma FetchedSnoc(fetch: string -> RegistryEntry, ids: seq<string>, i: nat)
    requires i < |ids|
    ensures Fetched(fetch, ids[..i + 1]) == Fetched(fetch, ids[..i]) + {ids[i]} + Elems(fetch(ids[i]).linkedParts)
  {
    assert ids[..i + 1][..i] == ids[..i];
  }

  /** The cache keys after one more part is fetched in the inner loop of
      `get_order`. */
  lemma KeysStep(k0: set<string>, cache: map<string, PartData>, parts: seq<string>, j: nat, d: PartData)
    requires j < |parts|
    requires cache.Keys == k0 + Elems(parts[..j])
    ensures cache[parts[j] := d].Keys == k0 + Elems(parts[..j + 1])
  {
    assert parts[..j + 1][..j] == parts[..j];
  }

  /** The cache keys after one more plasmid is visited by `get_order`. */
  lemma FetchedStep(fetch: string -> RegistryEntry, k0: set<string>, cache: map<string, PartData>,
                    ids: seq<string>, i: nat, d: PartData, keys: set<string>, after: set<string>)
    requires i < |ids|
    requires cache.Keys == k0 + Fetched(fetch, ids[..i])
    requires keys == cache[ids[i] := d].Keys
    requires after == keys + Elems(fetch(ids[i]).linkedParts)
    ensures after == k0 + Fetched(fetch, ids[..i + 1])
  {
    FetchedSnoc(fetch, ids, i);
  }

  class BuildGenie {
    const fetch: string -> RegistryEntry
    const iceIds: seq<string>
    var data: map<string, PartData>
    /** The ids passed to the registry client, in call order. */
    ghost var calls: seq<string>

    /** Every cached tuple is what a fresh registry lookup would give, and
        the registry was asked exactly once for each cached id. */
    ghost predicate Valid()
      reads this
    {
      && (forall id :: id in data ==> data[id] == MakeData(fetch(id)))
      && (forall i, j :: 0 <= i < j < |calls| ==> calls[i] != calls[j])
      && (forall id :: id in calls <==> id in data)
    }

    constructor (fetch: string -> RegistryEntry, iceIds: seq<string>)
      ensures Valid()
      ensures this.fetch == fetch && this.iceIds == iceIds && data == map[] && calls == []
    {
      this.fetch := fetch;
      this.iceIds := iceIds;
      data := map[];
      calls := [];
    }

    /** `_get_data`: the cached tuple, or a fresh lookup that is then cached;
        the registry is asked only on a miss. */
    method GetData(id: string) returns (d: PartData)
      modifies this
      requires Valid()
      ensures Valid()
      ensures d == MakeData(fetch(id))
      ensures data == old(data)[id := d]
      ensures id in old(data) ==> calls == old(calls)
      ensures id !in old(data) ==> calls == old(calls) + [id]
    {
      if id in data {
        d := data[id];
        return;
      }
      d := MakeData(fetch(id));
      data := data[id := d];
      calls := calls + [id];
    }

    /** The inner loop of `get_order`: the linked parts `parts` of one
        plasmid fetched through the cache and entered in `entries`. */
    method FetchParts(parts: seq<string>, ghost before: seq<string>, entries0: map<string, seq<string>>)
      returns (entries: map<string, seq<string>>)
      modifies this
      requires Valid()
      requires entries0 == OrderMap(fetch, before)
      ensures Valid()
      ensures entries == OrderMap(fetch, before + parts)
      ensures data.Keys == old(data).Keys + Elems(parts)
    {
      entries := entries0;
      ghost var k0 := data.Keys;
      assert before + parts[..0] == before;
      var j := 0;
      while j < |parts|
        invariant 0 <= j <= |parts|
        invariant Valid()
        invariant entries == OrderMap(fetch, before + parts[..j])
        invariant data.Keys == k0 + Elems(parts[..j])
      {
        ghost var cache := data;
        var part := GetData(parts[j]);
        OrderMapSnoc(fetch, before, parts, j);
        KeysStep(k0, cache, parts, j, part);
        entries := entries[part.partId := Fields(part)];
        j := j + 1;
      }
      assert parts[..j] == parts;
    }

    /** `get_order`: the parts order list of the run's plasmids; every
        plasmid and every linked part visited ends up in the cache, and
        the registry is asked only for ids not cached before. */
    method GetOrder() returns (rows: seq<seq<string>>)
      modifies this
      requires Valid()
      ensures Valid()
      ensures rows == OrderRows(fetch, iceIds)
      ensures data.Keys == old(data).Keys + Fetched(fetch, iceIds)
    {
      var entries: map<string, seq<string>> := map[];
      var i := 0;
      while i < |iceIds|
        invariant 0 <= i <= |iceIds|
        invariant Valid()
        invariant entries == OrderMap(fetch, Linked(fetch, iceIds[..i]))
        invariant data.Keys == old(data).Keys + Fetched(fetch, iceIds[..i])
      {
        ghost var cache := data;
        var plasmid := GetData(iceIds[i]);
        ghost var keys := data.Keys;
        entries := FetchParts(plasmid.entry.linkedParts, Linked(fetch, iceIds[..i]), entries);
        LinkedSnoc(fetch, iceIds, i);
        FetchedStep(fetch, old(data).Keys, cache, iceIds, i, plasmid, keys, data.Keys);
        i := i + 1;
      }
      assert iceIds[..i] == iceIds;
      rows := Tabulate(entries);
    }
  }
}
