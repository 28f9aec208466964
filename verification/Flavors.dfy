/** The flavor catalog and the two indexes built over it, for any catalog and any lower-casing. */
module Flavors {
  import opened Options

  datatype Flavor = Flavor(
    id: string, tierId: string, tierNumber: int, name: string, hardwareStack: string,
    kernelProfile: string, preheatProfile: string, description: string, provisioners: seq<string>)

  // ----- What the lookups mean -----

  /** Scanning from the front, the first entry with that ID. */
  function FirstWithId(fs: seq<Flavor>, id: string): Option<Flavor> {
    if fs == [] then None else if fs[0].id == id then Some(fs[0]) else FirstWithId(fs[1..], id)
  }

  /** The last entry with that ID. */
  function LastWithId(fs: seq<Flavor>, id: string): Option<Flavor> {
    if fs == [] then None
    else if fs[|fs| - 1].id == id then Some(fs[|fs| - 1])
    else LastWithId(fs[..|fs| - 1], id)
  }

  predicate DistinctIds(fs: seq<Flavor>) {
    forall i, j :: 0 <= i < j < |fs| ==> fs[i].id != fs[j].id
  }

  /** The entries whose tier is `tier` in lower case, in catalog order. */
  function OfTier(fs: seq<Flavor>, lower: string -> string, tier: string): seq<Flavor> {
    if fs == [] then []
    else OfTier(fs[..|fs| - 1], lower, tier) + if lower(fs[|fs| - 1].tierId) == tier then [fs[|fs| - 1]] else []
  }

  // ----- The indexes -----

  ghost predicate IndexesIds(fs: seq<Flavor>, index: map<string, Flavor>) {
    forall id ::
      LastWithId(fs, id) == if id in index then Some(index[id]) else None
  }

  ghost predicate IndexesTiers(fs: seq<Flavor>, lower: string -> string, index: map<string, seq<Flavor>>) {
    forall tier ::
      OfTier(fs, lower, tier) == if tier in index then index[tier] else []
  }

  class Catalog {
    const flavors: seq<Flavor>
    const lower: string -> string
    var flavorIndex: map<string, Flavor>
    var tierIndex: map<string, seq<Flavor>>

    ghost predicate Valid()
      reads this
    {
      IndexesIds(flavors, flavorIndex) && IndexesTiers(flavors, lower, tierIndex)
    }

    constructor (flavors: seq<Flavor>, lower: string -> string)
      ensures Valid() && this.flavors == flavors && this.lower == lower
    {
      this.flavors, this.lower := flavors, lower;
      flavorIndex, tierIndex := map[], map[];
      new;
      for i := 0 to |flavors|
        invariant this.flavors == flavors && this.lower == lower
        invariant IndexesIds(flavors[..i], flavorIndex)
        invariant IndexesTiers(flavors[..i], lower, tierIndex)
      {
        hide IndexesIds, IndexesTiers;
        var f := flavors[i];
        IndexOneId(flavors, i, flavorIndex);
        flavorIndex := flavorIndex[f.id := f];
        var tier := lower(f.tierId);
        IndexOneTier(flavors, lower, i, tierIndex);
        tierIndex := tierIndex[tier := (if tier in tierIndex then tierIndex[tier] else []) + [f]];
      }
      assert flavors[..|flavors|] == flavors;
    }

    method Get(id: string) returns (f: Option<Flavor>)
      requires Valid()
      ensures f == LastWithId(flavors, id)
    {
      f := if id in flavorIndex then Some(flavorIndex[id]) else None;
    }

    method FilterByTier(tierId: string) returns (list: seq<Flavor>)
      requires Valid()
      ensures list == OfTier(flavors, lower, lower(tierId))
    {
      var tier := lower(tierId);
      list := if tier in tierIndex then tierIndex[tier] else [];
    }

    method All() returns (list: seq<Flavor>)
      ensures list == flavors
    {
      list := flavors;
    }
  }

  lemma IndexOneId(fs: seq<Flavor>, i: nat, index: map<string, Flavor>)
    requires i < |fs| && IndexesIds(fs[..i], index)
    ensures IndexesIds(fs[..i + 1], index[fs[i].id := fs[i]])
  {
    assert fs[..i + 1][..i] == fs[..i];
  }

  lemma IndexOneTier(fs: seq<Flavor>, lower: string -> string, i: nat, index: map<string, seq<Flavor>>)
    requires i < |fs| && IndexesTiers(fs[..i], lower, index)
    ensures var tier := lower(fs[i].tierId);
      IndexesTiers(fs[..i + 1], lower, index[tier := (if tier in index then index[tier] else []) + [fs[i]]])
  {
    assert fs[..i + 1][..i] == fs[..i];
  }

  // ----- What an entry's caller may rely on -----

  /** The answer is the entry with that ID which no later entry shares, if there is one. */
  lemma {:induction false} LastWithIdIsLast(fs: seq<Flavor>, id: string)
    ensures LastWithId(fs, id).None? <==> forall i :: 0 <= i < |fs| ==> fs[i].id != id
    ensures forall i :: 0 <= i < |fs| && fs[i].id == id && (forall j :: i < j < |fs| ==> fs[j].id != id) ==>
      LastWithId(fs, id) == Some(fs[i])
  {
    if fs != [] {
      var n := |fs| - 1;
      LastWithIdIsLast(fs[..n], id);
      assert forall i :: 0 <= i < n ==> fs[..n][i] == fs[i];
    }
  }

  lemma {:induction false} FirstWithIdIsFirst(fs: seq<Flavor>, id: string)
    ensures FirstWithId(fs, id).None? <==> forall i :: 0 <= i < |fs| ==> fs[i].id != id
    ensures forall i :: 0 <= i < |fs| && fs[i].id == id && (forall j :: 0 <= j < i ==> fs[j].id != id) ==>
      FirstWithId(fs, id) == Some(fs[i])
  {
    if fs != [] {
      FirstWithIdIsFirst(fs[1..], id);
      assert forall i :: 0 < i < |fs| ==> fs[1..][i - 1] == fs[i];
    }
  }

  /** With distinct IDs the index answers what a scan of the catalog finds. */
  lemma IndexIsScan(fs: seq<Flavor>, id: string)
    requires DistinctIds(fs)
    ensures LastWithId(fs, id) == FirstWithId(fs, id)
  {
    LastWithIdIsLast(fs, id);
    FirstWithIdIsFirst(fs, id);
    if i :| 0 <= i < |fs| && fs[i].id == id {
      assert LastWithId(fs, id) == Some(fs[i]);
    }
  }

  /** The positions of the entries of a tier. */
  function Positions(fs: seq<Flavor>, lower: string -> string, tier: string): seq<nat> {
    if fs == [] then []
    else Positions(fs[..|fs| - 1], lower, tier) + if lower(fs[|fs| - 1].tierId) == tier then [|fs| - 1] else []
  }

  /**
   The buckets share out the catalog: each keeps catalog order, and each entry stands in its own tier's bucket
   only.
   */
  lemma {:induction false} BucketsPartition(fs: seq<Flavor>, lower: string -> string, tier: string)
    ensures var at, bucket := Positions(fs, lower, tier), OfTier(fs, lower, tier);
      && |bucket| == |at|
      && (forall j :: 0 <= j < |at| ==> at[j] < |fs| && bucket[j] == fs[at[j]])
      && (forall j, k :: 0 <= j < k < |at| ==> at[j] < at[k])
      && (forall i: nat :: i in at <==> i < |fs| && lower(fs[i].tierId) == tier)
  {
    if fs != [] {
      var n := |fs| - 1;
      BucketsPartition(fs[..n], lower, tier);
    }
  }
}
