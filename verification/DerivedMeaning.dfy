/** What the builds of the derived daily bars store and the incremental plan picks, said of source
    partitions, master rows and stored partitions only. */
module DerivedMeaning {
  import opened Common
  import opened DailyBars
  import opened Derived

  function VendorCode(row: MasterRow, vendor: Vendor): string {
    match vendor
    case Baostock => row.baostockCode
    case AkShare => row.akshareCode
  }

  ghost predicate HasPartition(sources: Sources, row: MasterRow, d: Dataset) {
    VendorCode(row, d.vendor) != "" && (d, VendorCode(row, d.vendor)) in sources
  }

  ghost predicate HasNone(sources: Sources, row: MasterRow) {
    forall d :: !HasPartition(sources, row, d)
  }

  /** No partition of the security has a row. */
  ghost predicate HasNoRow(sources: Sources, row: MasterRow) {
    forall d :: Partition(sources, row, d) == []
  }

  ghost predicate HashOf(hash: MasterHash, row: MasterRow) {
    && hash.identity == row.identity && hash.hashed == row.hashed
    && hash.baostockCode == row.baostockCode && hash.akshareCode == row.akshareCode
  }

  /** The dataset is in the signature if it has a partition, with the code and the rows. */
  ghost predicate Covers(signature: Signature, sources: Sources, row: MasterRow, d: Dataset) {
    && (d in signature.sources <==> HasPartition(sources, row, d))
    && (HasPartition(sources, row, d) ==>
          && signature.sources[d].0 == VendorCode(row, d.vendor)
          && signature.sources[d].1 == sources[(d, VendorCode(row, d.vendor))])
  }

  /** The manifest row was written for these sources and this master row. */
  ghost predicate Describes(manifest: Manifest, sources: Sources, row: MasterRow) {
    && (forall d :: Covers(manifest.signature, sources, row, d))
    && HashOf(manifest.signature.master, row) && HashOf(manifest.master, row)
  }

  /** The stored partition and manifest of a security are what its sources ask for. */
  ghost predicate IsCurrent(output: Output, sources: Sources, row: MasterRow) {
    var id := row.identity.id;
    if HasNoRow(sources, row) then id !in output.partitions && id !in output.manifests
    else
      && id in output.partitions && AreBarsOf(sources, row, output.partitions[id])
      && id in output.manifests && Describes(output.manifests[id], sources, row)
  }

  ghost predicate Untouched(before: Output, after: Output, id: string) {
    && (id in after.partitions <==> id in before.partitions)
    && (id in before.partitions ==> after.partitions[id] == before.partitions[id])
    && (id in after.manifests <==> id in before.manifests)
    && (id in before.manifests ==> after.manifests[id] == before.manifests[id])
  }

  /** A security with source partitions is left alone if it is stored, its manifest describes its
      sources, and they were not updated since the given time; one without if it is not stored. */
  ghost predicate IsDue(s: State, row: MasterRow, recent: string -> bool) {
    var id, output := row.identity.id, s.output;
    if HasNone(s.sources, row) then id in output.partitions
    else !(&& id in output.partitions && id in output.manifests
           && Describes(output.manifests[id], s.sources, row) && !recent(id))
  }

  // ---------------------------------------------------------------- signatures

  lemma {:induction false} PairsCover(sources: Sources, row: MasterRow, d: Dataset)
    ensures d in PairsOf(sources, row) <==> HasPartition(sources, row, d)
    ensures HasPartition(sources, row, d) ==>
      PairsOf(sources, row)[d] == (VendorCode(row, d.vendor), sources[(d, VendorCode(row, d.vendor))])
  {
    var m := EveryDataset(d);
    assert DATASETS[m] in DATASETS;
  }

  lemma {:induction false} DescribesIs(manifest: Manifest, sources: Sources, row: MasterRow)
    ensures Describes(manifest, sources, row)
       <==> manifest == Manifest(SignatureOf(sources, row), HashRow(row))
  {
    var pairs := PairsOf(sources, row);
    forall d { PairsCover(sources, row, d); }
    if Describes(manifest, sources, row) {
      var listed := manifest.signature.sources;
      forall d ensures (d in listed <==> d in pairs) && (d in pairs ==> listed[d] == pairs[d]) {
        assert Covers(manifest.signature, sources, row, d);
      }
      assert listed == pairs;
    }
    if manifest == Manifest(SignatureOf(sources, row), HashRow(row)) {
      assert forall d :: Covers(manifest.signature, sources, row, d);
    }
  }

  lemma {:induction false} NonePairs(sources: Sources, row: MasterRow)
    ensures HasNone(sources, row) <==> PairsOf(sources, row) == map[]
  {
    forall d { PairsCover(sources, row, d); }
    if PairsOf(sources, row) != map[] {
      var d :| d in PairsOf(sources, row);
      assert HasPartition(sources, row, d);
    }
  }

  lemma {:induction false} EmptyMeans(sources: Sources, row: MasterRow)
    ensures HasNoRow(sources, row) <==> Materialize(sources, row) == []
  {
    var bars := Materialize(sources, row);
    MaterializeMeans(sources, row);
    if bars != [] {
      assert IsBest(sources, row, bars[0]);
      var d, i :| BestOffer(sources, row, bars[0], d, i);
      assert Partition(sources, row, d) != [];
    }
    if !HasNoRow(sources, row) {
      var d :| Partition(sources, row, d) != [];
      var k := BarKey(Partition(sources, row, d)[0].date, d.adjustment);
      assert Offers(sources, row, d, 0, k);
      assert HasBar(bars, k);
    }
  }

  // ---------------------------------------------------------------- builds

  /** What an output holds of one security. */
  ghost predicate HoldsEntry(output: Output, e: Entry) {
    if e.bars == [] then e.id !in output.partitions && e.id !in output.manifests
    else
      && e.id in output.partitions && output.partitions[e.id] == e.bars
      && e.id in output.manifests && output.manifests[e.id] == e.manifest
  }

  lemma {:induction false} EntryIsCurrent(output: Output, sources: Sources, row: MasterRow)
    requires HoldsEntry(output, EntryOf(sources, row))
    ensures IsCurrent(output, sources, row)
  {
    EmptyMeans(sources, row);
    MaterializeMeans(sources, row);
    if row.identity.id in output.manifests { DescribesIs(output.manifests[row.identity.id], sources, row); }
  }

  lemma {:induction false} FullHolds(entries: seq<Entry>, i: nat)
    requires DistinctEntries(entries) && Filtered(entries) && i < |entries| && entries[i].id != ""
    ensures HoldsEntry(FullOutput(entries), entries[i])
  {
    FullOutputAt(entries, i);
    SameKeys(entries);
    if entries[i].bars != [] { FullManifestAt(entries, i); }
  }

  lemma {:induction false} PartitionHolds(entries: seq<Entry>, ids: set<string>, output: Output, i: nat)
    requires DistinctEntries(entries) && i < |entries| && entries[i].id != ""
    ensures entries[i].id in ids ==> HoldsEntry(PartitionOutput(entries, ids, output), entries[i])
    ensures entries[i].id !in ids ==> Untouched(output, PartitionOutput(entries, ids, output), entries[i].id)
  {
    var front := entries[..|entries| - 1];
    if i < |front| {
      PartitionHolds(front, ids, output, i);
    } else {
      OthersUntouched(front, ids, output, entries[i].id);
    }
  }

  lemma {:induction false} OthersUntouched(entries: seq<Entry>, ids: set<string>, output: Output, id: string)
    requires forall i :: 0 <= i < |entries| ==> entries[i].id != id || id == "" || id !in ids
    ensures Untouched(output, PartitionOutput(entries, ids, output), id)
  {
    if entries != [] { OthersUntouched(entries[..|entries| - 1], ids, output, id); }
  }

  lemma {:induction false} OnlyListed(entries: seq<Entry>, id: string)
    requires id in FullOutput(entries).partitions || id in FullOutput(entries).manifests
    ensures exists i :: 0 <= i < |entries| && entries[i].id == id && id != ""
  {
    var front, last := entries[..|entries| - 1], |entries| - 1;
    if !(entries[last].id == id && id != "") {
      OnlyListed(front, id);
      var i :| 0 <= i < |front| && front[i].id == id;
      assert entries[i].id == id;
    }
  }

  /** After a full build every security of the master is current, and nothing else is stored. */
  lemma {:induction false} FullBuildMeans(s: State, rebuilt: seq<MasterRow>)
    requires DistinctIds(WithMaster(s, rebuilt).master)
    ensures var master, t := if s.master == [] then rebuilt else s.master, FullBuild(s, rebuilt);
      && t.built && t.sources == s.sources && t.master == master
      && (forall i :: 0 <= i < |master| && master[i].identity.id != "" ==> IsCurrent(t.output, s.sources, master[i]))
      && forall id :: id in t.output.partitions || id in t.output.manifests ==> Listed(master, id)
  {
    var master, t := WithMaster(s, rebuilt).master, FullBuild(s, rebuilt);
    var entries := Entries(s.sources, master);
    EntriesFiltered(s.sources, master);
    assert DistinctEntries(entries);
    forall i | 0 <= i < |master| && master[i].identity.id != "" ensures IsCurrent(t.output, s.sources, master[i]) {
      FullHolds(entries, i);
      EntryIsCurrent(t.output, s.sources, master[i]);
    }
    forall id | id in t.output.partitions || id in t.output.manifests ensures Listed(master, id) {
      OnlyListed(entries, id);
      var i :| 0 <= i < |entries| && entries[i].id == id;
      assert master[i].identity.id == id;
    }
  }

  /** After a build of given securities those among them that the master lists are current, and all
      other stored ones are as before. */
  lemma {:induction false} PartitionBuildMeans(s: State, ids: set<string>, rebuilt: seq<MasterRow>)
    requires DistinctIds(WithMaster(s, rebuilt).master) && ids != {}
    ensures var master, t := if s.master == [] then rebuilt else s.master, PartitionBuild(s, ids, rebuilt);
      && t.sources == s.sources && t.master == master
      && (t.built <==> s.built || exists id :: id in ids && Listed(master, id))
      && (forall i :: 0 <= i < |master| && master[i].identity.id != "" && master[i].identity.id in ids ==>
            IsCurrent(t.output, s.sources, master[i]))
      && forall id :: !(Listed(master, id) && id in ids) ==> Untouched(s.output, t.output, id)
  {
    var master, t := WithMaster(s, rebuilt).master, PartitionBuild(s, ids, rebuilt);
    var entries := Entries(s.sources, master);
    assert DistinctEntries(entries);
    forall i | 0 <= i < |master| && master[i].identity.id != "" && master[i].identity.id in ids
      ensures IsCurrent(t.output, s.sources, master[i])
    {
      PartitionHolds(entries, ids, s.output, i);
      EntryIsCurrent(t.output, s.sources, master[i]);
    }
    forall id | !(Listed(master, id) && id in ids) ensures Untouched(s.output, t.output, id) {
      OthersUntouched(entries, ids, s.output, id);
    }
  }

  lemma {:induction false} ChangedIsDue(s: State, row: MasterRow, recent: string -> bool)
    ensures IsChanged(s, row, recent) <==> IsDue(s, row, recent)
  {
    var id := row.identity.id;
    NonePairs(s.sources, row);
    if id in s.output.manifests { DescribesIs(s.output.manifests[id], s.sources, row); }
  }

  /** The plan picks exactly the listed securities that are due. */
  lemma {:induction false} PlanMeans(s: State, recent: string -> bool, id: string)
    ensures id in ChangedIds(s, s.master, recent) <==>
      id != "" && exists i :: 0 <= i < |s.master| && s.master[i].identity.id == id && IsDue(s, s.master[i], recent)
  {
    ChangedIdsAre(s, s.master, recent, id);
    forall row { ChangedIsDue(s, row, recent); }
  }

  /** After an incremental build: with explicit ids those are current; else, if nothing was built or
      the master is empty, all; else those that were due. What is not rebuilt is as before. */
  lemma {:induction false} IncrementalBuildMeans(s: State, explicit: set<string>, recent: string -> bool,
                                                 rebuilt: seq<MasterRow>, i: nat)
    requires var master := WithMaster(s, rebuilt).master;
      DistinctIds(master) && i < |master| && master[i].identity.id != ""
    ensures var master := if s.master == [] then rebuilt else s.master;
      var row, t := master[i], IncrementalBuild(s, explicit, recent, rebuilt);
      var rebuild := if explicit != {} then row.identity.id in explicit
                     else s.master == [] || !s.built || IsDue(s, row, recent);
      if rebuild then IsCurrent(t.output, s.sources, row) else Untouched(s.output, t.output, row.identity.id)
  {
    var row := WithMaster(s, rebuilt).master[i];
    if explicit != {} {
      PartitionBuildMeans(s, explicit, rebuilt);
    } else if s.master == [] || !s.built {
      FullBuildMeans(s, rebuilt);
    } else {
      var ids := ChangedIds(s, s.master, recent);
      PlanMeans(s, recent, row.identity.id);
      OnlyRow(s.master, i);
      if ids != {} { PartitionBuildMeans(s, ids, rebuilt); }
    }
  }

  lemma {:induction false} OnlyRow(master: seq<MasterRow>, i: nat)
    requires DistinctIds(master) && i < |master|
    ensures forall k :: 0 <= k < |master| && master[k].identity.id == master[i].identity.id ==> k == i
  {
  }
}
