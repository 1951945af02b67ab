/** Full and incremental builds of the derived daily bars over changing sources and master rows.
    Hashes are modelled by the values they hash. */
module Derived {
  import opened Common
  import opened DailyBars

  /** What the hash of a master row is computed from. */
  datatype MasterHash = MasterHash(identity: Identity, baostockCode: string, akshareCode: string, hashed: int)

  function HashRow(row: MasterRow): MasterHash {
    MasterHash(row.identity, row.baostockCode, row.akshareCode, row.hashed)
  }

  /** The source partitions that exist for a security, with their contents. Each dataset occurs at
      most once, so the sorted list that is hashed is a map in another notation. */
  type Pairs = map<Dataset, (string, seq<SourceRow>)>

  datatype Signature = Signature(sources: Pairs, master: MasterHash)
  datatype Manifest = Manifest(signature: Signature, master: MasterHash)

  /** Derived partitions and their manifest rows, by security id. */
  datatype Output = Output(partitions: map<string, seq<Bar>>, manifests: map<string, Manifest>)

  datatype State = State(sources: Sources, master: seq<MasterRow>, built: bool, output: Output)

  function PairsOf(sources: Sources, row: MasterRow): Pairs {
    map d | d in DATASETS && CodeFor(row, d) != "" && (d, CodeFor(row, d)) in sources
      :: (CodeFor(row, d), sources[(d, CodeFor(row, d))])
  }

  function SignatureOf(sources: Sources, row: MasterRow): Signature {
    Signature(PairsOf(sources, row), HashRow(row))
  }

  /** Some partition of one vendor's three datasets has the row's code. */
  predicate IsCandidate(sources: Sources, row: MasterRow) {
    exists d :: d in DATASETS && CodeFor(row, d) != "" && (d, CodeFor(row, d)) in sources
  }

  // ---------------------------------------------------------------- builds

  /** What the loop of a build computes for one master row. */
  datatype Entry = Entry(id: string, candidate: bool, bars: seq<Bar>, manifest: Manifest)

  function EntryOf(sources: Sources, row: MasterRow): Entry {
    Entry(row.identity.id, IsCandidate(sources, row), Materialize(sources, row),
          Manifest(SignatureOf(sources, row), HashRow(row)))
  }

  function Entries(sources: Sources, master: seq<MasterRow>): (entries: seq<Entry>)
    ensures |entries| == |master|
  {
    seq(|master|, i requires 0 <= i < |master| => EntryOf(sources, master[i]))
  }

  function Put(output: Output, e: Entry): Output {
    Output(output.partitions[e.id := e.bars], output.manifests[e.id := e.manifest])
  }

  /** Partitions and manifests of a full build over some entries. */
  function FullOutput(entries: seq<Entry>): Output {
    if entries == [] then Output(map[], map[])
    else
      var before, e := FullOutput(entries[..|entries| - 1]), entries[|entries| - 1];
      if !e.candidate || e.id == "" || e.bars == [] then before else Put(before, e)
  }

  /** A build of the given securities only: empty ones lose their partition and manifest. */
  function PartitionOutput(entries: seq<Entry>, ids: set<string>, output: Output): Output {
    if entries == [] then output
    else
      ReplaceOne(entries[|entries| - 1], ids, PartitionOutput(entries[..|entries| - 1], ids, output))
  }

  function ReplaceOne(e: Entry, ids: set<string>, before: Output): Output {
    if e.id !in ids || e.id == "" then before
    else if e.bars == [] then Output(before.partitions - {e.id}, before.manifests - {e.id})
    else Put(before, e)
  }

  /** A stored security has to be rebuilt; `recent` says whose sources were updated since a given time. */
  predicate IsChanged(s: State, row: MasterRow, recent: string -> bool) {
    var id, pairs := row.identity.id, PairsOf(s.sources, row);
    if pairs == map[] then id in s.output.partitions
    else if id !in s.output.partitions then true
    else if id !in s.output.manifests then true
    else
      var signature, manifest := SignatureOf(s.sources, row), s.output.manifests[id];
      signature != manifest.signature || signature.master != manifest.master || recent(id)
  }

  function ChangedIds(s: State, master: seq<MasterRow>, recent: string -> bool): set<string> {
    if master == [] then {}
    else
      var before, row := ChangedIds(s, master[..|master| - 1], recent), master[|master| - 1];
      if row.identity.id != "" && IsChanged(s, row, recent) then before + {row.identity.id} else before
  }

  /** An empty master is built first; `rebuilt` is what that gives. */
  function WithMaster(s: State, rebuilt: seq<MasterRow>): State {
    if s.master == [] then s.(master := rebuilt) else s
  }

  function FullBuild(s: State, rebuilt: seq<MasterRow>): State {
    var t := WithMaster(s, rebuilt);
    t.(built := true, output := FullOutput(Entries(t.sources, t.master)))
  }

  /** Committing a partition, even an empty one, makes the dataset directory. */
  predicate Touches(master: seq<MasterRow>, ids: set<string>) {
    exists i :: 0 <= i < |master| && master[i].identity.id in ids && master[i].identity.id != ""
  }

  /** With no id nothing is read or written. */
  function PartitionBuild(s: State, ids: set<string>, rebuilt: seq<MasterRow>): State {
    if ids == {} then s
    else
      var t := WithMaster(s, rebuilt);
      t.(built := t.built || Touches(t.master, ids),
         output := PartitionOutput(Entries(t.sources, t.master), ids, t.output))
  }

  /** `--mode incremental`: explicit ids, or a full build when there is nothing to compare with, or
      the changed securities. */
  function IncrementalBuild(s: State, explicit: set<string>, recent: string -> bool, rebuilt: seq<MasterRow>): State {
    if explicit != {} then PartitionBuild(s, explicit, rebuilt)
    else if s.master == [] || !s.built then FullBuild(s, rebuilt)
    else PartitionBuild(s, ChangedIds(s, s.master, recent), rebuilt)
  }

  // ---------------------------------------------------------------- histories

  datatype Op =
    | WriteSource(dataset: Dataset, code: string, rows: seq<SourceRow>)
    | DeleteSource(dataset: Dataset, code: string)
    | SetMaster(master: seq<MasterRow>)
    | BuildFull(rebuilt: seq<MasterRow>)
    | BuildIncremental(explicit: set<string>, recent: string -> bool, rebuilt: seq<MasterRow>)

  function Next(s: State, op: Op): State {
    match op
    case WriteSource(d, code, rows) => s.(sources := s.sources[(d, code) := rows])
    case DeleteSource(d, code) => s.(sources := s.sources - {(d, code)})
    case SetMaster(master) => s.(master := master)
    case BuildFull(rebuilt) => FullBuild(s, rebuilt)
    case BuildIncremental(explicit, recent, rebuilt) => IncrementalBuild(s, explicit, recent, rebuilt)
  }

  const EMPTY: State := State(map[], [], false, Output(map[], map[]))

  ghost function After(ops: seq<Op>): State {
    if ops == [] then EMPTY else Next(After(ops[..|ops| - 1]), ops[|ops| - 1])
  }

  // ---------------------------------------------------------------- content follows the signature

  /** The rows of one dataset as a signature remembers them. */
  function FrameIn(pairs: Pairs, d: Dataset): seq<SourceRow> {
    if d in pairs then pairs[d].1 else []
  }

  function CombinedFrom(signature: Signature, n: nat): seq<Bar>
    requires n <= |DATASETS|
  {
    if n == 0 then []
    else CombinedFrom(signature, n - 1)
         + MapRows(FrameIn(signature.sources, DATASETS[n - 1]), DATASETS[n - 1], signature.master.identity)
  }

  /** The bars that a signature stands for. */
  function Content(signature: Signature): seq<Bar> { Arrange(CombinedFrom(signature, |DATASETS|)) }

  lemma {:induction false} CombinedBySignature(sources: Sources, row: MasterRow, n: nat)
    requires n <= |DATASETS|
    ensures Combined(sources, row, n) == CombinedFrom(SignatureOf(sources, row), n)
  {
    if n > 0 {
      CombinedBySignature(sources, row, n - 1);
      assert DATASETS[n - 1] in DATASETS;
      assert Frame(sources, row, DATASETS[n - 1]) == FrameIn(PairsOf(sources, row), DATASETS[n - 1]);
    }
  }

  /** Materializing reads nothing that the signature does not cover. */
  lemma {:induction false} MaterializeBySignature(sources: Sources, row: MasterRow)
    ensures Materialize(sources, row) == Content(SignatureOf(sources, row))
  {
    CombinedBySignature(sources, row, |DATASETS|);
  }

  lemma {:induction false} NothingCombined(signature: Signature, n: nat)
    requires n <= |DATASETS| && signature.sources == map[]
    ensures CombinedFrom(signature, n) == []
  {
    if n > 0 { NothingCombined(signature, n - 1); }
  }

  /** A security without source partitions materializes empty: the candidate filter drops no bars. */
  lemma {:induction false} FilterDropsOnlyEmpty(sources: Sources, row: MasterRow)
    ensures IsCandidate(sources, row) <==> PairsOf(sources, row) != map[]
    ensures !IsCandidate(sources, row) ==> Materialize(sources, row) == []
  {
    var pairs := PairsOf(sources, row);
    if IsCandidate(sources, row) {
      var d :| d in DATASETS && CodeFor(row, d) != "" && (d, CodeFor(row, d)) in sources;
      assert d in pairs;
    } else {
      assert pairs == map[];
      MaterializeBySignature(sources, row);
      NothingCombined(SignatureOf(sources, row), |DATASETS|);
      ArrangeEmpty([]);
    }
  }

  /** No partition is empty, and one that has a manifest holds what its signature stands for. */
  ghost predicate Faithful(output: Output) {
    && (forall id :: id in output.partitions ==> output.partitions[id] != [])
    && forall id :: id in output.manifests && id in output.partitions ==>
         output.partitions[id] == Content(output.manifests[id].signature)
  }

  ghost predicate Honest(entries: seq<Entry>) {
    forall i :: 0 <= i < |entries| ==> entries[i].bars == Content(entries[i].manifest.signature)
  }

  lemma {:induction false} EntriesHonest(sources: Sources, master: seq<MasterRow>)
    ensures Honest(Entries(sources, master))
  {
    forall i | 0 <= i < |master| { MaterializeBySignature(sources, master[i]); }
  }

  lemma {:induction false} FullFaithful(entries: seq<Entry>)
    requires Honest(entries)
    ensures Faithful(FullOutput(entries))
  {
    if entries != [] { FullFaithful(entries[..|entries| - 1]); }
  }

  lemma {:induction false} PartitionFaithful(entries: seq<Entry>, ids: set<string>, output: Output)
    requires Honest(entries) && Faithful(output)
    ensures Faithful(PartitionOutput(entries, ids, output))
  {
    if entries != [] { PartitionFaithful(entries[..|entries| - 1], ids, output); }
  }

  lemma {:induction false} FullBuildFaithful(s: State, rebuilt: seq<MasterRow>)
    ensures Faithful(FullBuild(s, rebuilt).output)
  {
    var t := WithMaster(s, rebuilt);
    EntriesHonest(t.sources, t.master);
    FullFaithful(Entries(t.sources, t.master));
  }

  lemma {:induction false} PartitionBuildFaithful(s: State, ids: set<string>, rebuilt: seq<MasterRow>)
    requires Faithful(s.output)
    ensures Faithful(PartitionBuild(s, ids, rebuilt).output)
  {
    var t := WithMaster(s, rebuilt);
    EntriesHonest(t.sources, t.master);
    PartitionFaithful(Entries(t.sources, t.master), ids, t.output);
  }

  lemma {:induction false} NextFaithful(s: State, op: Op)
    requires Faithful(s.output)
    ensures Faithful(Next(s, op).output)
  {
    match op
    case BuildFull(rebuilt) => FullBuildFaithful(s, rebuilt);
    case BuildIncremental(explicit, recent, rebuilt) =>
      FullBuildFaithful(s, rebuilt);
      PartitionBuildFaithful(s, explicit, rebuilt);
      PartitionBuildFaithful(s, ChangedIds(s, s.master, recent), rebuilt);
    case _ =>
  }

  /** The invariant of every history: a manifest never lies about its partition. */
  lemma {:induction false} HistoryFaithful(ops: seq<Op>)
    ensures Faithful(After(ops).output)
  {
    if ops != [] {
      HistoryFaithful(ops[..|ops| - 1]);
      NextFaithful(After(ops[..|ops| - 1]), ops[|ops| - 1]);
    }
  }

  // ---------------------------------------------------------------- incremental equals full

  ghost predicate DistinctIds(master: seq<MasterRow>) {
    forall i, j :: 0 <= i < j < |master| ==> master[i].identity.id != master[j].identity.id
  }

  ghost predicate DistinctEntries(entries: seq<Entry>) {
    forall i, j :: 0 <= i < j < |entries| ==> entries[i].id != entries[j].id
  }

  /** Entries that the candidate filter drops have no bars. */
  ghost predicate Filtered(entries: seq<Entry>) {
    forall i :: 0 <= i < |entries| && !entries[i].candidate ==> entries[i].bars == []
  }

  lemma {:induction false} EntriesFiltered(sources: Sources, master: seq<MasterRow>)
    ensures Filtered(Entries(sources, master))
  {
    forall i | 0 <= i < |master| { FilterDropsOnlyEmpty(sources, master[i]); }
  }

  function PartitionAt(output: Output, id: string): Option<seq<Bar>> {
    if id in output.partitions then Some(output.partitions[id]) else None
  }

  /** What the current master and sources ask for. */
  function Desired(bars: seq<Bar>): Option<seq<Bar>> {
    if bars == [] then None else Some(bars)
  }

  lemma {:induction false} FullOutputAt(entries: seq<Entry>, i: nat)
    requires DistinctEntries(entries) && Filtered(entries) && i < |entries| && entries[i].id != ""
    ensures PartitionAt(FullOutput(entries), entries[i].id) == Desired(entries[i].bars)
  {
    var front := entries[..|entries| - 1];
    if i < |front| { FullOutputAt(front, i); } else { FullOutputOthers(front, entries[i].id); }
  }

  /** A full build keeps no partition of a security that the master does not list. */
  lemma {:induction false} FullOutputOthers(entries: seq<Entry>, id: string)
    requires forall i :: 0 <= i < |entries| ==> entries[i].id != id || id == ""
    ensures PartitionAt(FullOutput(entries), id) == None
  {
    if entries != [] { FullOutputOthers(entries[..|entries| - 1], id); }
  }

  lemma {:induction false} PartitionOutputAt(entries: seq<Entry>, ids: set<string>, output: Output, i: nat)
    requires DistinctEntries(entries) && i < |entries| && entries[i].id != ""
    ensures PartitionAt(PartitionOutput(entries, ids, output), entries[i].id)
         == if entries[i].id in ids then Desired(entries[i].bars) else PartitionAt(output, entries[i].id)
  {
    var front := entries[..|entries| - 1];
    if i < |front| { PartitionOutputAt(front, ids, output, i); }
    else { PartitionOutputOthers(front, ids, output, entries[i].id); }
  }

  lemma {:induction false} PartitionOutputOthers(entries: seq<Entry>, ids: set<string>, output: Output, id: string)
    requires forall i :: 0 <= i < |entries| ==> entries[i].id != id || id == ""
    ensures PartitionAt(PartitionOutput(entries, ids, output), id) == PartitionAt(output, id)
  {
    if entries != [] { PartitionOutputOthers(entries[..|entries| - 1], ids, output, id); }
  }

  lemma {:induction false} ChangedIdsAre(s: State, master: seq<MasterRow>, recent: string -> bool, id: string)
    ensures id in ChangedIds(s, master, recent) <==>
      id != "" && exists i :: 0 <= i < |master| && master[i].identity.id == id && IsChanged(s, master[i], recent)
  {
    if master != [] {
      var front := master[..|master| - 1];
      ChangedIdsAre(s, front, recent, id);
      assert forall i :: 0 <= i < |front| ==> front[i] == master[i];
    }
  }

  /** What the plan leaves alone is current already. */
  lemma {:induction false} UnchangedIsCurrent(s: State, row: MasterRow, recent: string -> bool)
    requires Faithful(s.output) && !IsChanged(s, row, recent)
    ensures PartitionAt(s.output, row.identity.id) == Desired(Materialize(s.sources, row))
  {
    FilterDropsOnlyEmpty(s.sources, row);
    MaterializeBySignature(s.sources, row);
  }

  /** After an incremental build over any history, every security of the current master has exactly
      the partition that a full build in its place would give. */
  lemma {:induction false} IncrementalEqualsFull(ops: seq<Op>, recent: string -> bool, rebuilt: seq<MasterRow>, i: nat)
    requires var master := WithMaster(After(ops), rebuilt).master;
      DistinctIds(master) && i < |master| && master[i].identity.id != ""
    ensures var s := After(ops);
      var id := WithMaster(s, rebuilt).master[i].identity.id;
      PartitionAt(IncrementalBuild(s, {}, recent, rebuilt).output, id) == PartitionAt(FullBuild(s, rebuilt).output, id)
  {
    var s := After(ops);
    HistoryFaithful(ops);
    if s.master != [] && s.built { ComparedBuildAt(s, recent, rebuilt, i); }
  }

  lemma {:induction false} ComparedBuildAt(s: State, recent: string -> bool, rebuilt: seq<MasterRow>, i: nat)
    requires Faithful(s.output) && s.master != [] && s.built
    requires DistinctIds(s.master) && i < |s.master| && s.master[i].identity.id != ""
    ensures var id := s.master[i].identity.id;
      PartitionAt(IncrementalBuild(s, {}, recent, rebuilt).output, id) == PartitionAt(FullBuild(s, rebuilt).output, id)
  {
    var row, ids, entries := s.master[i], ChangedIds(s, s.master, recent), Entries(s.sources, s.master);
    EntriesFiltered(s.sources, s.master);
    assert DistinctEntries(entries);
    FullOutputAt(entries, i);
    PartitionOutputAt(entries, ids, s.output, i);
    ChangedIdsAre(s, s.master, recent, row.identity.id);
    if row.identity.id !in ids { UnchangedIsCurrent(s, row, recent); }
  }

  ghost predicate Listed(master: seq<MasterRow>, id: string) {
    exists i :: 0 <= i < |master| && master[i].identity.id == id && id != ""
  }

  /** Where the two builds of one state agree. */
  lemma {:induction false} AgreeAt(s: State, recent: string -> bool, rebuilt: seq<MasterRow>, id: string)
    requires Faithful(s.output) && s.built && s.master != [] && DistinctIds(s.master)
    ensures var inc, full := IncrementalBuild(s, {}, recent, rebuilt).output, FullBuild(s, rebuilt).output;
      if Listed(s.master, id) then PartitionAt(inc, id) == PartitionAt(full, id)
      else PartitionAt(inc, id) == PartitionAt(s.output, id) && PartitionAt(full, id) == None
  {
    if Listed(s.master, id) {
      var i :| 0 <= i < |s.master| && s.master[i].identity.id == id;
      ComparedBuildAt(s, recent, rebuilt, i);
    } else {
      var entries := Entries(s.sources, s.master);
      PartitionOutputOthers(entries, ChangedIds(s, s.master, recent), s.output, id);
      FullOutputOthers(entries, id);
    }
  }

  /** The whole derived dataset is the full build's exactly when no security with a partition has
      left the master: an incremental build never looks at those. */
  lemma {:induction false} IncrementalEqualsFullIff(ops: seq<Op>, recent: string -> bool, rebuilt: seq<MasterRow>)
    requires var s := After(ops); s.built && s.master != [] && DistinctIds(s.master)
    ensures var s := After(ops);
      IncrementalBuild(s, {}, recent, rebuilt).output.partitions == FullBuild(s, rebuilt).output.partitions
      <==> forall id :: id in s.output.partitions ==> Listed(s.master, id)
  {
    var s := After(ops);
    HistoryFaithful(ops);
    var inc, full := IncrementalBuild(s, {}, recent, rebuilt).output, FullBuild(s, rebuilt).output;
    forall id { AgreeAt(s, recent, rebuilt, id); }
    if forall id :: id in s.output.partitions ==> Listed(s.master, id) {
      forall id ensures PartitionAt(inc, id) == PartitionAt(full, id) {
        if !Listed(s.master, id) { assert PartitionAt(s.output, id) == None; }
      }
      SameAt(inc, full);
    } else {
      var id :| id in s.output.partitions && !Listed(s.master, id);
      assert PartitionAt(inc, id) != PartitionAt(full, id);
    }
  }

  lemma {:induction false} SameAt(a: Output, b: Output)
    requires forall id :: PartitionAt(a, id) == PartitionAt(b, id)
    ensures a.partitions == b.partitions
  {
    forall id ensures id in a.partitions <==> id in b.partitions { assert PartitionAt(a, id) == PartitionAt(b, id); }
    forall id | id in a.partitions ensures a.partitions[id] == b.partitions[id] {
      assert PartitionAt(a, id) == PartitionAt(b, id);
    }
  }

  lemma {:induction false} FullManifestAt(entries: seq<Entry>, i: nat)
    requires DistinctEntries(entries) && Filtered(entries) && i < |entries|
    requires entries[i].id != "" && entries[i].bars != []
    ensures var output := FullOutput(entries);
      entries[i].id in output.partitions && entries[i].id in output.manifests
      && output.manifests[entries[i].id] == entries[i].manifest
  {
    if i < |entries| - 1 { FullManifestAt(entries[..|entries| - 1], i); }
  }

  /** Nothing to do right after a full build, for a security with bars. */
  lemma {:induction false} FullBuildSettles(s: State, rebuilt: seq<MasterRow>, i: nat)
    requires var t := WithMaster(s, rebuilt);
      && DistinctIds(t.master) && i < |t.master|
      && t.master[i].identity.id != "" && Materialize(t.sources, t.master[i]) != []
    ensures !IsChanged(FullBuild(s, rebuilt), WithMaster(s, rebuilt).master[i], id => false)
  {
    var t := WithMaster(s, rebuilt);
    EntriesFiltered(t.sources, t.master);
    FilterDropsOnlyEmpty(t.sources, t.master[i]);
    FullManifestAt(Entries(t.sources, t.master), i);
  }

  lemma {:induction false} FullOutputStep(entries: seq<Entry>, i: nat)
    requires i < |entries|
    ensures var before, e := FullOutput(entries[..i]), entries[i];
      FullOutput(entries[..i + 1]) == if !e.candidate || e.id == "" || e.bars == [] then before else Put(before, e)
  {
    assert entries[..i + 1][..i] == entries[..i];
  }

  lemma {:induction false} PartitionOutputStep(entries: seq<Entry>, ids: set<string>, output: Output, i: nat)
    requires i < |entries|
    ensures PartitionOutput(entries[..i + 1], ids, output)
         == ReplaceOne(entries[i], ids, PartitionOutput(entries[..i], ids, output))
  {
    assert entries[..i + 1][..i] == entries[..i];
  }

  lemma {:induction false} TouchesStep(master: seq<MasterRow>, ids: set<string>, i: nat)
    requires i < |master|
    ensures Touches(master[..i + 1], ids)
       <==> Touches(master[..i], ids) || (master[i].identity.id in ids && master[i].identity.id != "")
  {
    assert master[..i + 1][i] == master[i];
    assert forall k :: 0 <= k < i ==> master[..i + 1][k] == master[..i][k];
  }

  lemma {:induction false} SameKeys(entries: seq<Entry>)
    ensures forall id :: id in FullOutput(entries).partitions <==> id in FullOutput(entries).manifests
  {
    if entries != [] { SameKeys(entries[..|entries| - 1]); }
  }

  // ---------------------------------------------------------------- the store

  class DerivedStore {
    var sources: Sources
    var master: seq<MasterRow>
    var built: bool
    var partitions: map<string, seq<Bar>>
    var manifests: map<string, Manifest>

    ghost function Abstract(): State
      reads this
    {
      State(sources, master, built, Output(partitions, manifests))
    }

    constructor ()
      ensures Abstract() == EMPTY
    {
      sources, master, built, partitions, manifests := map[], [], false, map[], map[];
    }

    /** One frame per dataset, concatenated in the order of the datasets. */
    method MaterializeSecurity(row: MasterRow) returns (bars: seq<Bar>)
      ensures bars == Materialize(sources, row) && AreBarsOf(sources, row, bars)
    {
      MaterializeMeans(sources, row);
      var combined: seq<Bar> := [];
      for n := 0 to |DATASETS|
        invariant combined == Combined(sources, row, n)
      {
        combined := combined + MapRows(Frame(sources, row, DATASETS[n]), DATASETS[n], row.identity);
      }
      bars := Arrange(combined);
    }

    method ReadOrBuildMaster(rebuilt: seq<MasterRow>)
      modifies this
      ensures Abstract() == WithMaster(old(Abstract()), rebuilt)
    {
      if master == [] { master := rebuilt; }
    }

    /** The loop of a full build: what is staged, and the signatures to record after the swap. */
    method StageAll() returns (staged: map<string, seq<Bar>>, signatures: map<string, Manifest>)
      ensures Output(staged, signatures) == FullOutput(Entries(sources, master))
    {
      ghost var entries := Entries(sources, master);
      staged, signatures := map[], map[];
      for i := 0 to |master|
        invariant Output(staged, signatures) == FullOutput(entries[..i])
      {
        FullOutputStep(entries, i);
        assert entries[i] == EntryOf(sources, master[i]);
        var id := master[i].identity.id;
        if !IsCandidate(sources, master[i]) || id == "" { continue; }
        var bars := MaterializeSecurity(master[i]);
        if bars == [] { continue; }
        staged := staged[id := bars];
        signatures := signatures[id := Manifest(SignatureOf(sources, master[i]), HashRow(master[i]))];
      }
      assert entries[..|master|] == entries;
    }

    /** `build_cn_stock_daily_bar` without security ids: stage every partition, swap the dataset
        directory, record the signatures, and drop the manifests that have no partition. */
    method BuildFull(rebuilt: seq<MasterRow>)
      modifies this
      ensures Abstract() == FullBuild(old(Abstract()), rebuilt)
    {
      ReadOrBuildMaster(rebuilt);
      var staged, signatures := StageAll();
      SameKeys(Entries(sources, master));
      partitions, built := staged, true;
      manifests := manifests + signatures;
      manifests := map id | id in manifests && id in partitions :: manifests[id];
      assert manifests == signatures;
    }

    method ReplacePartition(row: MasterRow, ids: set<string>, ghost e: Entry)
      requires e == EntryOf(sources, row)
      modifies this`partitions, this`manifests, this`built
      ensures Output(partitions, manifests) == ReplaceOne(e, ids, old(Output(partitions, manifests)))
      ensures built == (old(built) || (row.identity.id in ids && row.identity.id != ""))
    {
      var id := row.identity.id;
      if id !in ids || id == "" { return; }
      built := true;
      var bars := MaterializeSecurity(row);
      if bars == [] {
        partitions := partitions - {id};
        manifests := manifests - {id};
      } else {
        partitions := partitions[id := bars];
        manifests := manifests[id := Manifest(SignatureOf(sources, row), HashRow(row))];
      }
    }

    /** The loop of `_build_cn_stock_daily_bar_partitions`, one partition at a time. */
    method ReplacePartitions(ids: set<string>)
      modifies this`partitions, this`manifests, this`built
      ensures Output(partitions, manifests)
           == PartitionOutput(Entries(sources, master), ids, old(Output(partitions, manifests)))
      ensures built == (old(built) || Touches(master, ids))
    {
      ghost var entries, before := Entries(sources, master), Output(partitions, manifests);
      for i := 0 to |master|
        invariant Output(partitions, manifests) == PartitionOutput(entries[..i], ids, before)
        invariant built == (old(built) || Touches(master[..i], ids))
      {
        PartitionOutputStep(entries, ids, before, i);
        TouchesStep(master, ids, i);
        ReplacePartition(master[i], ids, entries[i]);
      }
      assert entries[..|master|] == entries && master[..|master|] == master;
    }

    method BuildPartitions(ids: set<string>, rebuilt: seq<MasterRow>)
      modifies this
      ensures Abstract() == PartitionBuild(old(Abstract()), ids, rebuilt)
    {
      if ids == {} { return; }
      ReadOrBuildMaster(rebuilt);
      ReplacePartitions(ids);
    }

    /** `_changed_security_ids_for_target`. */
    method ChangedSecurityIds(recent: string -> bool) returns (changed: set<string>)
      ensures changed == ChangedIds(Abstract(), master, recent)
    {
      changed := {};
      for i := 0 to |master|
        invariant changed == ChangedIds(Abstract(), master[..i], recent)
      {
        assert master[..i + 1][..i] == master[..i];
        var row := master[i];
        var id := row.identity.id;
        if id == "" { continue; }
        var pairs := PairsOf(sources, row);
        var due;
        if pairs == map[] {
          due := id in partitions;
        } else if id !in partitions || id !in manifests {
          due := true;
        } else {
          var signature, manifest := SignatureOf(sources, row), manifests[id];
          due := signature != manifest.signature || signature.master != manifest.master || recent(id);
        }
        if due { changed := changed + {id}; }
      }
      assert master[..|master|] == master;
    }

    /** `build_derived_datasets` for the daily bars in incremental mode: plan, then build. */
    method BuildIncremental(explicit: set<string>, recent: string -> bool, rebuilt: seq<MasterRow>)
      modifies this
      ensures Abstract() == IncrementalBuild(old(Abstract()), explicit, recent, rebuilt)
    {
      if explicit != {} {
        BuildPartitions(explicit, rebuilt);
      } else if master == [] || !built {
        BuildFull(rebuilt);
      } else {
        var changed := ChangedSecurityIds(recent);
        BuildPartitions(changed, rebuilt);
      }
    }
  }
}
