/** The canonical daily bars of one security, materialized from six vendor datasets. */
module DailyBars {
  import opened Common
  import opened Sorting

  datatype Vendor = Baostock | AkShare
  datatype Adjustment = Unadjusted | Qfq | Hfq
  datatype Dataset = Dataset(vendor: Vendor, adjustment: Adjustment)

  /** The datasets in the order their frames are concatenated. */
  const DATASETS: seq<Dataset> := [
    Dataset(Baostock, Unadjusted), Dataset(Baostock, Qfq), Dataset(Baostock, Hfq),
    Dataset(AkShare, Unadjusted), Dataset(AkShare, Qfq), Dataset(AkShare, Hfq)]

  /** The part of a security master row that its hash covers and that the bars use, the other
      hashed columns, and what the hash leaves out. */
  datatype Identity = Identity(id: string, code: string, exchange: string, name: string, active: bool)
  datatype MasterRow = MasterRow(identity: Identity, baostockCode: string, akshareCode: string, hashed: int, other: int)

  /** A source row; `extra` holds what AkShare does not map: previous close, trade status, ST flag. */
  datatype SourceRow = SourceRow(date: int, prices: int, extra: int, endpoint: Option<string>, quality: Option<string>)

  datatype Bar = Bar(date: int, security: Identity, adjustment: Adjustment, prices: int, extra: Option<int>,
                     source: Dataset, endpoint: string, quality: string)

  /** Partition contents by dataset and code; an existing partition may be empty. */
  type Sources = map<(Dataset, string), seq<SourceRow>>

  function CodeFor(row: MasterRow, d: Dataset): string {
    if d.vendor == Baostock then row.baostockCode else row.akshareCode
  }

  function WithDefault(value: Option<string>, default: string): string {
    if value.None? || value.value == "" then default else value.value
  }

  function MapRow(r: SourceRow, d: Dataset, security: Identity): Bar {
    if d.vendor == Baostock then
      Bar(r.date, security, d.adjustment, r.prices, Some(r.extra), d, "query_history_k_data_plus",
          "daily_bar_confirmed")
    else
      Bar(r.date, security, d.adjustment, r.prices, None, d,
          WithDefault(r.endpoint, "stock_zh_a_hist"), WithDefault(r.quality, "daily_bar_confirmed"))
  }

  function MapRows(rows: seq<SourceRow>, d: Dataset, security: Identity): seq<Bar> {
    seq(|rows|, i requires 0 <= i < |rows| => MapRow(rows[i], d, security))
  }

  /** The rows of one dataset for a security; no code and no partition both mean none. */
  function Frame(sources: Sources, row: MasterRow, d: Dataset): seq<SourceRow> {
    var code := CodeFor(row, d);
    if code != "" && (d, code) in sources then sources[(d, code)] else []
  }

  /** The first n frames, concatenated. */
  function Combined(sources: Sources, row: MasterRow, n: nat): seq<Bar>
    requires n <= |DATASETS|
  {
    if n == 0 then []
    else Combined(sources, row, n - 1) + MapRows(Frame(sources, row, DATASETS[n - 1]), DATASETS[n - 1], row.identity)
  }

  /** Baostock before confirmed before spot close before anything else. */
  function Rank(b: Bar): nat {
    if b.source.vendor == Baostock then 0
    else if b.quality == "daily_bar_confirmed" then 1
    else if b.quality == "spot_quote_close" then 2
    else 3
  }

  /** Alphabetical order of the adjustment names. */
  function AdjustmentOrder(a: Adjustment): nat {
    match a
    case Hfq => 0
    case Qfq => 1
    case Unadjusted => 2
  }

  datatype BarKey = BarKey(date: int, adjustment: Adjustment)

  function KeyOf(b: Bar): BarKey { BarKey(b.date, b.adjustment) }

  /** All rows carry one security id, so it decides no comparison. */
  predicate ByDateAndRank(a: Bar, b: Bar) {
    || a.date < b.date
    || (a.date == b.date
        && (|| AdjustmentOrder(a.adjustment) < AdjustmentOrder(b.adjustment)
            || (a.adjustment == b.adjustment && Rank(a) <= Rank(b))))
  }

  predicate ByAdjustment(a: Bar, b: Bar) {
    || AdjustmentOrder(a.adjustment) < AdjustmentOrder(b.adjustment)
    || (a.adjustment == b.adjustment && a.date <= b.date)
  }

  /** `_materialize_security_daily_bar` from the combined frame on. */
  function Arrange(bars: seq<Bar>): seq<Bar> {
    Sort(KeepFirst(Sort(bars, ByDateAndRank), KeyOf, {}), ByAdjustment)
  }

  function Materialize(sources: Sources, row: MasterRow): seq<Bar> {
    Arrange(Combined(sources, row, |DATASETS|))
  }

  // ---------------------------------------------------------------- which row wins

  lemma {:induction false} OrdersAreTotal()
    ensures TotalPreorder(ByDateAndRank) && TotalPreorder(ByAdjustment)
  {
  }

  /** The choice without any sorting: the first of the rows of least rank. */
  function Chosen(bars: seq<Bar>, k: BarKey): Option<Bar> {
    if bars == [] then None
    else
      var rest := Chosen(bars[1..], k);
      if KeyOf(bars[0]) == k && (rest.None? || Rank(bars[0]) <= Rank(rest.value)) then Some(bars[0]) else rest
  }

  lemma {:induction false} ChosenIsLeast(bars: seq<Bar>, k: BarKey)
    ensures Chosen(bars, k) == Least(bars, ByDateAndRank, KeyOf, k)
    ensures Chosen(bars, k).Some? ==> KeyOf(Chosen(bars, k).value) == k
  {
    if bars != [] { ChosenIsLeast(bars[1..], k); }
  }

  /** A bar is chosen exactly when there is one, and none of its key has a lower rank. */
  lemma {:induction false} ChosenHasLeastRank(bars: seq<Bar>, k: BarKey)
    ensures Chosen(bars, k).Some? <==> exists b :: b in bars && KeyOf(b) == k
    ensures Chosen(bars, k).Some? ==> Chosen(bars, k).value in bars && KeyOf(Chosen(bars, k).value) == k
    ensures Chosen(bars, k).Some? ==>
      forall b :: b in bars && KeyOf(b) == k ==> Rank(Chosen(bars, k).value) <= Rank(b)
  {
    if bars != [] {
      ChosenHasLeastRank(bars[1..], k);
      assert bars == [bars[0]] + bars[1..];
    }
  }

  /** Strict order by adjustment, then date: what the validators of the written frame ask for. */
  ghost predicate Validated(bars: seq<Bar>) {
    forall i, j :: 0 <= i < j < |bars| ==> ByAdjustment(bars[i], bars[j]) && KeyOf(bars[i]) != KeyOf(bars[j])
  }

  /** Whatever the sources hold, each (date, adjustment) of the combined rows comes out exactly once,
      as its chosen row, and the frame is in the order its validators accept. */
  lemma {:induction false} ArrangePicks(bars: seq<Bar>)
    ensures Validated(Arrange(bars))
    ensures forall b :: b in Arrange(bars) <==> Chosen(bars, KeyOf(b)) == Some(b)
  {
    OrdersAreTotal();
    var ranked := Sort(bars, ByDateAndRank);
    var kept := KeepFirst(ranked, KeyOf, {});
    KeepFirstIs(ranked, KeyOf, {});
    SortOrdered(kept, ByAdjustment);
    ArrangedDistinct(kept, Sort(kept, ByAdjustment), KeyOf);
    SortMembers(kept, ByAdjustment);
    forall b ensures b in kept <==> Chosen(bars, KeyOf(b)) == Some(b) {
      SortFirst(bars, ByDateAndRank, KeyOf, KeyOf(b));
      ChosenIsLeast(bars, KeyOf(b));
      FirstOfIs(ranked, KeyOf, KeyOf(b));
    }
  }

  /** The bars of a security: for each (date, adjustment) that any source has, one bar of least rank. */
  lemma {:induction false} SourceChoice(sources: Sources, row: MasterRow, k: BarKey)
    ensures var all, out := Combined(sources, row, |DATASETS|), Materialize(sources, row);
      && Validated(out)
      && ((exists b :: b in out && KeyOf(b) == k) <==> (exists b :: b in all && KeyOf(b) == k))
      && forall b, c :: b in out && c in all && KeyOf(b) == KeyOf(c) ==> b in all && Rank(b) <= Rank(c)
  {
    var all, out := Combined(sources, row, |DATASETS|), Materialize(sources, row);
    ArrangePicks(all);
    ChosenHasLeastRank(all, k);
    if Chosen(all, k).Some? { assert Chosen(all, k).value in out; }
    forall b | b in out ensures b in all && forall c :: c in all && KeyOf(b) == KeyOf(c) ==> Rank(b) <= Rank(c) {
      ChosenHasLeastRank(all, KeyOf(b));
    }
  }

  // ---------------------------------------------------------------- what the bars are

  /** The partition that a vendor's dataset has under the security's code with that vendor. */
  ghost function Partition(sources: Sources, row: MasterRow, d: Dataset): seq<SourceRow> {
    var code := match d.vendor case Baostock => row.baostockCode case AkShare => row.akshareCode;
    if code == "" || (d, code) !in sources then [] else sources[(d, code)]
  }

  /** The i-th row of that partition is for the date, and the dataset for the adjustment. */
  ghost predicate Offers(sources: Sources, row: MasterRow, d: Dataset, i: nat, k: BarKey) {
    i < |Partition(sources, row, d)| && Partition(sources, row, d)[i].date == k.date && d.adjustment == k.adjustment
  }

  /** The bar of a source row: identity from the master, figures from the row, and what AkShare leaves
      empty filled in. */
  ghost predicate StandsFor(b: Bar, r: SourceRow, d: Dataset, security: Identity) {
    && b.date == r.date && b.prices == r.prices && b.security == security
    && b.source == d && b.adjustment == d.adjustment
    && match d.vendor
       case Baostock =>
         b.extra == Some(r.extra) && b.endpoint == "query_history_k_data_plus" && b.quality == "daily_bar_confirmed"
       case AkShare =>
         && b.extra == None
         && (if r.endpoint in {None, Some("")} then b.endpoint == "stock_zh_a_hist" else r.endpoint == Some(b.endpoint))
         && (if r.quality in {None, Some("")} then b.quality == "daily_bar_confirmed" else r.quality == Some(b.quality))
  }

  /** A quality that AkShare leaves empty counts as confirmed. */
  ghost predicate IsConfirmed(r: SourceRow) { r.quality in {None, Some(""), Some("daily_bar_confirmed")} }

  /** Baostock's row is preferred to AkShare's; of AkShare's, a confirmed one to any other, and a spot close
      to what is neither. */
  ghost predicate Preferred(d: Dataset, r: SourceRow, e: Dataset, q: SourceRow) {
    || (d.vendor == Baostock && e.vendor == AkShare)
    || (d.vendor == AkShare && e.vendor == AkShare && IsConfirmed(r) && !IsConfirmed(q))
    || (d.vendor == AkShare && e.vendor == AkShare && r.quality == Some("spot_quote_close")
        && !IsConfirmed(q) && q.quality != Some("spot_quote_close"))
  }

  /** No offer for the date and adjustment is preferred to the i-th of dataset d. */
  ghost predicate NoneBetter(sources: Sources, row: MasterRow, d: Dataset, i: nat, k: BarKey)
    requires Offers(sources, row, d, i, k)
  {
    forall e, j: nat :: Offers(sources, row, e, j, k) ==>
      !Preferred(e, Partition(sources, row, e)[j], d, Partition(sources, row, d)[i])
  }

  /** And it is preferred to every earlier one of its partition. */
  ghost predicate FirstOfItsKind(sources: Sources, row: MasterRow, d: Dataset, i: nat, k: BarKey)
    requires Offers(sources, row, d, i, k)
  {
    forall j: nat :: j < i && Offers(sources, row, d, j, k) ==>
      Preferred(d, Partition(sources, row, d)[i], d, Partition(sources, row, d)[j])
  }

  ghost predicate BestOffer(sources: Sources, row: MasterRow, b: Bar, d: Dataset, i: nat) {
    var k := BarKey(b.date, b.adjustment);
    && Offers(sources, row, d, i, k) && StandsFor(b, Partition(sources, row, d)[i], d, row.identity)
    && NoneBetter(sources, row, d, i, k) && FirstOfItsKind(sources, row, d, i, k)
  }

  /** By adjustment name (hfq, qfq, unadjusted), then by date. */
  ghost predicate Before(a: Bar, b: Bar) {
    match (a.adjustment, b.adjustment)
    case (Hfq, Qfq) => true
    case (Hfq, Unadjusted) => true
    case (Qfq, Unadjusted) => true
    case (x, y) => x == y && a.date < b.date
  }

  ghost predicate HasBar(bars: seq<Bar>, k: BarKey) {
    exists b :: b in bars && b.date == k.date && b.adjustment == k.adjustment
  }

  ghost predicate IsBest(sources: Sources, row: MasterRow, b: Bar) {
    exists d, i :: BestOffer(sources, row, b, d, i)
  }

  /** The bars of a security, said without ranks and sorts: one for every date and adjustment that is
      offered, the best offer, in order. */
  ghost predicate AreBarsOf(sources: Sources, row: MasterRow, bars: seq<Bar>) {
    && (forall i, j :: 0 <= i < j < |bars| ==> Before(bars[i], bars[j]))
    && (forall b :: b in bars ==> IsBest(sources, row, b))
    && forall d, i, k :: Offers(sources, row, d, i, k) ==> HasBar(bars, k)
  }

  lemma {:induction false} PartitionIsFrame(sources: Sources, row: MasterRow, d: Dataset)
    ensures Partition(sources, row, d) == Frame(sources, row, d)
  {
  }

  lemma {:induction false} MapRowStands(r: SourceRow, d: Dataset, security: Identity)
    ensures StandsFor(MapRow(r, d, security), r, d, security)
  {
  }

  lemma {:induction false} RankPrefers(r: SourceRow, d: Dataset, q: SourceRow, e: Dataset, security: Identity)
    ensures Rank(MapRow(r, d, security)) < Rank(MapRow(q, e, security)) <==> Preferred(d, r, e, q)
  {
  }

  lemma {:induction false} EveryDataset(d: Dataset) returns (m: nat)
    ensures m < |DATASETS| && DATASETS[m] == d
  {
    m := (if d.vendor == Baostock then 0 else 3) + match d.adjustment case Unadjusted => 0 case Qfq => 1 case Hfq => 2;
  }

  /** Where the i-th row of the m-th frame stands in the concatenation. */
  lemma {:induction false} PlaceOf(sources: Sources, row: MasterRow, n: nat, m: nat, i: nat)
    requires m < n <= |DATASETS| && i < |Frame(sources, row, DATASETS[m])|
    ensures var p := |Combined(sources, row, m)| + i;
      p < |Combined(sources, row, n)|
      && Combined(sources, row, n)[p] == MapRow(Frame(sources, row, DATASETS[m])[i], DATASETS[m], row.identity)
  {
    if m < n - 1 { PlaceOf(sources, row, n - 1, m, i); }
  }

  lemma {:induction false} FoundAt(sources: Sources, row: MasterRow, n: nat, p: nat) returns (m: nat, i: nat)
    requires n <= |DATASETS| && p < |Combined(sources, row, n)|
    ensures m < n && i < |Frame(sources, row, DATASETS[m])| && p == |Combined(sources, row, m)| + i
    ensures Combined(sources, row, n)[p] == MapRow(Frame(sources, row, DATASETS[m])[i], DATASETS[m], row.identity)
  {
    var before := |Combined(sources, row, n - 1)|;
    if p < before {
      m, i := FoundAt(sources, row, n - 1, p);
    } else {
      m, i := n - 1, p - before;
    }
  }

  /** The chosen bar ranks strictly below every earlier one of its key. */
  lemma {:induction false} ChosenIsFirst(bars: seq<Bar>, k: BarKey) returns (p: nat)
    requires Chosen(bars, k).Some?
    ensures p < |bars| && bars[p] == Chosen(bars, k).value
    ensures forall q :: 0 <= q < p && KeyOf(bars[q]) == k ==> Rank(bars[p]) < Rank(bars[q])
  {
    if KeyOf(bars[0]) == k && (Chosen(bars[1..], k).None? || Rank(bars[0]) <= Rank(Chosen(bars[1..], k).value)) {
      p := 0;
    } else {
      var q := ChosenIsFirst(bars[1..], k);
      p := q + 1;
      forall j | 0 <= j < p && KeyOf(bars[j]) == k ensures Rank(bars[p]) < Rank(bars[j]) {
        if j > 0 { assert bars[j] == bars[1..][j - 1]; }
      }
    }
  }

  /** An offer stands in the concatenation, as a bar of its key. */
  lemma {:induction false} OfferAt(sources: Sources, row: MasterRow, m: nat, i: nat, k: BarKey) returns (p: nat)
    requires m < |DATASETS| && Offers(sources, row, DATASETS[m], i, k)
    ensures p == |Combined(sources, row, m)| + i && p < |Combined(sources, row, |DATASETS|)|
    ensures var b := Combined(sources, row, |DATASETS|)[p];
      b == MapRow(Partition(sources, row, DATASETS[m])[i], DATASETS[m], row.identity) && KeyOf(b) == k
  {
    PartitionIsFrame(sources, row, DATASETS[m]);
    PlaceOf(sources, row, |DATASETS|, m, i);
    MapRowStands(Partition(sources, row, DATASETS[m])[i], DATASETS[m], row.identity);
    p := |Combined(sources, row, m)| + i;
  }

  lemma {:induction false} LeastHasNoneBetter(sources: Sources, row: MasterRow, b: Bar, d: Dataset, i: nat, k: BarKey)
    requires Offers(sources, row, d, i, k) && b == MapRow(Partition(sources, row, d)[i], d, row.identity)
    requires forall c :: c in Combined(sources, row, |DATASETS|) && KeyOf(c) == k ==> Rank(b) <= Rank(c)
    ensures NoneBetter(sources, row, d, i, k)
  {
    forall e, j: nat | Offers(sources, row, e, j, k)
      ensures !Preferred(e, Partition(sources, row, e)[j], d, Partition(sources, row, d)[i])
    {
      var n := EveryDataset(e);
      var p := OfferAt(sources, row, n, j, k);
      RankPrefers(Partition(sources, row, e)[j], e, Partition(sources, row, d)[i], d, row.identity);
    }
  }

  lemma {:induction false} FirstIsFirstOfItsKind(sources: Sources, row: MasterRow, m: nat, i: nat, k: BarKey, p: nat)
    requires m < |DATASETS| && Offers(sources, row, DATASETS[m], i, k) && p == |Combined(sources, row, m)| + i
    requires p < |Combined(sources, row, |DATASETS|)|
    requires var all := Combined(sources, row, |DATASETS|);
      forall q :: 0 <= q < p && KeyOf(all[q]) == k ==> Rank(all[p]) < Rank(all[q])
    ensures FirstOfItsKind(sources, row, DATASETS[m], i, k)
  {
    var d := DATASETS[m];
    var at := OfferAt(sources, row, m, i, k);
    forall j: nat | j < i && Offers(sources, row, d, j, k)
      ensures Preferred(d, Partition(sources, row, d)[i], d, Partition(sources, row, d)[j])
    {
      var q := OfferAt(sources, row, m, j, k);
      RankPrefers(Partition(sources, row, d)[i], d, Partition(sources, row, d)[j], d, row.identity);
    }
  }

  lemma {:induction false} ChosenIsBest(sources: Sources, row: MasterRow, b: Bar)
    requires Chosen(Combined(sources, row, |DATASETS|), KeyOf(b)) == Some(b)
    ensures IsBest(sources, row, b)
  {
    var all, k := Combined(sources, row, |DATASETS|), KeyOf(b);
    ChosenHasLeastRank(all, k);
    var p := ChosenIsFirst(all, k);
    var m, i := FoundAt(sources, row, |DATASETS|, p);
    var d := DATASETS[m];
    PartitionIsFrame(sources, row, d);
    MapRowStands(Frame(sources, row, d)[i], d, row.identity);
    assert Offers(sources, row, d, i, k);
    LeastHasNoneBetter(sources, row, b, d, i, k);
    FirstIsFirstOfItsKind(sources, row, m, i, k, p);
    assert BestOffer(sources, row, b, d, i);
  }

  /** What materializing a security gives, for whatever its sources hold. */
  lemma {:induction false} MaterializeMeans(sources: Sources, row: MasterRow)
    ensures AreBarsOf(sources, row, Materialize(sources, row))
  {
    var all, out := Combined(sources, row, |DATASETS|), Materialize(sources, row);
    ArrangePicks(all);
    forall b | b in out ensures IsBest(sources, row, b) { ChosenIsBest(sources, row, b); }
    forall d, i, k | Offers(sources, row, d, i, k) ensures HasBar(out, k) {
      var m := EveryDataset(d);
      var p := OfferAt(sources, row, m, i, k);
      assert all[p] in all;
      ChosenHasLeastRank(all, k);
      assert Chosen(all, k).value in out;
    }
  }

  /** Nothing comes out exactly when nothing went in. */
  lemma {:induction false} ArrangeEmpty(bars: seq<Bar>)
    ensures Arrange(bars) == [] <==> bars == []
  {
    if bars == [] {
      assert Sort(bars, ByDateAndRank) == [];
    } else {
      ArrangePicks(bars);
      ChosenHasLeastRank(bars, KeyOf(bars[0]));
      var b := Chosen(bars, KeyOf(bars[0])).value;
      assert b in Arrange(bars);
    }
  }
}
