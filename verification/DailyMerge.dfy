/** The data side of the Baostock daily update for one code: merging the lookback window into the
    stored history, or refetching all of it. */
module DailyMerge {
  import opened Common
  import opened Sorting
  import opened Adjustments

  function DateOf(b: Bar): int { b.date }

  predicate ByBarDate(a: Bar, b: Bar) { a.date <= b.date }

  function At(rows: seq<Bar>, date: int): Option<Bar> { LastOf(rows, DateOf, date) }

  /** `merge_daily_frames`: old and new rows, the last of each date, by date. */
  function Merge(existing: seq<Bar>, incoming: seq<Bar>): seq<Bar> {
    Sort(KeepLast(existing + incoming, DateOf), ByBarDate)
  }

  /** The rows dated in [lo, hi], in their order. */
  function InRange(rows: seq<Bar>, lo: int, hi: int): seq<Bar> {
    if rows == [] then []
    else if lo <= rows[0].date <= hi then [rows[0]] + InRange(rows[1..], lo, hi)
    else InRange(rows[1..], lo, hi)
  }

  function OutOfRange(rows: seq<Bar>, lo: int, hi: int): seq<Bar> {
    if rows == [] then []
    else if lo <= rows[0].date <= hi then OutOfRange(rows[1..], lo, hi)
    else [rows[0]] + OutOfRange(rows[1..], lo, hi)
  }

  /** `replace_daily_range`. */
  function ReplaceRange(existing: seq<Bar>, incoming: seq<Bar>, lo: int, hi: int): seq<Bar> {
    Merge(OutOfRange(existing, lo, hi), incoming)
  }

  /** A stored row of the lookback is missing from the fetched ones or has other values. */
  predicate DifferOnOverlap(existing: seq<Bar>, incoming: seq<Bar>, lo: int, hi: int) {
    exists i :: 0 <= i < |InRange(existing, lo, hi)|
      && var d := InRange(existing, lo, hi)[i].date;
         At(InRange(existing, lo, hi), d) != At(InRange(incoming, lo, hi), d)
  }

  /** `_partial_unadjusted_base`: `None` asks for a full refetch. */
  function PartialBase(existing: seq<Bar>, incoming: seq<Bar>, lo: int, hi: int): Option<seq<Bar>> {
    if InRange(existing, lo, hi) == [] then None
    else if DifferOnOverlap(existing, incoming, lo, hi) then None
    else Some(Merge(existing, incoming))
  }

  /** The unadjusted history after a partial run over [lo, hi]; `provider` is the provider's whole
      history up to hi. */
  function PartialRun(existing: seq<Bar>, provider: seq<Bar>, lo: int, hi: int): seq<Bar> {
    var base := PartialBase(existing, InRange(provider, lo, hi), lo, hi);
    if base.Some? then base.value else provider
  }

  // ---------------------------------------------------------------- lookups

  lemma {:induction false} DateOrderTotal()
    ensures TotalPreorder(ByBarDate)
  {
  }

  lemma {:induction false} MergeAt(existing: seq<Bar>, incoming: seq<Bar>, date: int)
    ensures At(Merge(existing, incoming), date)
         == if At(incoming, date).Some? then At(incoming, date) else At(existing, date)
  {
    var all := existing + incoming;
    DateOrderTotal();
    KeepLastIs(all, DateOf);
    SortOrdered(KeepLast(all, DateOf), ByBarDate);
    ArrangedLookup(KeepLast(all, DateOf), Sort(KeepLast(all, DateOf), ByBarDate), DateOf, date);
    LastOfConcat(existing, incoming, DateOf, date);
  }

  ghost predicate Ascending(rows: seq<Bar>) {
    forall i, j :: 0 <= i < j < |rows| ==> rows[i].date < rows[j].date
  }

  lemma {:induction false} MergeAscends(existing: seq<Bar>, incoming: seq<Bar>)
    ensures Ascending(Merge(existing, incoming))
  {
    var kept, out := KeepLast(existing + incoming, DateOf), Merge(existing, incoming);
    DateOrderTotal();
    KeepLastIs(existing + incoming, DateOf);
    SortOrdered(kept, ByBarDate);
    ArrangedDistinct(kept, Sort(kept, ByBarDate), DateOf);
    forall i, j | 0 <= i < j < |out| ensures out[i].date < out[j].date {
      assert ByBarDate(out[i], out[j]) && DateOf(out[i]) != DateOf(out[j]);
    }
  }

  lemma {:induction false} InRangeAt(rows: seq<Bar>, lo: int, hi: int, date: int)
    ensures At(InRange(rows, lo, hi), date) == if lo <= date <= hi then At(rows, date) else None
    ensures At(OutOfRange(rows, lo, hi), date) == if lo <= date <= hi then None else At(rows, date)
  {
    if rows != [] {
      InRangeAt(rows[1..], lo, hi, date);
      LastOfIs(rows[1..], DateOf, date);
      if lo <= rows[0].date <= hi {
        assert InRange(rows, lo, hi)[1..] == InRange(rows[1..], lo, hi);
      } else {
        assert OutOfRange(rows, lo, hi)[1..] == OutOfRange(rows[1..], lo, hi);
      }
    }
  }

  lemma {:induction false} AtAscending(rows: seq<Bar>, i: nat)
    requires Ascending(rows) && i < |rows|
    ensures At(rows, rows[i].date) == Some(rows[i])
  {
    LastOfDistinct(rows, DateOf, rows[i]);
  }

  /** Rows in strict date order are determined by what is found under each date. */
  lemma {:induction false} SameByDate(a: seq<Bar>, b: seq<Bar>)
    requires Ascending(a) && Ascending(b)
    requires forall d :: At(a, d) == At(b, d)
    ensures a == b
  {
    if a == [] || b == [] {
      if b != [] { AtAscending(b, 0); }
      if a != [] { AtAscending(a, 0); }
    } else {
      SameFirst(a, b);
      SameFirst(b, a);
      AtAscending(a, 0);
      AtAscending(b, 0);
      assert At(a, a[0].date) == At(b, a[0].date);
      forall d ensures At(a[1..], d) == At(b[1..], d) {
        assert At(a, d) == At(b, d);
        FirstOnly(a, d);
        FirstOnly(b, d);
      }
      SameByDate(a[1..], b[1..]);
      assert a == [a[0]] + a[1..] && b == [b[0]] + b[1..];
    }
  }

  lemma {:induction false} SameFirst(a: seq<Bar>, b: seq<Bar>)
    requires Ascending(a) && Ascending(b) && a != [] && b != []
    requires forall d :: At(a, d) == At(b, d)
    ensures b[0].date <= a[0].date
  {
    AtAscending(a, 0);
    assert At(b, a[0].date) == Some(a[0]);
    LastOfIs(b, DateOf, a[0].date);
    var j :| 0 <= j < |b| && b[j] == a[0];
    assert j == 0 || b[0].date < b[j].date;
  }

  lemma {:induction false} FirstOnly(a: seq<Bar>, d: int)
    requires Ascending(a) && a != []
    ensures At(a[1..], d) == if d == a[0].date then None else At(a, d)
  {
    LastOfIs(a[1..], DateOf, d);
    assert forall i :: 0 <= i < |a[1..]| ==> a[0].date < a[1..][i].date;
  }

  // ---------------------------------------------------------------- partial equals full

  /** Outside the lookback the stored rows are the provider's: so none is later than its end. */
  ghost predicate SameOutside(existing: seq<Bar>, provider: seq<Bar>, lo: int, hi: int) {
    forall d :: At(OutOfRange(existing, lo, hi), d) == At(OutOfRange(provider, lo, hi), d)
  }

  /** Without a conflict every stored row of the lookback is the provider's. */
  lemma {:induction false} AgreeOnOverlap(existing: seq<Bar>, incoming: seq<Bar>, lo: int, hi: int, date: int)
    requires !DifferOnOverlap(existing, incoming, lo, hi) && lo <= date <= hi
    ensures At(existing, date).Some? ==> At(incoming, date) == At(existing, date)
  {
    var window := InRange(existing, lo, hi);
    InRangeAt(existing, lo, hi, date);
    InRangeAt(incoming, lo, hi, date);
    LastOfIs(window, DateOf, date);
    if At(existing, date).Some? {
      var b :| b in window && DateOf(b) == date;
      var i :| 0 <= i < |window| && window[i] == b;
      assert At(window, window[i].date) == At(InRange(incoming, lo, hi), window[i].date);
    }
  }

  /** A full refetch is asked for exactly when the lookback holds no stored row, or one that the
      provider lacks or has with other values. */
  lemma {:induction false} RefetchIff(existing: seq<Bar>, provider: seq<Bar>, lo: int, hi: int)
    ensures PartialBase(existing, InRange(provider, lo, hi), lo, hi).None?
       <==> || (forall i :: 0 <= i < |existing| ==> !(lo <= existing[i].date <= hi))
            || exists d :: lo <= d <= hi && At(existing, d).Some? && At(existing, d) != At(provider, d)
  {
    var incoming, window := InRange(provider, lo, hi), InRange(existing, lo, hi);
    InRangeEmpty(existing, lo, hi);
    forall d ensures At(incoming, d) == if lo <= d <= hi then At(provider, d) else None
             ensures At(window, d) == if lo <= d <= hi then At(existing, d) else None
             ensures At(InRange(incoming, lo, hi), d) == if lo <= d <= hi then At(incoming, d) else None
    {
      InRangeAt(provider, lo, hi, d);
      InRangeAt(existing, lo, hi, d);
      InRangeAt(incoming, lo, hi, d);
    }
    if DifferOnOverlap(existing, incoming, lo, hi) {
      var i :| 0 <= i < |window| && At(window, window[i].date) != At(InRange(incoming, lo, hi), window[i].date);
      LastOfIs(window, DateOf, window[i].date);
      assert window[i] in window && DateOf(window[i]) == window[i].date;
    } else {
      forall d | lo <= d <= hi && At(existing, d).Some? ensures At(existing, d) == At(provider, d) {
        AgreeOnOverlap(existing, incoming, lo, hi, d);
      }
    }
  }

  lemma {:induction false} InRangeEmpty(rows: seq<Bar>, lo: int, hi: int)
    ensures InRange(rows, lo, hi) == [] <==> forall i :: 0 <= i < |rows| ==> !(lo <= rows[i].date <= hi)
  {
    if rows != [] {
      InRangeEmpty(rows[1..], lo, hi);
      assert forall i :: 0 <= i < |rows[1..]| ==> rows[1..][i] == rows[i + 1];
      assert forall i :: 0 < i < |rows| ==> rows[i] == rows[1..][i - 1];
    }
  }

  /** A partial run leaves exactly the provider's history if and only if it refetched, or the stored
      rows outside the lookback were the provider's. */
  lemma {:induction false} PartialRunIsFullIff(existing: seq<Bar>, provider: seq<Bar>, lo: int, hi: int)
    requires Ascending(provider)
    ensures PartialRun(existing, provider, lo, hi) == provider
       <==> PartialBase(existing, InRange(provider, lo, hi), lo, hi).None? || SameOutside(existing, provider, lo, hi)
  {
    var incoming := InRange(provider, lo, hi);
    if PartialBase(existing, incoming, lo, hi).Some? {
      var out := Merge(existing, incoming);
      MergeAscends(existing, incoming);
      forall d ensures At(out, d) == if lo <= d <= hi then At(provider, d) else At(existing, d) {
        MergeAt(existing, incoming, d);
        InRangeAt(provider, lo, hi, d);
        if lo <= d <= hi {
          AgreeOnOverlap(existing, incoming, lo, hi, d);
          InRangeAt(incoming, lo, hi, d);
        }
      }
      forall d ensures At(OutOfRange(existing, lo, hi), d) == (if lo <= d <= hi then None else At(existing, d))
               ensures At(OutOfRange(provider, lo, hi), d) == (if lo <= d <= hi then None else At(provider, d))
      {
        InRangeAt(existing, lo, hi, d);
        InRangeAt(provider, lo, hi, d);
      }
      if SameOutside(existing, provider, lo, hi) {
        forall d ensures At(out, d) == At(provider, d) {
          assert At(OutOfRange(existing, lo, hi), d) == At(OutOfRange(provider, lo, hi), d);
        }
        SameByDate(out, provider);
      } else {
        var d :| At(OutOfRange(existing, lo, hi), d) != At(OutOfRange(provider, lo, hi), d);
        assert At(out, d) != At(provider, d);
      }
    }
  }

  /** Which of the three daily datasets, with its adjust flag. */
  datatype Target = Unadjusted | WithFactors(factors: seq<Factor>, flag: string)

  /** `_daily_frame_from_unadjusted`: what is written for a planned dataset. */
  function FrameFor(target: Target, unadjusted: seq<Bar>): seq<Bar> {
    match target
    case Unadjusted => unadjusted
    case WithFactors(factors, flag) => Adjusted(unadjusted, factors, flag)
  }

  /** What a full-mode run writes. */
  function FullRun(target: Target, provider: seq<Bar>): seq<Bar> { FrameFor(target, provider) }

  /** The unadjusted frame itself, or each of its rows scaled by a latest factor on or before its date. */
  lemma {:induction false} FrameForMeans(target: Target, unadjusted: seq<Bar>)
    ensures target.Unadjusted? ==> FrameFor(target, unadjusted) == unadjusted
    ensures target.WithFactors? ==> MayAdjust(unadjusted, target.factors, target.flag, FrameFor(target, unadjusted))
  {
    if target.WithFactors? { AdjustedMayBe(unadjusted, target.factors, target.flag); }
  }

  /** If the stored rows before the lookback are the provider's and none is later than its end, a
      partial run writes for every planned dataset the frame of a full-mode run. */
  lemma {:induction false} PartialEqualsFullMode(existing: seq<Bar>, provider: seq<Bar>, lo: int, hi: int,
                                                 target: Target)
    requires Ascending(provider)
    requires forall i :: 0 <= i < |provider| ==> provider[i].date <= hi
    requires forall i :: 0 <= i < |existing| ==> existing[i].date <= hi
    requires forall d :: d < lo ==> At(existing, d) == At(provider, d)
    ensures FrameFor(target, PartialRun(existing, provider, lo, hi)) == FullRun(target, provider)
  {
    forall d ensures At(OutOfRange(existing, lo, hi), d) == At(OutOfRange(provider, lo, hi), d) {
      InRangeAt(existing, lo, hi, d);
      InRangeAt(provider, lo, hi, d);
      LastOfIs(existing, DateOf, d);
      LastOfIs(provider, DateOf, d);
    }
    PartialRunIsFullIff(existing, provider, lo, hi);
  }

  /** Day after day: runs over a growing provider history whose old rows do not change keep the
      stored history equal to the provider's, as long as each lookback starts no later than the end
      of the run before. */
  lemma {:induction false} NextDayStays(yesterday: seq<Bar>, today: seq<Bar>, lo: int, hi: int)
    requires Ascending(today) && yesterday <= today
    requires forall i :: 0 <= i < |today| ==> today[i].date <= hi
    requires forall i :: |yesterday| <= i < |today| ==> lo <= today[i].date
    ensures PartialRun(yesterday, today, lo, hi) == today
  {
    var rest := today[|yesterday|..];
    assert today == yesterday + rest;
    forall d | d < lo ensures At(yesterday, d) == At(today, d) {
      LastOfConcat(yesterday, rest, DateOf, d);
      LastOfIs(rest, DateOf, d);
      assert forall i :: 0 <= i < |rest| ==> lo <= rest[i].date;
    }
    assert forall i :: 0 <= i < |yesterday| ==> yesterday[i] == today[i];
    PartialEqualsFullMode(yesterday, today, lo, hi, Unadjusted);
  }

  /** A repaired range holds exactly the fetched rows, and nothing outside it is lost. */
  lemma {:induction false} RepairedRange(existing: seq<Bar>, incoming: seq<Bar>, lo: int, hi: int, date: int)
    requires forall i :: 0 <= i < |incoming| ==> lo <= incoming[i].date <= hi
    ensures At(ReplaceRange(existing, incoming, lo, hi), date)
         == if lo <= date <= hi then At(incoming, date) else At(existing, date)
    ensures Ascending(ReplaceRange(existing, incoming, lo, hi))
  {
    MergeAt(OutOfRange(existing, lo, hi), incoming, date);
    MergeAscends(OutOfRange(existing, lo, hi), incoming);
    InRangeAt(existing, lo, hi, date);
    LastOfIs(incoming, DateOf, date);
  }
}
