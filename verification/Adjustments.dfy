/** Adjusted daily prices: each price times the latest factor on or before its date. */
module Adjustments {
  import opened Common
  import opened Sorting

  /** One daily bar; the five price columns may hold gaps. */
  datatype Bar = Bar(code: string, date: int, prices: seq<Option<real>>, flag: string, rest: int)

  /** A factor row that has a code, a date and a value. */
  datatype Factor = Factor(code: string, date: int, value: real)

  /** The latest factor of the code on or before the date; of several on one date the last. */
  function AsOf(factors: seq<Factor>, code: string, date: int): Option<Factor> {
    if factors == [] then None
    else
      var earlier, f := AsOf(factors[..|factors| - 1], code, date), factors[|factors| - 1];
      if f.code == code && f.date <= date && (earlier.None? || earlier.value.date <= f.date) then Some(f) else earlier
  }

  function FactorFor(factors: seq<Factor>, code: string, date: int): real {
    var f := AsOf(factors, code, date);
    if f.Some? then f.value.value else 1.0
  }

  function Scaled(price: Option<real>, factor: real): Option<real> {
    if price.Some? then Some(price.value * factor) else None
  }

  function ScaledBar(b: Bar, factor: real, flag: string): Bar {
    b.(prices := seq(|b.prices|, i requires 0 <= i < |b.prices| => Scaled(b.prices[i], factor)), flag := flag)
  }

  /** Row by row, in the rows' own order. */
  function Adjusted(bars: seq<Bar>, factors: seq<Factor>, flag: string): (r: seq<Bar>)
    ensures |r| == |bars|
  {
    seq(|bars|, i requires 0 <= i < |bars| => ScaledBar(bars[i], FactorFor(factors, bars[i].code, bars[i].date), flag))
  }

  /** The factor, if there is one, is among the latest of the code on or before the date. */
  ghost predicate IsAsOf(factors: seq<Factor>, code: string, date: int, found: Option<Factor>) {
    if found.None? then forall f :: f in factors ==> !(f.code == code && f.date <= date)
    else
      && found.value in factors && found.value.code == code && found.value.date <= date
      && forall f :: f in factors && f.code == code && f.date <= date ==> f.date <= found.value.date
  }

  /** `AsOf` finds a factor exactly when the code has one by that date, and none is more recent. */
  lemma {:induction false} AsOfIsLatest(factors: seq<Factor>, code: string, date: int)
    ensures IsAsOf(factors, code, date, AsOf(factors, code, date))
  {
    if factors != [] {
      AsOfIsLatest(factors[..|factors| - 1], code, date);
      assert factors == factors[..|factors| - 1] + [factors[|factors| - 1]];
    }
  }

  /** As the validator of the factor dataset has it. */
  ghost predicate OneFactorPerDate(factors: seq<Factor>) {
    forall f, g :: f in factors && g in factors && f.code == g.code && f.date == g.date ==> f == g
  }

  /** The value of a latest factor; 1.0 without one. */
  ghost predicate MayScaleBy(factors: seq<Factor>, code: string, date: int, value: real) {
    exists found :: IsAsOf(factors, code, date, found) && value == if found.Some? then found.value.value else 1.0
  }

  /** A gap stays a gap; a price is multiplied. */
  ghost predicate IsProduct(price: Option<real>, factor: real, out: Option<real>) {
    && (out.None? <==> price.None?)
    && (price.Some? ==> out.value == price.value * factor)
  }

  /** The same bar with every price there is multiplied, every gap kept, and the flag set. */
  ghost predicate Rescaled(bar: Bar, factor: real, flag: string, out: Bar) {
    && out.code == bar.code && out.date == bar.date && out.rest == bar.rest && out.flag == flag
    && |out.prices| == |bar.prices|
    && forall i :: 0 <= i < |bar.prices| ==> IsProduct(bar.prices[i], factor, out.prices[i])
  }

  lemma {:induction false} ScaledIsRescaled(bar: Bar, factor: real, flag: string, out: Bar)
    ensures Rescaled(bar, factor, flag, out) <==> out == ScaledBar(bar, factor, flag)
  {
    var scaled := ScaledBar(bar, factor, flag);
    assert forall i :: 0 <= i < |bar.prices| ==> scaled.prices[i] == Scaled(bar.prices[i], factor);
    if Rescaled(bar, factor, flag, out) {
      forall i | 0 <= i < |bar.prices| ensures out.prices[i] == scaled.prices[i] {
        assert IsProduct(bar.prices[i], factor, out.prices[i]);
      }
      assert out.prices == scaled.prices;
    }
  }

  ghost predicate MayBecome(bar: Bar, factors: seq<Factor>, flag: string, out: Bar) {
    exists factor :: MayScaleBy(factors, bar.code, bar.date, factor) && Rescaled(bar, factor, flag, out)
  }

  /** Every row scaled by a latest factor: of several on one date any. */
  ghost predicate MayAdjust(bars: seq<Bar>, factors: seq<Factor>, flag: string, result: seq<Bar>) {
    |result| == |bars| && forall i :: 0 <= i < |bars| ==> MayBecome(bars[i], factors, flag, result[i])
  }

  lemma {:induction false} OneScale(factors: seq<Factor>, code: string, date: int, value: real)
    requires OneFactorPerDate(factors)
    ensures MayScaleBy(factors, code, date, value) <==> value == FactorFor(factors, code, date)
  {
    AsOfIsLatest(factors, code, date);
    if MayScaleBy(factors, code, date, value) {
      var found :| IsAsOf(factors, code, date, found) && value == if found.Some? then found.value.value else 1.0;
      assert found == AsOf(factors, code, date);
    }
  }

  /** With one factor per code and date there is one outcome. */
  lemma {:induction false} OneAdjustment(bars: seq<Bar>, factors: seq<Factor>, flag: string, result: seq<Bar>)
    requires OneFactorPerDate(factors)
    ensures MayAdjust(bars, factors, flag, result) <==> result == Adjusted(bars, factors, flag)
  {
    var adjusted := Adjusted(bars, factors, flag);
    forall i, out: Bar | 0 <= i < |bars| ensures MayBecome(bars[i], factors, flag, out) <==> out == adjusted[i] {
      OneOutcome(bars[i], factors, flag, out);
    }
    if MayAdjust(bars, factors, flag, result) {
      forall i | 0 <= i < |bars| ensures result[i] == adjusted[i] {
        assert MayBecome(bars[i], factors, flag, result[i]);
      }
    }
  }

  lemma {:induction false} OneOutcome(bar: Bar, factors: seq<Factor>, flag: string, out: Bar)
    requires OneFactorPerDate(factors)
    ensures MayBecome(bar, factors, flag, out) <==> out == ScaledBar(bar, FactorFor(factors, bar.code, bar.date), flag)
  {
    if MayBecome(bar, factors, flag, out) {
      var value :| MayScaleBy(factors, bar.code, bar.date, value) && Rescaled(bar, value, flag, out);
      OneScale(factors, bar.code, bar.date, value);
      ScaledIsRescaled(bar, value, flag, out);
    }
    var factor := FactorFor(factors, bar.code, bar.date);
    OneScale(factors, bar.code, bar.date, factor);
    ScaledIsRescaled(bar, factor, flag, ScaledBar(bar, factor, flag));
  }

  lemma {:induction false} AdjustedMayBe(bars: seq<Bar>, factors: seq<Factor>, flag: string)
    ensures MayAdjust(bars, factors, flag, Adjusted(bars, factors, flag))
  {
    forall i | 0 <= i < |bars| ensures MayBecome(bars[i], factors, flag, Adjusted(bars, factors, flag)[i]) {
      var factor := FactorFor(factors, bars[i].code, bars[i].date);
      AsOfIsLatest(factors, bars[i].code, bars[i].date);
      ScaledIsRescaled(bars[i], factor, flag, ScaledBar(bars[i], factor, flag));
      assert MayScaleBy(factors, bars[i].code, bars[i].date, factor);
    }
  }

  // ---------------------------------------------------------------- the as-of merge

  predicate Earlier(a: Factor, b: Factor) { a.date <= b.date }

  /** The factors of one code, in their order. */
  function OfCode(factors: seq<Factor>, code: string): seq<Factor> {
    if factors == [] then []
    else if factors[0].code == code then [factors[0]] + OfCode(factors[1..], code)
    else OfCode(factors[1..], code)
  }

  /** The latest factor that is not after the date; of several on one date the last. */
  function Latest(factors: seq<Factor>, date: int): Option<Factor> {
    if factors == [] then None
    else
      var rest := Latest(factors[1..], date);
      if factors[0].date <= date && (rest.None? || rest.value.date < factors[0].date) then Some(factors[0]) else rest
  }

  lemma {:induction false} OfCodeMembers(factors: seq<Factor>, code: string)
    ensures forall f :: f in OfCode(factors, code) <==> f in factors && f.code == code
  {
    if factors != [] {
      OfCodeMembers(factors[1..], code);
      assert factors == [factors[0]] + factors[1..];
    }
  }

  lemma {:induction false} EarlierTotal()
    ensures TotalPreorder(Earlier)
  {
  }

  lemma {:induction false} LatestBounds(s: seq<Factor>, date: int)
    ensures Latest(s, date).Some? ==> Latest(s, date).value in s && Latest(s, date).value.date <= date
    ensures forall f :: f in s && f.date <= date ==> Latest(s, date).Some? && f.date <= Latest(s, date).value.date
  {
    if s != [] {
      LatestBounds(s[1..], date);
      assert s == [s[0]] + s[1..];
    }
  }

  /** The latest of the code's factors, however they are arranged. */
  lemma {:induction false} LatestIsAsOf(factors: seq<Factor>, code: string, own: seq<Factor>, date: int)
    requires multiset(own) == multiset(OfCode(factors, code))
    ensures IsAsOf(factors, code, date, Latest(own, date))
  {
    OfCodeMembers(factors, code);
    ArrangedMembers(OfCode(factors, code), own);
    LatestBounds(own, date);
  }

  /** In date order the latest factor is the last of the prefix up to the date. */
  lemma {:induction false} LatestAtSplit(s: seq<Factor>, date: int, n: nat)
    requires Ordered(s, Earlier) && n <= |s|
    requires forall i :: 0 <= i < |s| ==> (s[i].date <= date <==> i < n)
    ensures Latest(s, date) == if n == 0 then None else Some(s[n - 1])
  {
    if s != [] {
      var tail := s[1..];
      forall i | 0 <= i < |tail| ensures tail[i].date <= date <==> i < (if n > 0 then n - 1 else 0) {
        assert tail[i] == s[i + 1];
      }
      LatestAtSplit(tail, date, if n > 0 then n - 1 else 0);
      if n > 1 { assert Earlier(s[0], s[n - 1]); assert tail[n - 2] == s[n - 1]; }
    }
  }

  /** A date with the position of its row. */
  datatype Dated = Dated(row: nat, date: int)

  predicate ByDate(a: Dated, b: Dated) { a.date <= b.date }

  /** `merge_asof(..., direction="backward")`: two cursors over two date-ordered tables. */
  method MergeAsOf(left: seq<Dated>, right: seq<Factor>) returns (matched: seq<Option<Factor>>)
    requires Ordered(left, ByDate) && Ordered(right, Earlier)
    ensures |matched| == |left|
    ensures forall i :: 0 <= i < |left| ==> matched[i] == Latest(right, left[i].date)
  {
    matched := [];
    var cursor := 0;
    for i := 0 to |left|
      invariant cursor <= |right| && |matched| == i
      invariant forall k :: 0 <= k < i ==> matched[k] == Latest(right, left[k].date)
      invariant forall k :: 0 <= k < cursor ==> i < |left| ==> right[k].date <= left[i].date
    {
      while cursor < |right| && right[cursor].date <= left[i].date
        invariant cursor <= |right|
        invariant forall k :: 0 <= k < cursor ==> right[k].date <= left[i].date
      {
        cursor := cursor + 1;
      }
      forall k | 0 <= k < |right| ensures right[k].date <= left[i].date <==> k < cursor {
        if cursor < k { assert Earlier(right[cursor], right[k]); }
      }
      LatestAtSplit(right, left[i].date, cursor);
      matched := matched + [if cursor == 0 then None else Some(right[cursor - 1])];
      if i + 1 < |left| { assert ByDate(left[i], left[i + 1]); }
    }
  }

  /** The rows of one code with their positions. */
  function DatesOf(bars: seq<Bar>, code: string, n: nat): seq<Dated>
    requires n <= |bars|
  {
    if n == 0 then []
    else if bars[n - 1].code == code then DatesOf(bars, code, n - 1) + [Dated(n - 1, bars[n - 1].date)]
    else DatesOf(bars, code, n - 1)
  }

  lemma {:induction false} DatesOfAre(bars: seq<Bar>, code: string, n: nat)
    requires n <= |bars|
    ensures forall d :: d in DatesOf(bars, code, n) <==>
      d.row < n && bars[d.row].code == code && bars[d.row].date == d.date
  {
    if n > 0 { DatesOfAre(bars, code, n - 1); }
  }

  lemma {:induction false} ByDateTotal()
    ensures TotalPreorder(ByDate)
  {
  }

  /** The factor column is right for the rows of the given codes and still 1.0 elsewhere. */
  ghost predicate Filled(column: array<real>, bars: seq<Bar>, factors: seq<Factor>, codes: set<string>)
    requires column.Length == |bars|
    reads column
  {
    forall i :: 0 <= i < |bars| ==>
      if bars[i].code in codes then MayScaleBy(factors, bars[i].code, bars[i].date, column[i]) else column[i] == 1.0
  }

  function ValueOf(found: Option<Factor>): real { if found.Some? then found.value.value else 1.0 }

  /** One code of the grouping loop, written into the factor column in place. */
  method FillCode(column: array<real>, bars: seq<Bar>, factors: seq<Factor>, code: string, ghost codes: set<string>)
    requires column.Length == |bars| && code !in codes && Filled(column, bars, factors, codes)
    modifies column
    ensures Filled(column, bars, factors, codes + {code})
  {
    ByDateTotal();
    EarlierTotal();
    var dates := SortSingle(DatesOf(bars, code, |bars|), ByDate);
    var own := SortSingle(OfCode(factors, code), Earlier);
    DatesOfAre(bars, code, |bars|);
    ArrangedMembers(DatesOf(bars, code, |bars|), dates);
    var matched := MergeAsOf(dates, own);
    forall i | 0 <= i < |dates|
      ensures dates[i].row < |bars| && bars[dates[i].row].code == code
      ensures MayScaleBy(factors, code, bars[dates[i].row].date, ValueOf(matched[i]))
    {
      assert dates[i] in dates;
      LatestIsAsOf(factors, code, own, dates[i].date);
    }
    WriteFactors(column, bars, factors, code, dates, matched);
    forall i | 0 <= i < |bars| && bars[i].code == code ensures MayScaleBy(factors, code, bars[i].date, column[i]) {
      assert Dated(i, bars[i].date) in dates;
      var k :| 0 <= k < |dates| && dates[k] == Dated(i, bars[i].date);
      assert dates[k].row == i;
    }
  }

  method WriteFactors(column: array<real>, bars: seq<Bar>, ghost factors: seq<Factor>, ghost code: string,
                      dates: seq<Dated>, matched: seq<Option<Factor>>)
    requires column.Length == |bars| && |matched| == |dates|
    requires forall i :: 0 <= i < |dates| ==>
      && dates[i].row < |bars| && bars[dates[i].row].code == code
      && MayScaleBy(factors, code, bars[dates[i].row].date, ValueOf(matched[i]))
    modifies column
    ensures forall k :: 0 <= k < |dates| ==>
      MayScaleBy(factors, code, bars[dates[k].row].date, column[dates[k].row])
    ensures forall i :: 0 <= i < |bars| && bars[i].code != code ==> column[i] == old(column[i])
  {
    for i := 0 to |dates|
      invariant forall k :: 0 <= k < i ==> MayScaleBy(factors, code, bars[dates[k].row].date, column[dates[k].row])
      invariant forall m :: 0 <= m < |bars| && bars[m].code != code ==> column[m] == old(column[m])
    {
      column[dates[i].row] := ValueOf(matched[i]);
    }
  }

  /** `calculate_adjusted_daily_bar`. */
  method CalculateAdjustedDailyBar(bars: seq<Bar>, factors: seq<Factor>, flag: string) returns (result: seq<Bar>)
    ensures MayAdjust(bars, factors, flag, result)
    ensures OneFactorPerDate(factors) ==> result == Adjusted(bars, factors, flag)
  {
    var column := new real[|bars|](i => 1.0);
    var seen: set<string> := {};
    for i := 0 to |bars|
      invariant Filled(column, bars, factors, seen)
      invariant forall k :: 0 <= k < i ==> bars[k].code in seen
    {
      if bars[i].code !in seen {
        FillCode(column, bars, factors, bars[i].code, seen);
        seen := seen + {bars[i].code};
      }
    }
    result := [];
    for i := 0 to |bars|
      invariant |result| == i
      invariant forall k :: 0 <= k < i ==> result[k] == ScaledBar(bars[k], column[k], flag)
      invariant Filled(column, bars, factors, seen)
    {
      result := result + [ScaledBar(bars[i], column[i], flag)];
    }
    forall i | 0 <= i < |bars| ensures MayBecome(bars[i], factors, flag, result[i]) {
      assert MayScaleBy(factors, bars[i].code, bars[i].date, column[i]);
      ScaledIsRescaled(bars[i], column[i], flag, result[i]);
    }
    if OneFactorPerDate(factors) { OneAdjustment(bars, factors, flag, result); }
  }
}
