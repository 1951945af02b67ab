/** Qlib feature files of one symbol: the frame over all fields and the series of one field. */
module QlibFeatures {
  import opened Common

  /** A feature file: nothing, or a calendar start index and values with gaps. */
  datatype File = Empty | Feature(start: int, values: seq<Option<real>>)

  function Rounded(v: Option<real>, round: real -> real): Option<real> {
    if v.Some? then Some(round(v.value)) else None
  }

  // ---------------------------------------------------------------- one field

  /** `load_qlib_feature_series`, with calendar positions in place of their dates. */
  function Series(file: File, days: nat, round: real -> real): seq<(nat, Option<real>)> {
    if file.Empty? then [] else SeriesFrom(file.start, file.values, days, round, 0)
  }

  function SeriesFrom(start: int, values: seq<Option<real>>, days: nat, round: real -> real, offset: nat)
    : seq<(nat, Option<real>)>
    requires offset <= |values|
    decreases |values| - offset
  {
    if offset == |values| then []
    else
      var rest := SeriesFrom(start, values, days, round, offset + 1);
      if 0 <= start + offset < days then [(start + offset, Rounded(values[offset], round))] + rest else rest
  }

  /** The value of a file at a calendar position, if it has one there. */
  function ValueAt(file: File, days: nat, round: real -> real, day: nat): Option<Option<real>> {
    if file.Feature? && day < days && 0 <= day - file.start < |file.values|
    then Some(Rounded(file.values[day - file.start], round)) else None
  }

  lemma {:induction false} SeriesFromHas(start: int, values: seq<Option<real>>, days: nat, round: real -> real,
                                         offset: nat, day: nat, v: Option<real>)
    requires offset <= |values|
    ensures (day, v) in SeriesFrom(start, values, days, round, offset)
       <==> day < days && offset <= day - start < |values| && v == Rounded(values[day - start], round)
    decreases |values| - offset
  {
    if offset < |values| {
      var rest := SeriesFrom(start, values, days, round, offset + 1);
      SeriesFromHas(start, values, days, round, offset + 1, day, v);
      if 0 <= start + offset < days {
        var first := (start + offset, Rounded(values[offset], round));
        assert (day, v) in [first] + rest <==> (day, v) == first || (day, v) in rest;
      }
    }
  }

  /** The series lists exactly the values of the file inside the calendar. */
  lemma {:induction false} SeriesHas(file: File, days: nat, round: real -> real, day: nat, v: Option<real>)
    ensures (day, v) in Series(file, days, round) <==> ValueAt(file, days, round, day) == Some(v)
  {
    if file.Feature? { SeriesFromHas(file.start, file.values, days, round, 0, day, v); }
  }

  // ---------------------------------------------------------------- all fields

  /** The part of a file inside the calendar: its first position and raw values. */
  datatype Clip = Clip(first: nat, values: seq<Option<real>>)

  /** `values[from:to]`. */
  function Part(values: seq<Option<real>>, from: nat, to: nat): seq<Option<real>>
    requires from <= to <= |values|
  {
    seq(to - from, i requires 0 <= i < to - from => values[from + i])
  }

  function ClipOf(file: File, days: nat): Option<Clip> {
    if file.Empty? || |file.values| == 0 then None
    else
      var first := if file.start > 0 then file.start else 0;
      var end := if file.start + |file.values| < days then file.start + |file.values| else days;
      if first >= end then None else Some(Clip(first, Part(file.values, first - file.start, end - file.start)))
  }

  /** The file has a value at the calendar position. */
  predicate Covers(file: File, days: nat, day: nat) {
    file.Feature? && day < days && 0 <= day - file.start < |file.values|
  }

  predicate InClip(c: Option<Clip>, day: int) {
    c.Some? && c.value.first <= day < c.value.first + |c.value.values|
  }

  lemma {:induction false} ClipCovers(file: File, days: nat, day: nat)
    ensures Covers(file, days, day) <==> InClip(ClipOf(file, days), day)
    ensures Covers(file, days, day) ==>
      ClipOf(file, days).value.values[day - ClipOf(file, days).value.first] == file.values[day - file.start]
  {
  }

  lemma {:induction false} ClipNonEmpty(file: File, days: nat)
    ensures ClipOf(file, days).Some? ==> ClipOf(file, days).value.values != []
  {
  }

  /** The frame: the first calendar position, and one column per field. */
  datatype Frame = NoRows | Frame(first: nat, rows: nat, columns: seq<seq<Option<real>>>)

  /** The positions of the first n files reach from first to last and no further. */
  ghost predicate IsHull(files: seq<File>, n: nat, days: nat, first: nat, last: nat)
    requires n <= |files|
  {
    && first <= last < days
    && (exists f :: 0 <= f < n && Covers(files[f], days, first))
    && (exists f :: 0 <= f < n && Covers(files[f], days, last))
    && forall f, day: nat :: 0 <= f < n && Covers(files[f], days, day) ==> first <= day <= last
  }

  /** The value of a frame cell: what the field's series lists at that position, or nothing. */
  function CellAt(file: File, days: nat, round: real -> real, day: nat): Option<real> {
    var v := ValueAt(file, days, round, day);
    if v.Some? then v.value else None
  }

  ghost predicate IsColumn(column: seq<Option<real>>, file: File, days: nat, round: real -> real, first: nat,
                           rows: nat)
  {
    |column| == rows && forall r :: 0 <= r < rows ==> column[r] == CellAt(file, days, round, first + r)
  }

  ghost predicate IsFrameOf(frame: Frame, files: seq<File>, days: nat, round: real -> real) {
    match frame
    case NoRows => forall f, day: nat :: 0 <= f < |files| ==> !Covers(files[f], days, day)
    case Frame(first, rows, columns) =>
      && rows > 0 && IsHull(files, |files|, days, first, first + rows - 1)
      && |columns| == |files|
      && forall f :: 0 <= f < |files| ==> IsColumn(columns[f], files[f], days, round, first, rows)
  }

  /** What the first n files span; nothing if none of them reaches into the calendar. */
  ghost predicate IsSpan(files: seq<File>, n: nat, days: nat, span: Option<(nat, nat)>)
    requires n <= |files|
  {
    if span.None? then forall f, day: nat :: 0 <= f < n ==> !Covers(files[f], days, day)
    else IsHull(files, n, days, span.value.0, span.value.1)
  }

  function Extended(span: Option<(nat, nat)>, clip: Option<Clip>): Option<(nat, nat)>
    requires clip.Some? ==> clip.value.values != []
  {
    if clip.None? then span
    else
      var first, last := clip.value.first, clip.value.first + |clip.value.values| - 1;
      if span.None? then Some((first, last))
      else Some((if first < span.value.0 then first else span.value.0,
                 if last > span.value.1 then last else span.value.1))
  }

  lemma {:induction false} ExtendSpan(files: seq<File>, n: nat, days: nat, span: Option<(nat, nat)>, clip: Option<Clip>)
    requires n < |files| && IsSpan(files, n, days, span)
    requires clip.Some? ==> clip.value.values != []
    requires forall day: nat :: Covers(files[n], days, day) <==> InClip(clip, day)
    ensures IsSpan(files, n + 1, days, Extended(span, clip))
  {
    if span.Some? {
      var a :| 0 <= a < n && Covers(files[a], days, span.value.0);
      var b :| 0 <= b < n && Covers(files[b], days, span.value.1);
    }
    if clip.Some? {
      assert Covers(files[n], days, clip.value.first);
      assert Covers(files[n], days, clip.value.first + |clip.value.values| - 1);
    }
  }

  /** Reads every file, keeping the clipped values and the running least and greatest position. */
  method ReadFields(files: seq<File>, days: nat) returns (clips: seq<Option<Clip>>, span: Option<(nat, nat)>)
    ensures |clips| == |files| && forall f :: 0 <= f < |files| ==> clips[f] == ClipOf(files[f], days)
    ensures IsSpan(files, |files|, days, span)
  {
    clips, span := [], None;
    for f := 0 to |files|
      invariant |clips| == f && forall g :: 0 <= g < f ==> clips[g] == ClipOf(files[g], days)
      invariant IsSpan(files, f, days, span)
    {
      var clip;
      clip, span := ReadField(files, f, days, span);
      clips := clips + [clip];
    }
  }

  /** One file: its clipped values, and the positions moved apart to hold them. */
  method ReadField(files: seq<File>, f: nat, days: nat, span: Option<(nat, nat)>)
    returns (clip: Option<Clip>, extended: Option<(nat, nat)>)
    requires f < |files| && IsSpan(files, f, days, span)
    ensures clip == ClipOf(files[f], days) && IsSpan(files, f + 1, days, extended)
  {
    clip := ClipOf(files[f], days);
    ClipNonEmpty(files[f], days);
    forall day: nat ensures Covers(files[f], days, day) <==> InClip(clip, day) { ClipCovers(files[f], days, day); }
    ExtendSpan(files, f, days, span, clip);
    extended := Extended(span, clip);
  }

  /** What a clip holds at a calendar position. */
  function ClipCell(clip: Option<Clip>, round: real -> real, day: int): Option<real> {
    if InClip(clip, day) then Rounded(clip.value.values[day - clip.value.first], round) else None
  }

  lemma {:induction false} ClipCellIs(file: File, days: nat, round: real -> real, day: nat)
    ensures ClipCell(ClipOf(file, days), round, day) == CellAt(file, days, round, day)
  {
    ClipCovers(file, days, day);
  }

  /** The clip lies inside the rows. */
  predicate Fits(clip: Option<Clip>, first: nat, rows: nat) {
    clip.Some? ==> first <= clip.value.first && clip.value.first + |clip.value.values| <= first + rows
  }

  /** A column of gaps, with the clipped values copied in at their offset and rounded. */
  method LayOut(clip: Option<Clip>, round: real -> real, first: nat, rows: nat) returns (column: seq<Option<real>>)
    requires Fits(clip, first, rows)
    ensures |column| == rows
    ensures forall r :: 0 <= r < rows ==> column[r] == ClipCell(clip, round, first + r)
  {
    if clip.None? { return seq(rows, r => None); }
    var values, offset := clip.value.values, clip.value.first - first;
    var cells := new Option<real>[rows](r => None);
    for i := 0 to |values|
      invariant forall r :: 0 <= r < rows ==>
        cells[r] == if offset <= r < offset + i then Rounded(values[r - offset], round) else None
    {
      cells[offset + i] := Rounded(values[i], round);
    }
    column := cells[..];
  }

  lemma {:induction false} ClipFits(files: seq<File>, f: nat, days: nat, first: nat, rows: nat)
    requires f < |files| && rows > 0 && IsHull(files, |files|, days, first, first + rows - 1)
    ensures Fits(ClipOf(files[f], days), first, rows)
  {
    var clip := ClipOf(files[f], days);
    ClipNonEmpty(files[f], days);
    if clip.Some? {
      ClipCovers(files[f], days, clip.value.first);
      ClipCovers(files[f], days, clip.value.first + |clip.value.values| - 1);
    }
  }

  lemma {:induction false} ClipColumn(column: seq<Option<real>>, file: File, days: nat, round: real -> real, first: nat,
                                      rows: nat)
    requires |column| == rows
    requires forall r :: 0 <= r < rows ==> column[r] == ClipCell(ClipOf(file, days), round, first + r)
    ensures IsColumn(column, file, days, round, first, rows)
  {
    forall r | 0 <= r < rows ensures column[r] == CellAt(file, days, round, first + r) {
      ClipCellIs(file, days, round, first + r);
    }
  }

  /** The file has an entry, perhaps a gap, for the day. */
  ghost predicate HasEntry(file: File, day: int) {
    file.Feature? && file.start <= day < file.start + |file.values|
  }

  /** The cell is the file's value for the day, rounded, or a gap where the file has none. */
  ghost predicate MeansCell(cell: Option<real>, file: File, day: int, round: real -> real) {
    if HasEntry(file, day) && file.values[day - file.start].Some?
    then cell == Some(round(file.values[day - file.start].value)) else cell == None
  }

  /** The rows reach from the first to the last calendar day for which any file has an entry. */
  ghost predicate MeansFrame(frame: Frame, files: seq<File>, days: nat, round: real -> real) {
    match frame
    case NoRows => forall f, day :: 0 <= f < |files| && 0 <= day < days ==> !HasEntry(files[f], day)
    case Frame(first, rows, columns) =>
      && rows > 0 && first + rows <= days
      && (exists f :: 0 <= f < |files| && HasEntry(files[f], first))
      && (exists f :: 0 <= f < |files| && HasEntry(files[f], first + rows - 1))
      && (forall f, day :: 0 <= f < |files| && 0 <= day < days && HasEntry(files[f], day) ==>
            first <= day < first + rows)
      && |columns| == |files|
      && forall f :: 0 <= f < |files| ==> MeansColumn(columns[f], files[f], round, first, rows)
  }

  ghost predicate MeansColumn(column: seq<Option<real>>, file: File, round: real -> real, first: nat, rows: nat) {
    |column| == rows && forall r :: 0 <= r < rows ==> MeansCell(column[r], file, first + r, round)
  }

  lemma {:induction false} FrameMeans(frame: Frame, files: seq<File>, days: nat, round: real -> real)
    requires IsFrameOf(frame, files, days, round)
    ensures MeansFrame(frame, files, days, round)
  {
    forall f, day: int | 0 <= f < |files| && 0 <= day < days
      ensures HasEntry(files[f], day) <==> Covers(files[f], days, day)
    {
    }
    if frame.Frame? {
      forall f | 0 <= f < |files| ensures MeansColumn(frame.columns[f], files[f], round, frame.first, frame.rows) {
        assert IsColumn(frame.columns[f], files[f], days, round, frame.first, frame.rows);
      }
    }
  }

  /** What the series of one file lists, in calendar order. */
  lemma {:induction false} SeriesMeans(file: File, days: nat, round: real -> real, day: nat, v: Option<real>)
    ensures (day, v) in Series(file, days, round)
       <==> day < days && HasEntry(file, day) && MeansCell(v, file, day, round)
    ensures InDayOrder(Series(file, days, round))
  {
    SeriesHas(file, days, round, day, v);
    if file.Feature? { SeriesFromOrder(file.start, file.values, days, round, 0); }
  }

  ghost predicate InDayOrder(listed: seq<(nat, Option<real>)>) {
    forall i, j :: 0 <= i < j < |listed| ==> listed[i].0 < listed[j].0
  }

  lemma {:induction false} SeriesFromOrder(start: int, values: seq<Option<real>>, days: nat, round: real -> real,
                                           offset: nat)
    requires offset <= |values|
    ensures InDayOrder(SeriesFrom(start, values, days, round, offset))
    decreases |values| - offset
  {
    if offset < |values| {
      var rest := SeriesFrom(start, values, days, round, offset + 1);
      SeriesFromOrder(start, values, days, round, offset + 1);
      forall i | 0 <= i < |rest| ensures start + offset < rest[i].0 {
        SeriesFromHas(start, values, days, round, offset + 1, rest[i].0, rest[i].1);
        assert (rest[i].0, rest[i].1) == rest[i];
      }
    }
  }

  /** `load_qlib_symbol_features`. */
  method LoadSymbolFeatures(files: seq<File>, days: nat, round: real -> real) returns (frame: Frame)
    ensures IsFrameOf(frame, files, days, round) && MeansFrame(frame, files, days, round)
  {
    var clips, span := ReadFields(files, days);
    if span.None? {
      FrameMeans(NoRows, files, days, round);
      return NoRows;
    }
    var first, rows := span.value.0, span.value.1 - span.value.0 + 1;
    forall f | 0 <= f < |files| ensures Fits(clips[f], first, rows) { ClipFits(files, f, days, first, rows); }
    var columns := LayOutAll(files, clips, days, round, first, rows);
    frame := Frame(first, rows, columns);
    FrameMeans(frame, files, days, round);
  }

  /** One column per file. */
  method LayOutAll(ghost files: seq<File>, clips: seq<Option<Clip>>, ghost days: nat, round: real -> real, first: nat,
                   rows: nat)
    returns (columns: seq<seq<Option<real>>>)
    requires |clips| == |files|
    requires forall f :: 0 <= f < |files| ==> clips[f] == ClipOf(files[f], days) && Fits(clips[f], first, rows)
    ensures |columns| == |files|
    ensures forall f :: 0 <= f < |files| ==> IsColumn(columns[f], files[f], days, round, first, rows)
  {
    columns := [];
    for f := 0 to |clips|
      invariant |columns| == f
      invariant forall g :: 0 <= g < f ==> IsColumn(columns[g], files[g], days, round, first, rows)
    {
      var column := LayOut(clips[f], round, first, rows);
      ClipColumn(column, files[f], days, round, first, rows);
      columns := columns + [column];
    }
  }

  /** Frame and series agree: a cell holds a value exactly if the field's own series lists it at that
      day, for any start index, negative or past the calendar. */
  lemma {:induction false} FrameMatchesSeries(frame: Frame, files: seq<File>, days: nat, round: real -> real, f: nat,
                                              day: nat, v: real)
    requires IsFrameOf(frame, files, days, round) && f < |files|
    ensures (day, Some(v)) in Series(files[f], days, round)
       <==> frame.Frame? && frame.first <= day < frame.first + frame.rows
            && |frame.columns| == |files| && |frame.columns[f]| == frame.rows
            && frame.columns[f][day - frame.first] == Some(v)
  {
    SeriesHas(files[f], days, round, day, Some(v));
    assert Covers(files[f], days, day) <==> ValueAt(files[f], days, round, day).Some?;
    if frame.Frame? {
      assert IsColumn(frame.columns[f], files[f], days, round, frame.first, frame.rows);
      if frame.first <= day < frame.first + frame.rows {
        assert frame.columns[f][day - frame.first] == CellAt(files[f], days, round, frame.first + (day - frame.first));
      }
    }
  }

  /** No row without a reason: the first and the last day of a frame are listed by some field's series. */
  lemma {:induction false} HullIsExact(frame: Frame, files: seq<File>, days: nat, round: real -> real, day: nat)
    requires IsFrameOf(frame, files, days, round) && frame.Frame?
    ensures day == frame.first || day == frame.first + frame.rows - 1 ==>
      exists f, v :: 0 <= f < |files| && (day, v) in Series(files[f], days, round)
    ensures forall f, v :: 0 <= f < |files| && (day, v) in Series(files[f], days, round) ==>
      frame.first <= day < frame.first + frame.rows
  {
    forall f, v | 0 <= f < |files| ensures (day, v) in Series(files[f], days, round) ==> Covers(files[f], days, day) {
      SeriesHas(files[f], days, round, day, v);
    }
    if day == frame.first || day == frame.first + frame.rows - 1 {
      var f :| 0 <= f < |files| && Covers(files[f], days, day);
      var v := ValueAt(files[f], days, round, day).value;
      SeriesHas(files[f], days, round, day, v);
    }
  }
}
