/**
 * The body loop shared by `read_pla` (tt/utils/pla.py) and `read_table`
 * (tt/utils/pla_utils.py): after the header, two `np.empty` arrays of
 * `num_products` rows are allocated and each cube line, once its sections
 * are checked and converted to cells, is stored at row
 * `line_num - tt_start`, where `tt_start` is the position of the first cube
 * line. The source keeps `tt_start` with 0 as "not yet seen"; `FillingAsWritten`
 * models exactly that, `Filling` the evidently intended "first cube line".
 */
module TtRead {
  import opened Base
  import opened Builtins
  import opened Trits
  import opened PlaLines
  import PlaReader

  /**
   * An array as `read_pla` returns it: `None` stands for a row no cube line
   * wrote, whose `np.empty` contents are arbitrary.
   */
  datatype Grid = Grid(width: nat, rows: seq<Option<seq<Trit>>>)

  /** The loop's state: `tt_start` once set, and the rows of both arrays. */
  datatype Fill = Fill(start: Option<nat>, ins: seq<Option<seq<Trit>>>, outs: seq<Option<seq<Trit>>>)

  /** The arrays as `np.empty` leaves them. */
  function Empty(np: nat): (f: Fill)
    ensures |f.ins| == np && |f.outs| == np
  {
    Fill(None, seq(np, _ => None), seq(np, _ => None))
  }

  /** Both sections of a checked cube line are cell strings. */
  predicate CellsOk(item: (string, string)) {
    ToCells(item.0).Ok? && ToCells(item.1).Ok?
  }

  /**
   * One cube line at position `idx` with checked sections `item`, given the
   * value `start` that `tt_start` has once the line is seen: an unexpected
   * character, or a row beyond the arrays, fails; otherwise the cells are
   * stored at row `idx - start`. Indexing follows numpy, but the loops never
   * pass a negative row: `tt_start` is at most the current line number.
   */
  function Place(idx: nat, start: nat, item: (string, string), f: Fill): (r: Result<Fill>)
    requires |f.ins| == |f.outs|
    ensures r.Ok? ==> |r.value.ins| == |f.ins| && |r.value.outs| == |f.outs| && r.value.start == Some(start)
  {
    if !CellsOk(item) then Err(PlaParsing(UnexpectedChar, Some(idx)))
    else
      match PyIndex(|f.ins|, idx - start)
      case None => Err(IndexError)
      case Some(row) =>
        Ok(Fill(Some(start), f.ins[row := Some(ToCells(item.0).value)], f.outs[row := Some(ToCells(item.1).value)]))
  }

  /** `tt_start` as the source keeps it: reset at every cube line while it is 0. */
  function StartAsWritten(f: Fill, idx: nat): nat {
    if f.start.Some? && f.start.value != 0 then f.start.value else idx
  }

  /** `tt_start` as evidently intended: the position of the first cube line. */
  function Start(f: Fill, idx: nat): nat {
    if f.start.Some? then f.start.value else idx
  }

  /** One pass of the loop over a line's outcome, `tt_start` taken as `start` at a cube line. */
  function Advance(idx: nat, start: nat, o: Outcome<(string, string)>, f: Fill): (r: Result<Fill>)
    requires |f.ins| == |f.outs|
    ensures r.Ok? ==> |r.value.ins| == |f.ins| && |r.value.outs| == |f.outs|
  {
    match o
    case Skip => Ok(f)
    case Fail(e) => Err(e)
    case Keep(item) => Place(idx, start, item, f)
  }

  /** The loop of the source over the outcomes of the section checks, one per line. */
  function FillingAsWritten(os: seq<Outcome<(string, string)>>, np: nat): (r: Result<Fill>)
    ensures r.Ok? ==> |r.value.ins| == np && |r.value.outs| == np
  {
    if os == [] then Ok(Empty(np))
    else
      var n := |os| - 1;
      match FillingAsWritten(os[..n], np)
      case Err(e) => Err(e)
      case Ok(f) => Advance(n, StartAsWritten(f, n), os[n], f)
  }

  /** The loop with `tt_start` fixed at the first cube line. */
  function Filling(os: seq<Outcome<(string, string)>>, np: nat): (r: Result<Fill>)
    ensures r.Ok? ==> |r.value.ins| == np && |r.value.outs| == np
  {
    if os == [] then Ok(Empty(np))
    else
      var n := |os| - 1;
      match Filling(os[..n], np)
      case Err(e) => Err(e)
      case Ok(f) => Advance(n, Start(f, n), os[n], f)
  }

  /**
   * The body of `read_pla` and `read_table` once the header has given its
   * counts: `np.empty` refuses a negative dimension, then the loop as the
   * source writes it fills the two arrays.
   */
  function Table(lines: seq<string>, ni: int, no: int, np: int): (r: Result<(Grid, Grid)>)
    ensures np < 0 || ni < 0 || no < 0 ==> r == Err(ValueError(NegativeDimension))
    ensures r.Ok? ==>
              r.value.0.width == ni && r.value.1.width == no && |r.value.0.rows| == np && |r.value.1.rows| == np &&
              (forall k :: 0 <= k < np && r.value.0.rows[k].Some? ==> |r.value.0.rows[k].value| == ni) &&
              (forall k :: 0 <= k < np && r.value.1.rows[k].Some? ==> |r.value.1.rows[k].value| == no)
  {
    if np < 0 || ni < 0 || no < 0 then Err(ValueError(NegativeDimension))
    else
      var os := PlaReader.Outcomes(AllSections(lines), ni, no);
      match FillingAsWritten(os, np)
      case Err(e) => Err(e)
      case Ok(f) =>
        assert forall j :: 0 <= j < |os| && os[j].Keep? ==> |os[j].item.0| == ni && |os[j].item.1| == no;
        AsWrittenWidths(os, np, ni, no);
        Ok((Grid(ni, f.ins), Grid(no, f.outs)))
  }

  /** The body of `read_pla` and `read_table`, filling two arrays in place. */
  method ReadTableBody(lines: seq<string>, ni: int, no: int, np: int) returns (r: Result<(Grid, Grid)>)
    ensures r == Table(lines, ni, no, np)
  {
    if np < 0 || ni < 0 || no < 0 {
      return Err(ValueError(NegativeDimension));
    }
    var inputs := new Option<seq<Trit>>[np](_ => None);
    var outputs := new Option<seq<Trit>>[np](_ => None);
    var start: Option<nat> := None;
    ghost var os := PlaReader.Outcomes(AllSections(lines), ni, no);
    assert inputs[..] == Empty(np).ins && outputs[..] == Empty(np).outs;
    for idx := 0 to |lines|
      invariant FillingAsWritten(os[..idx], np) == Ok(Fill(start, inputs[..], outputs[..]))
    {
      AsWrittenPrefix(os, idx, np);
      var o := PlaReader.ReadLine(idx, lines[idx], ni, no);
      assert os[idx] == o;
      var next := StoreLine(idx, o, start, inputs, outputs);
      if next.Err? {
        AsWrittenFailureSticks(os, idx + 1, np);
        return Err(next.error);
      }
      start := next.value;
    }
    assert os[..|lines|] == os;
    return Ok((Grid(ni, inputs[..]), Grid(no, outputs[..])));
  }

  /**
   * One pass of the loop: for a cube line, set `tt_start` to `idx` while it
   * is still 0, convert both sections and store them at row `idx - tt_start`
   * of the two arrays; the result is the new `tt_start` or the error.
   */
  method StoreLine(idx: nat, o: Outcome<(string, string)>, start: Option<nat>,
                   inputs: array<Option<seq<Trit>>>, outputs: array<Option<seq<Trit>>>)
      returns (r: Result<Option<nat>>)
    requires inputs != outputs && inputs.Length == outputs.Length
    modifies inputs, outputs
    ensures var f := Fill(start, old(inputs[..]), old(outputs[..]));
            var next := Advance(idx, StartAsWritten(f, idx), o, f);
            (next.Err? ==> r == Err(next.error)) &&
            (next.Ok? ==> r == Ok(next.value.start) && inputs[..] == next.value.ins && outputs[..] == next.value.outs)
  {
    if o.Fail? {
      return Err(o.error);
    } else if o.Skip? {
      return Ok(start);
    }
    var s := if start.Some? && start.value != 0 then start.value else idx;
    var i := LineToList(o.item.0);
    var out := LineToList(o.item.1);
    if i.Err? || out.Err? {
      return Err(PlaParsing(UnexpectedChar, Some(idx)));
    }
    var row := PyIndex(inputs.Length, idx - s);
    if row.None? {
      return Err(IndexError);
    }
    inputs[row.value] := Some(i.value);
    outputs[row.value] := Some(out.value);
    return Ok(Some(s));
  }

  lemma AsWrittenPrefix(os: seq<Outcome<(string, string)>>, k: nat, np: nat)
    requires k < |os|
    ensures FillingAsWritten(os[..k + 1], np) == match FillingAsWritten(os[..k], np)
                                                  case Err(e) => Err(e)
                                                  case Ok(f) => Advance(k, StartAsWritten(f, k), os[k], f)
  {
    assert os[..k + 1][..k] == os[..k];
  }

  lemma {:induction false} AsWrittenFailureSticks(os: seq<Outcome<(string, string)>>, k: nat, np: nat)
    requires k <= |os| && FillingAsWritten(os[..k], np).Err?
    ensures FillingAsWritten(os, np) == FillingAsWritten(os[..k], np)
    decreases |os| - k
  {
    if k < |os| {
      AsWrittenPrefix(os, k, np);
      AsWrittenFailureSticks(os, k + 1, np);
    } else {
      assert os[..k] == os;
    }
  }

  // ---------------------------------------------------------------- meaning

  /** The position of the first cube line, if any, found scanning the outcomes. */
  function First(os: seq<Outcome<(string, string)>>): (r: Option<nat>)
    ensures r.Some? ==> r.value < |os|
  {
    if os == [] then None
    else
      var n := |os| - 1;
      if First(os[..n]).Some? then First(os[..n]) else if os[n].Keep? then Some(n) else None
  }

  /** `First` finds the first cube line, and none when there is none. */
  lemma {:induction false} FirstMeaning(os: seq<Outcome<(string, string)>>)
    ensures First(os).Some? ==> os[First(os).value].Keep? && forall j :: 0 <= j < First(os).value ==> !os[j].Keep?
    ensures First(os).None? <==> forall j :: 0 <= j < |os| ==> !os[j].Keep?
  {
    if os != [] {
      var n := |os| - 1;
      FirstMeaning(os[..n]);
      assert forall j :: 0 <= j < n ==> os[..n][j] == os[j];
    }
  }

  /** A line fails the loop by itself: a failed check or an unexpected character. */
  predicate Faulty(o: Outcome<(string, string)>) {
    o.Fail? || (o.Keep? && !CellsOk(o.item))
  }

  /** Every cube line lies fewer than `np` lines after the first. */
  predicate Fits(os: seq<Outcome<(string, string)>>, np: nat) {
    forall j :: 0 <= j < |os| && os[j].Keep? ==> First(os).Some? && j - First(os).value < np
  }

  /** A cube line at `j` leaves `First` unchanged once it is set. */
  lemma FirstPrefix(os: seq<Outcome<(string, string)>>, n: nat)
    requires n < |os| && First(os[..n]).Some?
    ensures First(os[..n + 1]) == First(os[..n])
  {
    assert os[..n + 1][..n] == os[..n];
  }

  /** `tt_start`, once set, is the first cube line. */
  lemma {:induction false} FillingStart(os: seq<Outcome<(string, string)>>, np: nat)
    requires Filling(os, np).Ok?
    ensures Filling(os, np).value.start == First(os)
  {
    if os != [] {
      FillingStart(os[..|os| - 1], np);
    }
  }

  /**
   * The loop succeeds exactly when no line is faulty and every cube line
   * lies within `num_products` lines of the first one.
   */
  lemma {:induction false} FillingSucceeds(os: seq<Outcome<(string, string)>>, np: nat)
    ensures Filling(os, np).Ok? <==> (forall j :: 0 <= j < |os| ==> !Faulty(os[j])) && Fits(os, np)
  {
    if os != [] {
      var n := |os| - 1;
      var front := os[..n];
      FillingSucceeds(front, np);
      SoundSnoc(os, front);
      FitsSnoc(os, np);
      if Filling(front, np).Ok? {
        FillingStart(front, np);
      }
    }
  }

  /** No line is faulty when none of the earlier lines is and the last one is not. */
  lemma SoundSnoc(os: seq<Outcome<(string, string)>>, front: seq<Outcome<(string, string)>>)
    requires os != [] && front == os[..|os| - 1]
    ensures (forall j :: 0 <= j < |os| ==> !Faulty(os[j])) <==>
            (forall j :: 0 <= j < |front| ==> !Faulty(front[j])) && !Faulty(os[|os| - 1])
  {
    assert forall j :: 0 <= j < |front| ==> front[j] == os[j];
  }

  /** The cube lines fit when the earlier ones do and the last one, if a cube line, lies within `np` lines of the first. */
  lemma FitsSnoc(os: seq<Outcome<(string, string)>>, np: nat)
    requires os != []
    ensures Fits(os, np) <==>
            Fits(os[..|os| - 1], np) &&
            (os[|os| - 1].Keep? ==> First(os).Some? && |os| - 1 - First(os).value < np)
  {
    var n := |os| - 1;
    var front := os[..n];
    FirstMeaning(front);
    assert forall j :: 0 <= j < n ==> os[j] == front[j];
  }

  /** The cells of one section of a cube line, chosen by `inputSide`, when both sections are cell strings. */
  function Cells(item: (string, string), inputSide: bool): Option<seq<Trit>> {
    if !CellsOk(item) then None
    else if inputSide then Some(ToCells(item.0).value)
    else Some(ToCells(item.1).value)
  }

  /** The row `row` of one array after the loop: the cells of cube line `first + row`, if there is one. */
  function Expected(os: seq<Outcome<(string, string)>>, row: nat, inputSide: bool): Option<seq<Trit>> {
    match First(os)
    case None => None
    case Some(p) => At(os, p + row, inputSide)
  }

  /** The cells of the line at `k`, if it is a cube line. */
  function At(os: seq<Outcome<(string, string)>>, k: nat, inputSide: bool): Option<seq<Trit>> {
    if k < |os| && os[k].Keep? then Cells(os[k].item, inputSide) else None
  }

  /**
   * After a successful loop, row `r` of each array holds the cells of the
   * cube line `r` lines after the first one, and is left as allocated when
   * that line is not a cube line.
   */
  lemma {:induction false} FillingRows(os: seq<Outcome<(string, string)>>, np: nat)
    requires Filling(os, np).Ok?
    ensures forall row :: 0 <= row < np ==>
              Filling(os, np).value.ins[row] == Expected(os, row, true) &&
              Filling(os, np).value.outs[row] == Expected(os, row, false)
  {
    if os != [] {
      var n := |os| - 1;
      var front := os[..n];
      FillingRows(front, np);
      FillingStart(front, np);
      var f := Filling(front, np).value;
      var g := Filling(os, np).value;
      var start := Start(f, n);
      FirstMeaning(front);
      assert First(front) == (if start < n then Some(start) else None);
      Step(n, start, os[n], f, g, true);
      Step(n, start, os[n], f, g, false);
      forall row | 0 <= row < np
        ensures g.ins[row] == Expected(os, row, true)
        ensures g.outs[row] == Expected(os, row, false)
      {
        if os[n].Keep? {
          KeptRow(os, front, start, f.ins, g.ins, row, true);
          KeptRow(os, front, start, f.outs, g.outs, row, false);
        } else {
          SkippedRow(os, front, row, true);
          SkippedRow(os, front, row, false);
        }
      }
    }
  }

  /** The rows of one array, chosen by `inputSide`. */
  function Side(f: Fill, inputSide: bool): seq<Option<seq<Trit>>> {
    if inputSide then f.ins else f.outs
  }

  /** One pass of the loop stores the cells of a cube line at row `idx - start` and leaves the arrays alone otherwise. */
  lemma Step(idx: nat, start: nat, o: Outcome<(string, string)>, f: Fill, g: Fill, inputSide: bool)
    requires |f.ins| == |f.outs| && start <= idx && Advance(idx, start, o, f) == Ok(g)
    ensures o.Keep? ==> idx - start < |f.ins| && Side(g, inputSide) == Side(f, inputSide)[idx - start := Cells(o.item, inputSide)]
    ensures !o.Keep? ==> g == f
  {
  }

  /** `First` of a sequence extended by one outcome. */
  lemma FirstSnoc(os: seq<Outcome<(string, string)>>, front: seq<Outcome<(string, string)>>)
    requires os != [] && front == os[..|os| - 1]
    ensures First(os) == if First(front).Some? then First(front) else if os[|os| - 1].Keep? then Some(|os| - 1) else None
  {
  }

  /** A line that is not a cube line leaves every expected row as it was. */
  lemma SkippedRow(os: seq<Outcome<(string, string)>>, front: seq<Outcome<(string, string)>>, row: nat, inputSide: bool)
    requires os != [] && front == os[..|os| - 1] && !os[|front|].Keep?
    ensures Expected(os, row, inputSide) == Expected(front, row, inputSide)
  {
    FirstSnoc(os, front);
    if First(front).Some? {
      OtherAt(os, front, First(front).value + row, inputSide);
    }
  }

  /** A cube line stored at row `|front| - start` leaves each row as `Expected` says, given that the earlier lines did. */
  lemma KeptRow(os: seq<Outcome<(string, string)>>, front: seq<Outcome<(string, string)>>, start: nat,
                before: seq<Option<seq<Trit>>>, after: seq<Option<seq<Trit>>>, row: nat, inputSide: bool)
    requires os != [] && front == os[..|os| - 1] && os[|front|].Keep?
    requires First(front) == (if start < |front| then Some(start) else None)
    requires start <= |front| && row < |before| && |front| - start < |before|
    requires after == before[|front| - start := Cells(os[|front|].item, inputSide)]
    requires before[row] == Expected(front, row, inputSide)
    ensures after[row] == Expected(os, row, inputSide)
  {
    FirstSnoc(os, front);
    assert First(os) == Some(start);
    assert before[row] == At(front, start + row, inputSide);
    KeptAt(os, front, before, after, start, row, inputSide);
  }

  /** The row step at a cube line stored at row `|front| - p`, in terms of positions only. */
  lemma KeptAt(os: seq<Outcome<(string, string)>>, front: seq<Outcome<(string, string)>>,
               before: seq<Option<seq<Trit>>>, after: seq<Option<seq<Trit>>>, p: nat, row: nat, inputSide: bool)
    requires os != [] && front == os[..|os| - 1] && os[|front|].Keep?
    requires p <= |front| && row < |before| && |front| - p < |before|
    requires after == before[|front| - p := Cells(os[|front|].item, inputSide)]
    requires before[row] == At(front, p + row, inputSide)
    ensures after[row] == At(os, p + row, inputSide)
  {
    if row != |front| - p {
      OtherAt(os, front, p + row, inputSide);
    }
  }

  /** One more line changes the cells of no other position. */
  lemma OtherAt(os: seq<Outcome<(string, string)>>, front: seq<Outcome<(string, string)>>, k: nat, inputSide: bool)
    requires os != [] && front == os[..|os| - 1] && (k != |front| || !os[|front|].Keep?)
    ensures At(os, k, inputSide) == At(front, k, inputSide)
  {
    if k < |front| {
      assert os[k] == front[k];
    }
  }

  /** In such a run the first cube line is the first of the run. */
  lemma RunFirst(os: seq<Outcome<(string, string)>>, h: nat, items: seq<(string, string)>)
    requires Run(os, h, items) && items != []
    ensures First(os) == Some(h)
  {
    FirstMeaning(os);
    assert os[h].Keep?;
  }

  /** Such a run fits the arrays when they have one row per cube line. */
  lemma RunFits(os: seq<Outcome<(string, string)>>, h: nat, items: seq<(string, string)>)
    requires Run(os, h, items)
    ensures Fits(os, |items|)
  {
    if items != [] {
      RunFirst(os, h, items);
    }
  }

  /** The row each array expects from such a run: the cells of the cube line. */
  lemma RunExpected(os: seq<Outcome<(string, string)>>, h: nat, items: seq<(string, string)>, r: nat)
    requires Run(os, h, items) && r < |items| && CellsOk(items[r])
    ensures Expected(os, r, true) == Some(ToCells(items[r].0).value)
    ensures Expected(os, r, false) == Some(ToCells(items[r].1).value)
  {
    RunFirst(os, h, items);
    assert os[h + r] == Keep(items[r]);
  }

  /** No line of such a run is faulty when every cube line holds cell strings. */
  lemma RunSound(os: seq<Outcome<(string, string)>>, h: nat, items: seq<(string, string)>)
    requires Run(os, h, items)
    requires forall k :: 0 <= k < |items| ==> CellsOk(items[k])
    ensures forall j :: 0 <= j < |os| ==> !Faulty(os[j])
  {
    forall j | 0 <= j < |os| ensures !Faulty(os[j]) {
      if h <= j < h + |items| {
        assert CellsOk(items[j - h]);
      }
    }
  }

  /**
   * Skipped lines, then one cube line of cell strings per product, then
   * skipped lines again: the loop succeeds and row `r` of each array holds
   * the cells of the `r`-th cube line.
   */
  lemma Contiguous(os: seq<Outcome<(string, string)>>, h: nat, items: seq<(string, string)>)
    requires Run(os, h, items)
    requires forall k :: 0 <= k < |items| ==> CellsOk(items[k])
    ensures Filling(os, |items|).Ok?
    ensures forall r :: 0 <= r < |items| ==>
              CellsOk(items[r]) &&
              Filling(os, |items|).value.ins[r] == Some(ToCells(items[r].0).value) &&
              Filling(os, |items|).value.outs[r] == Some(ToCells(items[r].1).value)
  {
    var np := |items|;
    assert Filling(os, np).Ok? by {
      RunSound(os, h, items);
      RunFits(os, h, items);
      FillingSucceeds(os, np);
    }
    FillingRows(os, np);
    forall r | 0 <= r < np
      ensures Filling(os, np).value.ins[r] == Some(ToCells(items[r].0).value)
      ensures Filling(os, np).value.outs[r] == Some(ToCells(items[r].1).value)
    {
      RunExpected(os, h, items, r);
    }
  }

  // ---------------------------------------------------------------- tt_start

  /**
   * The source's sentinel matters only when a cube line is the very first
   * line: otherwise the loop as written and the intended one agree.
   */
  lemma {:induction false} AsWrittenAgrees(os: seq<Outcome<(string, string)>>, np: nat)
    requires os == [] || !os[0].Keep?
    ensures FillingAsWritten(os, np) == Filling(os, np)
  {
    if os != [] {
      var n := |os| - 1;
      AsWrittenAgrees(os[..n], np);
      if Filling(os[..n], np).Ok? {
        FillingStart(os[..n], np);
        FirstMeaning(os[..n]);
      }
    }
  }

  /**
   * The loop as the source writes it, on lines whose first is not a cube
   * line: it succeeds exactly when no line is faulty and every cube line lies
   * within `num_products` lines of the first one.
   */
  lemma AsWrittenSucceeds(os: seq<Outcome<(string, string)>>, np: nat)
    requires os == [] || !os[0].Keep?
    ensures FillingAsWritten(os, np).Ok? <==> (forall j :: 0 <= j < |os| ==> !Faulty(os[j])) && Fits(os, np)
  {
    AsWrittenAgrees(os, np);
    FillingSucceeds(os, np);
  }

  /**
   * The loop as the source writes it, on lines whose first is not a cube
   * line: `tt_start` ends as the first cube line, and row `r` of each array
   * holds the cells of the cube line `r` lines after it.
   */
  lemma AsWrittenRows(os: seq<Outcome<(string, string)>>, np: nat)
    requires os == [] || !os[0].Keep?
    requires FillingAsWritten(os, np).Ok?
    ensures FillingAsWritten(os, np).value.start == First(os)
    ensures forall row :: 0 <= row < np ==>
              FillingAsWritten(os, np).value.ins[row] == Expected(os, row, true) &&
              FillingAsWritten(os, np).value.outs[row] == Expected(os, row, false)
  {
    AsWrittenAgrees(os, np);
    FillingStart(os, np);
    FillingRows(os, np);
  }

  /**
   * Skipped lines, at least the first, then one cube line of cell strings
   * per product, then skipped lines again: the loop as the source writes it
   * succeeds and row `r` of each array holds the cells of the `r`-th cube
   * line.
   */
  lemma AsWrittenContiguous(os: seq<Outcome<(string, string)>>, h: nat, items: seq<(string, string)>)
    requires Run(os, h, items) && (h >= 1 || items == [])
    requires forall k :: 0 <= k < |items| ==> CellsOk(items[k])
    ensures FillingAsWritten(os, |items|).Ok?
    ensures forall r :: 0 <= r < |items| ==>
              CellsOk(items[r]) &&
              FillingAsWritten(os, |items|).value.ins[r] == Some(ToCells(items[r].0).value) &&
              FillingAsWritten(os, |items|).value.outs[r] == Some(ToCells(items[r].1).value)
  {
    assert os == [] || os[0] == Skip;
    AsWrittenAgrees(os, |items|);
    Contiguous(os, h, items);
  }

  /**
   * Whatever line 0 is, every row the loop as written fills holds as many
   * cells as the sections of the cube lines have characters.
   */
  lemma {:induction false} AsWrittenWidths(os: seq<Outcome<(string, string)>>, np: nat, ni: int, no: int)
    requires forall j :: 0 <= j < |os| && os[j].Keep? ==> |os[j].item.0| == ni && |os[j].item.1| == no
    requires FillingAsWritten(os, np).Ok?
    ensures forall row :: 0 <= row < np && FillingAsWritten(os, np).value.ins[row].Some? ==>
              |FillingAsWritten(os, np).value.ins[row].value| == ni
    ensures forall row :: 0 <= row < np && FillingAsWritten(os, np).value.outs[row].Some? ==>
              |FillingAsWritten(os, np).value.outs[row].value| == no
  {
    if os != [] {
      var n := |os| - 1;
      assert forall j :: 0 <= j < n && os[..n][j].Keep? ==> os[..n][j] == os[j];
      AsWrittenWidths(os[..n], np, ni, no);
    }
  }

  /**
   * A file that opens with the cube lines `1 1` and `0 0`: the second line
   * finds `tt_start` still 0, resets it to 1 and overwrites row 0, so row 1
   * is never written; the intended loop stores both rows.
   */
  lemma StartResetExample()
    ensures var os := PlaReader.Outcomes(AllSections(["1 1", "0 0"]), 1, 1);
            FillingAsWritten(os, 2) == Ok(Fill(Some(1), [Some([0]), None], [Some([0]), None])) &&
            Filling(os, 2) == Ok(Fill(Some(0), [Some([1]), Some([0])], [Some([1]), Some([0])]))
  {
    TwoCubeLines();
    TwoCubesFilled();
  }

  /** Both lines of the example are cube lines whose sections pass the checks. */
  lemma TwoCubeLines()
    ensures PlaReader.Outcomes(AllSections(["1 1", "0 0"]), 1, 1) == [Keep(("1", "1")), Keep(("0", "0"))]
  {
    var lines := ["1 1", "0 0"];
    var os := PlaReader.Outcomes(AllSections(lines), 1, 1);
    OneCubeLine(lines, 0, '1');
    OneCubeLine(lines, 1, '0');
    TwoElements(os, Keep(("1", "1")), Keep(("0", "0")));
  }

  lemma OneCubeLine(lines: seq<string>, idx: nat, c: char)
    requires idx < |lines| && lines[idx] == [c, ' ', c] && c in {'1', '0'}
    ensures PlaReader.Outcomes(AllSections(lines), 1, 1)[idx] == Keep(([c], [c]))
  {
    assert lines[idx] == [c] + " " + [c];
    PlaReader.WrittenCube(idx, [c], [c], 1, 1);
  }

  lemma TwoElements<T>(xs: seq<T>, a: T, b: T)
    requires |xs| == 2 && xs[0] == a && xs[1] == b
    ensures xs == [a, b]
  {
  }

  lemma TwoCubesFilled()
    ensures var os := [Keep(("1", "1")), Keep(("0", "0"))];
            FillingAsWritten(os, 2) == Ok(Fill(Some(1), [Some([0]), None], [Some([0]), None])) &&
            Filling(os, 2) == Ok(Fill(Some(0), [Some([1]), Some([0])], [Some([1]), Some([0])]))
  {
    var os := [Keep(("1", "1")), Keep(("0", "0"))];
    assert ToCells("1").Ok? && ToCells("1").value == [CellOf("1"[0])];
    assert ToCells("0").Ok? && ToCells("0").value == [CellOf("0"[0])];
    assert os[..1] == [Keep(("1", "1"))];
    assert os[..1][..0] == [];
    var e := Empty(2);
    assert e.ins == [None, None] && e.outs == [None, None];
    var first := Fill(Some(0), [Some([1]), None], [Some([1]), None]);
    assert e.ins[0 := Some([1])] == first.ins;
    assert Place(0, 0, ("1", "1"), e) == Ok(first);
    assert FillingAsWritten(os[..1][..0], 2) == Ok(e);
    assert FillingAsWritten(os[..1], 2) == Ok(first);
    assert Filling(os[..1], 2) == Ok(first);
    assert first.ins[1 := Some([0])] == [Some([1]), Some([0])];
    assert first.ins[0 := Some([0])] == [Some([0]), None];
  }
}
