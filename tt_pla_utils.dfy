/**
 * `tt/utils/pla_utils.py`: the older copy of the `tt` PLA reader, whose
 * header reader checks no count, and `write_table`, which writes a list of
 * (inputs, outputs) string pairs as a PLA file.
 */
module TtPlaUtils {
  import opened Base
  import opened Builtins
  import opened Trits
  import opened PlaHeader
  import opened PlaLines
  import PlaReader
  import TtRead
  import WrittenPla

  // ---------------------------------------------------------------- reading

  /** `read_info`: the last value of each count; a count never set is an unbound local. */
  function InfoOf(lines: seq<string>): (r: Result<(int, int, int)>)
    ensures Scan(lines).Err? ==> r == Err(Scan(lines).error)
    ensures Scan(lines).Ok? ==>
              (r.Ok? <==> Scan(lines).value.inputs.Some? && Scan(lines).value.outputs.Some? && Scan(lines).value.products.Some?)
    ensures r.Ok? ==> Scan(lines).Ok? && Scan(lines).value == Header(Some(r.value.0), Some(r.value.1), Some(r.value.2))
  {
    match Scan(lines)
    case Err(e) => Err(e)
    case Ok(h) => Unchecked(h)
  }

  method ReadInfo(lines: seq<string>) returns (r: Result<(int, int, int)>)
    ensures r == InfoOf(lines)
  {
    var h := ScanHeader(lines);
    if h.Err? {
      return Err(h.error);
    }
    r := Unchecked(h.value);
  }

  /** What `read_info` returns: for each count the value of the last directive setting it. */
  lemma InfoMeaning(lines: seq<string>)
    requires InfoOf(lines).Ok?
    ensures LastWins(Kinds(lines), Inputs, Some(InfoOf(lines).value.0))
    ensures LastWins(Kinds(lines), Outputs, Some(InfoOf(lines).value.1))
    ensures LastWins(Kinds(lines), Products, Some(InfoOf(lines).value.2))
  {
    var h := Scan(lines).value;
    assert InfoOf(lines).value == (h.inputs.value, h.outputs.value, h.products.value);
    ScanCounts(Kinds(lines));
  }

  /**
   * `read_info` fails when a directive's count is not an integer, and with an
   * unbound local when some count is never set.
   */
  lemma InfoFailure(lines: seq<string>)
    ensures (exists j :: 0 <= j < |lines| && Bad(Kinds(lines)[j])) ==> InfoOf(lines).Err?
    ensures Scan(lines).Ok? && LastWins(Kinds(lines), Inputs, None) ==> InfoOf(lines) == Err(UnboundLocal)
    ensures Scan(lines).Ok? && LastWins(Kinds(lines), Outputs, None) ==> InfoOf(lines) == Err(UnboundLocal)
    ensures Scan(lines).Ok? && LastWins(Kinds(lines), Products, None) ==> InfoOf(lines) == Err(UnboundLocal)
  {
    var kinds := Kinds(lines);
    if exists j :: 0 <= j < |lines| && Bad(kinds[j]) {
      ScanFailure(kinds);
    }
    if Scan(lines).Ok? && LastWins(kinds, Inputs, None) {
      NeverSet(kinds, Inputs);
    }
    if Scan(lines).Ok? && LastWins(kinds, Outputs, None) {
      NeverSet(kinds, Outputs);
    }
    if Scan(lines).Ok? && LastWins(kinds, Products, None) {
      NeverSet(kinds, Products);
    }
  }

  /**
   * `read_info` accepts every header `read_pla_info` accepts, with the same
   * counts, and also headers announcing a zero count, which
   * `read_pla_info` refuses.
   */
  lemma InfoAgrees(lines: seq<string>)
    ensures PlaReader.Info(lines).Ok? ==> InfoOf(lines) == PlaReader.Info(lines)
    ensures InfoOf(lines).Ok? && PlaReader.Info(lines).Err? ==>
              InfoOf(lines).value.0 == 0 || InfoOf(lines).value.1 == 0 || InfoOf(lines).value.2 == 0
  {
  }

  /** `read_table`: the counts `read_info` finds, then the two arrays the body loop fills. */
  function TableOf(lines: seq<string>): (r: Result<(TtRead.Grid, TtRead.Grid)>)
    ensures InfoOf(lines).Err? ==> r == Err(InfoOf(lines).error)
    ensures r.Ok? ==>
              InfoOf(lines).Ok? &&
              var (ni, no, np) := InfoOf(lines).value;
              var (ins, outs) := r.value;
              ins.width == ni && outs.width == no && |ins.rows| == np && |outs.rows| == np &&
              (forall k :: 0 <= k < np && ins.rows[k].Some? ==> |ins.rows[k].value| == ni) &&
              (forall k :: 0 <= k < np && outs.rows[k].Some? ==> |outs.rows[k].value| == no)
    ensures InfoOf(lines).Ok? && (InfoOf(lines).value.0 < 0 || InfoOf(lines).value.1 < 0 || InfoOf(lines).value.2 < 0) ==>
              r == Err(ValueError(NegativeDimension))
  {
    match InfoOf(lines)
    case Err(e) => Err(e)
    case Ok(info) => TtRead.Table(lines, info.0, info.1, info.2)
  }

  method ReadTable(lines: seq<string>) returns (r: Result<(TtRead.Grid, TtRead.Grid)>)
    ensures r == TableOf(lines)
  {
    var info := ReadInfo(lines);
    if info.Err? {
      return Err(info.error);
    }
    var (ni, no, np) := info.value;
    r := TtRead.ReadTableBody(lines, ni, no, np);
  }

  // ---------------------------------------------------------------- writing

  /** The header of `write_table`: the widths of the first entry and the entry count. */
  function HeadLines(entries: seq<(string, string)>, stamp: string): seq<string>
    requires entries != []
  {
    ["# Written by pla_utils on " + stamp,
     DirectiveText(Inputs, |entries[0].0|),
     DirectiveText(Outputs, |entries[0].1|),
     DirectiveText(Products, |entries|)]
  }

  /**
   * What `write_table` writes: the header, one line per entry, and `.e`
   * without a final newline; an empty list has no first entry to measure.
   */
  function TableText(entries: seq<(string, string)>, stamp: string): (r: Result<string>)
    ensures r.Err? <==> entries == []
    ensures r.Err? ==> r.error == IndexError
  {
    if entries == [] then Err(IndexError)
    else Ok(Terminated(HeadLines(entries, stamp) + WrittenPla.CubeLines(entries), "\n") + ".e")
  }

  /** The four header lines of `write_table`, written one after the other. */
  method WriteHead(entries: seq<(string, string)>, stamp: string) returns (text: string, ghost head: seq<string>)
    requires entries != []
    ensures text == Terminated(HeadLines(entries, stamp), "\n")
    ensures head == HeadLines(entries, stamp)
  {
    head := [];
    text := "";
    text, head := WriteLine(text, head, "# Written by pla_utils on " + stamp);
    text, head := WriteLine(text, head, DirectiveText(Inputs, |entries[0].0|));
    text, head := WriteLine(text, head, DirectiveText(Outputs, |entries[0].1|));
    text, head := WriteLine(text, head, DirectiveText(Products, |entries|));
    assert head == HeadLines(entries, stamp);
  }

  /** `write_table`, writing the header and then one line per entry. */
  method WriteTable(entries: seq<(string, string)>, stamp: string) returns (r: Result<string>)
    ensures r == TableText(entries, stamp)
  {
    if |entries| == 0 {
      return Err(IndexError);
    }
    var text;
    ghost var head;
    text, head := WriteHead(entries, stamp);
    assert head + [] == head;
    var lines := WrittenPla.CubeLines(entries);
    for k := 0 to |entries|
      invariant text == Terminated(head + lines[..k], "\n")
    {
      assert head + lines[..k + 1] == (head + lines[..k]) + [lines[k]];
      ghost var written;
      text, written := WriteLine(text, head + lines[..k], entries[k].0 + " " + entries[k].1);
    }
    assert lines[..|entries|] == lines;
    return Ok(text + ".e");
  }

  // ---------------------------------------------------------------- round trip

  /**
   * Entries `read_table` takes back as written: every entry has the widths
   * of the first, both sections are blank-free cell strings, and the input
   * section starts like a product line.
   */
  predicate Uniform(entries: seq<(string, string)>) {
    entries != [] &&
    forall k :: 0 <= k < |entries| ==>
      WrittenPla.Writable(entries[k], |entries[0].0|, |entries[0].1|) && TtRead.CellsOk(entries[k])
  }

  /** The cells of each entry, as the reader's arrays hold them. */
  function Stored(entries: seq<(string, string)>, inputSide: bool): seq<Option<seq<Trit>>> {
    seq(|entries|, k requires 0 <= k < |entries| => StoredRow(entries[k], inputSide))
  }

  /** The row the reader stores for one entry: the cells of one of its sections. */
  function StoredRow(entry: (string, string), inputSide: bool): Option<seq<Trit>> {
    match ToCells(if inputSide then entry.0 else entry.1)
    case Ok(cells) => Some(cells)
    case Err(_) => None
  }

  /** The lines of the written file: the header, one line per entry, and `.e`. */
  lemma FileLines(entries: seq<(string, string)>, stamp: string)
    requires Uniform(entries) && NoLineBreak(stamp)
    ensures SplitLines(TableText(entries, stamp).value) == HeadLines(entries, stamp) + WrittenPla.CubeLines(entries) + [".e"]
  {
    var head := HeadLines(entries, stamp);
    var lines := WrittenPla.CubeLines(entries);
    assert TableText(entries, stamp).value == Terminated(head + lines, "\n") + ".e";
    assert forall j :: 0 <= j < |head + lines| ==> NoLineBreak((head + lines)[j]) by {
      assert NoLineBreak("# Written by pla_utils on ");
      DirectiveNoLineBreak(Inputs, |entries[0].0|);
      DirectiveNoLineBreak(Outputs, |entries[0].1|);
      DirectiveNoLineBreak(Products, |entries|);
      WrittenPla.CubeLinesNoLineBreak(entries);
      AllNoLineBreak(head, lines);
    }
    TerminatedLines(head + lines, ".e");
  }

  /** The header `write_table` emits has the shape the readers scan. */
  lemma HeadWritten(entries: seq<(string, string)>, stamp: string)
    requires entries != []
    ensures WrittenPla.WrittenHeader(HeadLines(entries, stamp), |entries[0].0|, |entries[0].1|, |entries|)
  {
    var (ni, no, np) := (|entries[0].0|, |entries[0].1|, |entries|);
    assert HeadLines(entries, stamp) ==
           ["# Written by pla_utils on " + stamp, DirectiveText(Inputs, ni), DirectiveText(Outputs, no)] + [] +
           [DirectiveText(Products, np)];
    WrittenPla.StandardHeader("# Written by pla_utils on " + stamp, ni, no, [], np);
  }

  /** The file as lines reads back as the entries' cells. */
  lemma TableOfWritten(entries: seq<(string, string)>, stamp: string)
    requires Uniform(entries)
    ensures TableOf(HeadLines(entries, stamp) + WrittenPla.CubeLines(entries) + [".e"]) ==
            Ok((TtRead.Grid(|entries[0].0|, Stored(entries, true)), TtRead.Grid(|entries[0].1|, Stored(entries, false))))
  {
    var (ni, no, np) := (|entries[0].0|, |entries[0].1|, |entries|);
    var head := HeadLines(entries, stamp);
    var lines := head + WrittenPla.CubeLines(entries) + [".e"];
    assert InfoOf(lines) == Ok((ni, no, np)) by {
      HeadWritten(entries, stamp);
      WrittenPla.WrittenScan(head, entries, [".e"], ni, no, np);
    }
    var os := PlaReader.Outcomes(AllSections(lines), ni, no);
    assert Run(os, |head|, entries) by {
      HeadWritten(entries, stamp);
      WrittenPla.WrittenOutcomes(head, entries, [".e"], ni, no);
    }
    TtRead.AsWrittenContiguous(os, |head|, entries);
    var f := TtRead.FillingAsWritten(os, np).value;
    assert f.ins == Stored(entries, true);
    assert f.outs == Stored(entries, false);
  }

  /**
   * What `write_table` writes, `read_table` reads back: the widths of the
   * first entry, the number of entries, and each entry's cells in order.
   */
  lemma RoundTrip(entries: seq<(string, string)>, stamp: string)
    requires Uniform(entries) && NoLineBreak(stamp)
    ensures TableOf(SplitLines(TableText(entries, stamp).value)) ==
            Ok((TtRead.Grid(|entries[0].0|, Stored(entries, true)), TtRead.Grid(|entries[0].1|, Stored(entries, false))))
  {
    FileLines(entries, stamp);
    TableOfWritten(entries, stamp);
  }

  /**
   * The `*` the documentation of `write_table` offers for an output
   * don't-care is not a symbol `_line_to_list` accepts: such a file fails to
   * read back, at the line of the first entry.
   */
  lemma StarExample()
    ensures TableText([("1", "*")], "").Ok?
    ensures TableOf(SplitLines(TableText([("1", "*")], "").value)) == Err(PlaParsing(UnexpectedChar, Some(4)))
  {
    var entries := [("1", "*")];
    var lines := HeadLines(entries, "") + WrittenPla.CubeLines(entries) + [".e"];
    StarLines();
    StarInfo();
    StarRun();
    StarFails(PlaReader.Outcomes(AllSections(lines), 1, 1));
  }

  lemma StarInfo()
    ensures InfoOf(HeadLines([("1", "*")], "") + WrittenPla.CubeLines([("1", "*")]) + [".e"]) == Ok((1, 1, 1))
  {
    var entries := [("1", "*")];
    assert WrittenPla.Writable(entries[0], 1, 1);
    HeadWritten(entries, "");
    WrittenPla.WrittenScan(HeadLines(entries, ""), entries, [".e"], 1, 1, 1);
  }

  lemma StarRun()
    ensures Run(PlaReader.Outcomes(AllSections(HeadLines([("1", "*")], "") + WrittenPla.CubeLines([("1", "*")]) + [".e"]), 1, 1),
                4, [("1", "*")])
  {
    var entries := [("1", "*")];
    assert WrittenPla.Writable(entries[0], 1, 1);
    HeadWritten(entries, "");
    WrittenPla.WrittenOutcomes(HeadLines(entries, ""), entries, [".e"], 1, 1);
  }

  lemma StarLines()
    ensures SplitLines(TableText([("1", "*")], "").value) == HeadLines([("1", "*")], "") + WrittenPla.CubeLines([("1", "*")]) + [".e"]
  {
    var entries := [("1", "*")];
    var head := HeadLines(entries, "");
    assert forall j :: 0 <= j < |head| ==> NoLineBreak(head[j]) by {
      assert NoLineBreak("# Written by pla_utils on ");
    }
    var both := head + WrittenPla.CubeLines(entries);
    assert forall j :: 0 <= j < |both| ==> NoLineBreak(both[j]) by {
      assert both[4] == "1 *";
    }
    TerminatedLines(both, ".e");
  }

  /** The product line `1 *` after four skipped lines stops the loop there. */
  lemma StarFails(os: seq<Outcome<(string, string)>>)
    requires Run(os, 4, [("1", "*")])
    ensures TtRead.FillingAsWritten(os, 1) == Err(PlaParsing(UnexpectedChar, Some(4)))
  {
    assert !IsCellChar('*');
    assert ToCells("*").Err?;
    assert os[..5][..4] == os[..4];
    TtRead.AsWrittenPrefix(os, 4, 1);
    SkippedFill(os, 4, 1);
    TtRead.AsWrittenFailureSticks(os, 5, 1);
  }

  /** Skipped lines leave the arrays as allocated. */
  lemma {:induction false} SkippedFill(os: seq<Outcome<(string, string)>>, k: nat, np: nat)
    requires k <= |os| && forall j :: 0 <= j < k ==> os[j] == Skip
    ensures TtRead.FillingAsWritten(os[..k], np) == Ok(TtRead.Empty(np))
  {
    if k > 0 {
      assert os[..k][..k - 1] == os[..k - 1];
      SkippedFill(os, k - 1, np);
    }
  }
}
