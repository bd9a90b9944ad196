/**
 * `read_pla` and `write_pla` of the `tt` package: a PLA file read into the
 * two cell arrays of a table, and a table written back as a PLA file whose
 * header names its counts and default labels.
 */
module TtPla {
  import opened Base
  import opened Builtins
  import opened Trits
  import opened Literals
  import opened PlaHeader
  import opened PlaLines
  import PlaReader
  import TtRead
  import TtTables
  import WrittenPla

  // ---------------------------------------------------------------- reading

  /**
   * `read_pla`: the counts `read_pla_info` finds (the same loop and checks as
   * the `truthtables` reader), then the two arrays the body loop fills.
   */
  function Read(lines: seq<string>): (r: Result<(TtRead.Grid, TtRead.Grid)>)
    ensures PlaReader.Info(lines).Err? ==> r == Err(PlaReader.Info(lines).error)
    ensures r.Ok? ==>
              PlaReader.Info(lines).Ok? &&
              var (ni, no, np) := PlaReader.Info(lines).value;
              var (ins, outs) := r.value;
              ins.width == ni && outs.width == no && |ins.rows| == np && |outs.rows| == np &&
              (forall k :: 0 <= k < np && ins.rows[k].Some? ==> |ins.rows[k].value| == ni) &&
              (forall k :: 0 <= k < np && outs.rows[k].Some? ==> |outs.rows[k].value| == no)
    ensures PlaReader.Info(lines).Ok? &&
            (PlaReader.Info(lines).value.0 < 0 || PlaReader.Info(lines).value.1 < 0 || PlaReader.Info(lines).value.2 < 0) ==>
              r == Err(ValueError(NegativeDimension))
  {
    match PlaReader.Info(lines)
    case Err(e) => Err(e)
    case Ok(info) => TtRead.Table(lines, info.0, info.1, info.2)
  }

  method ReadPla(lines: seq<string>) returns (r: Result<(TtRead.Grid, TtRead.Grid)>)
    ensures r == Read(lines)
  {
    var info := PlaReader.ReadPlaInfo(lines);
    if info.Err? {
      return Err(info.error);
    }
    var (ni, no, np) := info.value;
    r := TtRead.ReadTableBody(lines, ni, no, np);
  }

  // ---------------------------------------------------------------- writing

  /** The comment line both `tt` writers start with. */
  function Stamp(stamp: string): string {
    "# Written by pla_utils on " + stamp
  }

  /**
   * The header lines of `write_pla`: the comment, the counts of inputs and
   * outputs, the default labels, the type when one is given, and the
   * product count.
   */
  function HeadLines(t: TtTables.TruthTable, stamp: string, plaType: string): seq<string> {
    [Stamp(stamp),
     DirectiveText(Inputs, TtTables.NumInputs(t)),
     DirectiveText(Outputs, TtTables.NumOutputs(t)),
     ".ilb " + Join(" ", DefaultLabels("i", TtTables.NumInputs(t))),
     ".ob " + Join(" ", DefaultLabels("o", TtTables.NumOutputs(t)))] +
    (if plaType != [] then [".type " + plaType] else []) +
    [DirectiveText(Products, TtTables.NumProducts(t))]
  }

  /** What `write_pla` puts in the file: the header lines, the table's text, a newline and `.end`. */
  function PlaText(t: TtTables.TruthTable, stamp: string, plaType: string): (r: string)
    ensures Terminated(HeadLines(t, stamp, plaType), "\n") <= r
    ensures |r| >= 4 && r[|r| - 4..] == ".end"
  {
    Terminated(HeadLines(t, stamp, plaType), "\n") + TtTables.Text(t) + "\n" + ".end"
  }

  /** The header lines of `write_pla`, written one after the other; a missing or empty type is left out. */
  method WriteHead(t: TtTables.TruthTable, stamp: string, plaType: string) returns (text: string, ghost written: seq<string>)
    ensures text == Terminated(HeadLines(t, stamp, plaType), "\n")
    ensures written == HeadLines(t, stamp, plaType)
  {
    written := [];
    text := "";
    text, written := WriteLine(text, written, Stamp(stamp));
    text, written := WriteLine(text, written, DirectiveText(Inputs, TtTables.NumInputs(t)));
    text, written := WriteLine(text, written, DirectiveText(Outputs, TtTables.NumOutputs(t)));
    text, written := WriteLine(text, written, ".ilb " + Join(" ", DefaultLabels("i", TtTables.NumInputs(t))));
    text, written := WriteLine(text, written, ".ob " + Join(" ", DefaultLabels("o", TtTables.NumOutputs(t))));
    if plaType != [] {
      text, written := WriteLine(text, written, ".type " + plaType);
    }
    text, written := WriteLine(text, written, DirectiveText(Products, TtTables.NumProducts(t)));
    assert written == HeadLines(t, stamp, plaType);
  }

  /** `write_pla`: the header, the table's text, a newline and `.end`. */
  method WritePla(t: TtTables.TruthTable, stamp: string, plaType: string) returns (text: string)
    ensures text == PlaText(t, stamp, plaType)
  {
    ghost var written;
    text, written := WriteHead(t, stamp, plaType);
    var body := TtTables.Str(t);
    text := text + body + "\n" + ".end";
  }

  // ---------------------------------------------------------------- round trip

  /** The two sections of a table row as `__str__` writes them. */
  function Items(t: TtTables.TruthTable): (items: seq<(string, string)>)
    ensures |items| == TtTables.Paired(t)
  {
    seq(TtTables.Paired(t), k requires 0 <= k < TtTables.Paired(t) =>
      (Render(t.inputLines.rows[k], '-'), Render(t.outputLines.rows[k], '~')))
  }

  /** The cells of each row, as the reader's arrays hold them. */
  function Stored(rows: seq<seq<Trit>>): seq<Option<seq<Trit>>> {
    seq(|rows|, k requires 0 <= k < |rows| => Some(rows[k]))
  }

  /** A table whose file reads back: at least one input, output and product, and a row of outputs per row of inputs. */
  predicate Readable(t: TtTables.TruthTable) {
    TtTables.Shaped(t.inputLines) && TtTables.Shaped(t.outputLines) &&
    |t.inputLines.rows| == |t.outputLines.rows| &&
    TtTables.NumInputs(t) >= 1 && TtTables.NumOutputs(t) >= 1 && TtTables.NumProducts(t) >= 1
  }

  /** The product lines of the text are the written sections of each row. */
  lemma RowTextsAreCubeLines(t: TtTables.TruthTable)
    ensures TtTables.RowTexts(t) == WrittenPla.CubeLines(Items(t))
  {
  }

  /** Every written row is a product line of the announced widths, and reads back as its cells. */
  lemma ItemsWritable(t: TtTables.TruthTable)
    requires Readable(t)
    ensures forall k :: 0 <= k < |Items(t)| ==>
              WrittenPla.Writable(Items(t)[k], TtTables.NumInputs(t), TtTables.NumOutputs(t)) &&
              TtRead.CellsOk(Items(t)[k]) &&
              ToCells(Items(t)[k].0).value == t.inputLines.rows[k] &&
              ToCells(Items(t)[k].1).value == t.outputLines.rows[k]
  {
    forall k | 0 <= k < |Items(t)|
      ensures WrittenPla.Writable(Items(t)[k], TtTables.NumInputs(t), TtTables.NumOutputs(t))
      ensures TtRead.CellsOk(Items(t)[k])
      ensures ToCells(Items(t)[k].0).value == t.inputLines.rows[k]
      ensures ToCells(Items(t)[k].1).value == t.outputLines.rows[k]
    {
      var (i, o) := (t.inputLines.rows[k], t.outputLines.rows[k]);
      RenderedIsWord(i, '-');
      RenderedIsWord(o, '~');
      ReadRendered(i, '-');
      ReadRendered(o, '~');
      assert Render(i, '-')[0] == Glyph(i[0], '-');
    }
  }

  /** The header `write_pla` emits has the shape the readers scan. */
  lemma HeadWritten(t: TtTables.TruthTable, stamp: string, plaType: string)
    ensures WrittenPla.WrittenHeader(HeadLines(t, stamp, plaType), TtTables.NumInputs(t), TtTables.NumOutputs(t), TtTables.NumProducts(t))
  {
    var (ni, no, np) := (TtTables.NumInputs(t), TtTables.NumOutputs(t), TtTables.NumProducts(t));
    var extras := [".ilb " + Join(" ", DefaultLabels("i", ni)), ".ob " + Join(" ", DefaultLabels("o", no))] +
                  (if plaType != [] then [".type " + plaType] else []);
    assert HeadLines(t, stamp, plaType) ==
           [Stamp(stamp), DirectiveText(Inputs, ni), DirectiveText(Outputs, no)] + extras + [DirectiveText(Products, np)];
    assert forall j :: 0 <= j < |extras| ==> WrittenPla.Dotted(extras[j]);
    WrittenPla.StandardHeader(Stamp(stamp), ni, no, extras, np);
  }

  /** No line of that header holds a line break. */
  lemma HeadNoLineBreak(t: TtTables.TruthTable, stamp: string, plaType: string)
    requires NoLineBreak(stamp) && NoLineBreak(plaType)
    ensures forall j :: 0 <= j < |HeadLines(t, stamp, plaType)| ==> NoLineBreak(HeadLines(t, stamp, plaType)[j])
  {
    var head := HeadLines(t, stamp, plaType);
    LabelsNoLineBreak("i", TtTables.NumInputs(t));
    LabelsNoLineBreak("o", TtTables.NumOutputs(t));
    DirectiveNoLineBreak(Inputs, TtTables.NumInputs(t));
    DirectiveNoLineBreak(Outputs, TtTables.NumOutputs(t));
    DirectiveNoLineBreak(Products, TtTables.NumProducts(t));
    assert NoLineBreak("# Written by pla_utils on ") && NoLineBreak(".ilb ") && NoLineBreak(".ob ") && NoLineBreak(".type ");
  }

  lemma LabelsNoLineBreak(prefix: string, n: nat)
    requires NoLineBreak(prefix)
    ensures NoLineBreak(Join(" ", DefaultLabels(prefix, n)))
  {
    JoinNoLineBreak(" ", DefaultLabels(prefix, n));
  }

  /** No product line of the text holds a line break. */
  lemma RowTextsNoLineBreak(t: TtTables.TruthTable)
    ensures forall k :: 0 <= k < TtTables.Paired(t) ==> NoLineBreak(TtTables.RowTexts(t)[k])
  {
    forall k | 0 <= k < TtTables.Paired(t) ensures NoLineBreak(TtTables.RowTexts(t)[k]) {
      RenderedIsWord(t.inputLines.rows[k], '-');
      RenderedIsWord(t.outputLines.rows[k], '~');
    }
  }

  /** The lines of the written file: the header, one product line per row, and `.end`. */
  lemma FileLines(t: TtTables.TruthTable, stamp: string, plaType: string)
    requires Readable(t) && NoLineBreak(stamp) && NoLineBreak(plaType)
    ensures SplitLines(PlaText(t, stamp, plaType)) == HeadLines(t, stamp, plaType) + WrittenPla.CubeLines(Items(t)) + [".end"]
  {
    var head := HeadLines(t, stamp, plaType);
    var texts := TtTables.RowTexts(t);
    assert PlaText(t, stamp, plaType) == Terminated(head + texts, "\n") + ".end" by {
      TtTables.TextLines(t);
      TerminatedIsJoin(texts, "\n");
      TerminatedAppend(head, texts, "\n");
    }
    assert forall j :: 0 <= j < |head + texts| ==> NoLineBreak((head + texts)[j]) by {
      HeadNoLineBreak(t, stamp, plaType);
      RowTextsNoLineBreak(t);
      AllNoLineBreak(head, texts);
    }
    TerminatedLines(head + texts, ".end");
    RowTextsAreCubeLines(t);
  }

  /** The product lines of a written file fill the reader's arrays with the cells of the table, row by row. */
  lemma FilledWritten(t: TtTables.TruthTable, stamp: string, plaType: string)
    requires Readable(t)
    ensures var lines := HeadLines(t, stamp, plaType) + WrittenPla.CubeLines(Items(t)) + [".end"];
            var os := PlaReader.Outcomes(AllSections(lines), TtTables.NumInputs(t), TtTables.NumOutputs(t));
            TtRead.FillingAsWritten(os, TtTables.NumProducts(t)).Ok? &&
            TtRead.FillingAsWritten(os, TtTables.NumProducts(t)).value.ins == Stored(t.inputLines.rows) &&
            TtRead.FillingAsWritten(os, TtTables.NumProducts(t)).value.outs == Stored(t.outputLines.rows)
  {
    var (ni, no, np) := (TtTables.NumInputs(t), TtTables.NumOutputs(t), TtTables.NumProducts(t));
    var head := HeadLines(t, stamp, plaType);
    var items := Items(t);
    var lines := head + WrittenPla.CubeLines(items) + [".end"];
    ItemsWritable(t);
    WrittenRun(t, stamp, plaType);
    StoredFill(PlaReader.Outcomes(AllSections(lines), ni, no), |head|, items, t.inputLines.rows, t.outputLines.rows);
  }

  /** A run of product lines whose cells are the rows `ins` and `outs` fills the arrays with exactly those rows. */
  lemma StoredFill(os: seq<Outcome<(string, string)>>, h: nat, items: seq<(string, string)>,
                   ins: seq<seq<Trit>>, outs: seq<seq<Trit>>)
    requires Run(os, h, items) && (h >= 1 || items == []) && |ins| == |items| && |outs| == |items|
    requires forall k :: 0 <= k < |items| ==>
               TtRead.CellsOk(items[k]) && ToCells(items[k].0).value == ins[k] && ToCells(items[k].1).value == outs[k]
    ensures TtRead.FillingAsWritten(os, |items|).Ok?
    ensures TtRead.FillingAsWritten(os, |items|).value.ins == Stored(ins)
    ensures TtRead.FillingAsWritten(os, |items|).value.outs == Stored(outs)
  {
    TtRead.AsWrittenContiguous(os, h, items);
    var f := TtRead.FillingAsWritten(os, |items|).value;
    assert f.ins == Stored(ins);
    assert f.outs == Stored(outs);
  }

  /** Past the header, the reader meets exactly the product lines of the rows, one after another. */
  lemma WrittenRun(t: TtTables.TruthTable, stamp: string, plaType: string)
    requires Readable(t)
    ensures var lines := HeadLines(t, stamp, plaType) + WrittenPla.CubeLines(Items(t)) + [".end"];
            Run(PlaReader.Outcomes(AllSections(lines), TtTables.NumInputs(t), TtTables.NumOutputs(t)),
                |HeadLines(t, stamp, plaType)|, Items(t))
  {
    ItemsWritable(t);
    HeadWritten(t, stamp, plaType);
    WrittenPla.WrittenOutcomes(HeadLines(t, stamp, plaType), Items(t), [".end"], TtTables.NumInputs(t), TtTables.NumOutputs(t));
  }

  /** The lines `write_pla` writes read back as the counts and cells of the table. */
  lemma ReadWritten(t: TtTables.TruthTable, stamp: string, plaType: string)
    requires Readable(t)
    ensures Read(HeadLines(t, stamp, plaType) + WrittenPla.CubeLines(Items(t)) + [".end"]) ==
            Ok((TtRead.Grid(TtTables.NumInputs(t), Stored(t.inputLines.rows)),
                TtRead.Grid(TtTables.NumOutputs(t), Stored(t.outputLines.rows))))
  {
    var (ni, no, np) := (TtTables.NumInputs(t), TtTables.NumOutputs(t), TtTables.NumProducts(t));
    var head := HeadLines(t, stamp, plaType);
    var items := Items(t);
    var lines := head + WrittenPla.CubeLines(items) + [".end"];
    assert PlaReader.Info(lines) == Ok((ni, no, np)) by {
      ItemsWritable(t);
      HeadWritten(t, stamp, plaType);
      WrittenPla.WrittenScan(head, items, [".end"], ni, no, np);
    }
    FilledWritten(t, stamp, plaType);
  }

  /**
   * What `write_pla` writes, `read_pla` reads back: the counts of the table
   * and, row by row, its input and output cells.
   */
  lemma RoundTrip(t: TtTables.TruthTable, stamp: string, plaType: string)
    requires Readable(t) && NoLineBreak(stamp) && NoLineBreak(plaType)
    ensures Read(SplitLines(PlaText(t, stamp, plaType))) ==
            Ok((TtRead.Grid(TtTables.NumInputs(t), Stored(t.inputLines.rows)),
                TtRead.Grid(TtTables.NumOutputs(t), Stored(t.outputLines.rows))))
  {
    FileLines(t, stamp, plaType);
    ReadWritten(t, stamp, plaType);
  }

  /**
   * A file whose first line is a cube line, `1 1`, followed by `0 0` and the
   * header: `read_pla` resets `tt_start` at the second cube line, overwrites
   * row 0 with it and leaves row 1 unwritten.
   */
  lemma StartResetFile(lines: seq<string>)
    requires lines == ["1 1", "0 0", ".i 1", ".o 1", ".p 2"]
    ensures Read(lines) == Ok((TtRead.Grid(1, [Some([0]), None]), TtRead.Grid(1, [Some([0]), None])))
  {
    StartResetShape(lines);
    StartResetInfo(lines);
    StartResetOutcomes(lines);
    StartResetFilled(PlaReader.Outcomes(AllSections(lines), 1, 1));
  }

  lemma StartResetShape(lines: seq<string>)
    requires lines == ["1 1", "0 0", ".i 1", ".o 1", ".p 2"]
    ensures |lines| == 5 && lines[0] == ['1', ' ', '1'] && lines[1] == ['0', ' ', '0']
    ensures WrittenPla.NoDirective(lines[0]) && WrittenPla.NoDirective(lines[1])
    ensures lines[2] == DirectiveText(Inputs, 1) && lines[3] == DirectiveText(Outputs, 1)
    ensures lines[4] == DirectiveText(Products, 2)
    ensures forall j :: 2 <= j < 5 ==> WrittenPla.Plain(lines[j])
  {
    assert NatToString(1) == "1" && NatToString(2) == "2";
  }

  /** Two lines that set no count, then `.i 1`, `.o 1` and `.p 2`. */
  lemma StartResetInfo(lines: seq<string>)
    requires |lines| == 5 && WrittenPla.NoDirective(lines[0]) && WrittenPla.NoDirective(lines[1])
    requires lines[2] == DirectiveText(Inputs, 1) && lines[3] == DirectiveText(Outputs, 1)
    requires lines[4] == DirectiveText(Products, 2)
    ensures PlaReader.Info(lines) == Ok((1, 1, 2))
  {
    StartResetKinds(lines);
    StartResetScan(Kinds(lines));
    assert Scan(lines) == Ok(Header(Some(1), Some(1), Some(2)));
  }

  lemma StartResetKinds(lines: seq<string>)
    requires |lines| == 5 && WrittenPla.NoDirective(lines[0]) && WrittenPla.NoDirective(lines[1])
    requires lines[2] == DirectiveText(Inputs, 1) && lines[3] == DirectiveText(Outputs, 1)
    requires lines[4] == DirectiveText(Products, 2)
    ensures Kinds(lines) == [Other, Other, Directive(Inputs, Ok(1)), Directive(Outputs, Ok(1)), Directive(Products, Ok(2))]
  {
    WrittenPla.NoDirectiveAt(lines, 0);
    WrittenPla.NoDirectiveAt(lines, 1);
    WrittenPla.DirectiveAt(lines, 2, Inputs, 1);
    WrittenPla.DirectiveAt(lines, 3, Outputs, 1);
    WrittenPla.DirectiveAt(lines, 4, Products, 2);
    FiveElements(Kinds(lines), Other, Other, Directive(Inputs, Ok(1)), Directive(Outputs, Ok(1)), Directive(Products, Ok(2)));
  }

  lemma FiveElements<T>(xs: seq<T>, a: T, b: T, c: T, d: T, e: T)
    requires |xs| == 5 && xs[0] == a && xs[1] == b && xs[2] == c && xs[3] == d && xs[4] == e
    ensures xs == [a, b, c, d, e]
  {
  }

  lemma StartResetScan(ks: seq<Kind>)
    requires ks == [Other, Other, Directive(Inputs, Ok(1)), Directive(Outputs, Ok(1)), Directive(Products, Ok(2))]
    ensures ScanKinds(ks) == Ok(Header(Some(1), Some(1), Some(2)))
  {
    assert ks[..0] == [];
    ScanPrefix(ks, 0);
    ScanPrefix(ks, 1);
    ScanPrefix(ks, 2);
    ScanPrefix(ks, 3);
    ScanPrefix(ks, 4);
    assert ks[..5] == ks;
  }

  /** The cube lines `1 1` and `0 0`, then three lines that are not cube lines. */
  lemma StartResetOutcomes(lines: seq<string>)
    requires |lines| == 5 && lines[0] == ['1', ' ', '1'] && lines[1] == ['0', ' ', '0']
    requires forall j :: 2 <= j < 5 ==> WrittenPla.Plain(lines[j])
    ensures PlaReader.Outcomes(AllSections(lines), 1, 1) == [Keep(("1", "1")), Keep(("0", "0")), Skip, Skip, Skip]
  {
    var os := PlaReader.Outcomes(AllSections(lines), 1, 1);
    TtRead.OneCubeLine(lines, 0, '1');
    TtRead.OneCubeLine(lines, 1, '0');
    SkippedTail(lines, 2, 1, 1);
    FiveElements(os, Keep(("1", "1")), Keep(("0", "0")), Skip, Skip, Skip);
  }

  lemma SkippedTail(lines: seq<string>, h: nat, ni: int, no: int)
    requires h <= |lines| && forall j :: h <= j < |lines| ==> WrittenPla.Plain(lines[j])
    ensures forall j :: h <= j < |lines| ==> PlaReader.Outcomes(AllSections(lines), ni, no)[j] == Skip
  {
    forall j | h <= j < |lines| ensures PlaReader.Outcomes(AllSections(lines), ni, no)[j] == Skip {
      WrittenPla.PlainSkipped(j, lines[j], ni, no);
    }
  }

  lemma StartResetFilled(os: seq<Outcome<(string, string)>>)
    requires os == [Keep(("1", "1")), Keep(("0", "0")), Skip, Skip, Skip]
    ensures TtRead.FillingAsWritten(os, 2) == Ok(TtRead.Fill(Some(1), [Some([0]), None], [Some([0]), None]))
  {
    assert os[..2] == [Keep(("1", "1")), Keep(("0", "0"))];
    TtRead.TwoCubesFilled();
    TtRead.AsWrittenPrefix(os, 2, 2);
    TtRead.AsWrittenPrefix(os, 3, 2);
    TtRead.AsWrittenPrefix(os, 4, 2);
    assert os[..5] == os;
  }
}
