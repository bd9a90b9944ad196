/**
 * `write_verilog_sop` of the `tt` package: a module named after its
 * argument, with the default labels as ports, and for each output the
 * sum of the products of the rows whose output is 1.
 */
module TtVerilog {
  import opened Base
  import opened Builtins
  import opened Binary
  import opened Literals
  import opened Trits
  import TtTables
  import Covers

  /** The lines of the module header over the default labels: the module line, a blank line, the two declarations, a blank line. */
  function HeaderLines(ni: nat, no: nat, moduleName: string): seq<string> {
    ["module " + moduleName + "(" + Join(", ", DefaultLabels("i", ni) + DefaultLabels("o", no)) + ");",
     "",
     "input " + Join(", ", DefaultLabels("i", ni)) + ";",
     "output " + Join(", ", DefaultLabels("o", no)) + ";",
     ""]
  }

  /**
   * The module line and the two port declarations, over the default labels
   * `i0, i1, ...` and `o0, o1, ...`, each line followed by a newline. When the
   * module name holds no line break, the text reads back as exactly those
   * lines (then the empty rest after the last newline).
   */
  function HeaderText(ni: nat, no: nat, moduleName: string): (r: string)
    ensures NoLineBreak(moduleName) ==> SplitLines(r) == HeaderLines(ni, no, moduleName) + [""]
  {
    var r := Terminated(HeaderLines(ni, no, moduleName), "\n");
    if NoLineBreak(moduleName) then
      HeaderLinesPlain(ni, no, moduleName);
      TerminatedLines(HeaderLines(ni, no, moduleName), "");
      assert r + "" == r;
      r
    else r
  }

  /** No header line holds a line break when the module name holds none. */
  lemma HeaderLinesPlain(ni: nat, no: nat, moduleName: string)
    requires NoLineBreak(moduleName)
    ensures forall k :: 0 <= k < |HeaderLines(ni, no, moduleName)| ==> NoLineBreak(HeaderLines(ni, no, moduleName)[k])
  {
    var ins := DefaultLabels("i", ni);
    var outs := DefaultLabels("o", no);
    assert NoLineBreak("i") && NoLineBreak("o");
    DefaultLabelsPlain("i", ni);
    DefaultLabelsPlain("o", no);
    assert forall k :: 0 <= k < |ins + outs| ==> NoLineBreak((ins + outs)[k]);
    JoinNoLineBreak(", ", ins + outs);
    JoinNoLineBreak(", ", ins);
    JoinNoLineBreak(", ", outs);
    assert NoLineBreak("module ") && NoLineBreak("(") && NoLineBreak(");") && NoLineBreak("input ") && NoLineBreak("output ") && NoLineBreak(";");
    NoLineBreakConcat("module ", moduleName);
    NoLineBreakConcat("module " + moduleName, "(");
    NoLineBreakConcat("module " + moduleName + "(", Join(", ", ins + outs));
    NoLineBreakConcat("module " + moduleName + "(" + Join(", ", ins + outs), ");");
    NoLineBreakConcat("input ", Join(", ", ins));
    NoLineBreakConcat("input " + Join(", ", ins), ";");
    NoLineBreakConcat("output ", Join(", ", outs));
    NoLineBreakConcat("output " + Join(", ", outs), ";");
  }

  /** The literals of a row of input cells written as a cube. */
  function RowTerm(row: seq<Trit>): (lits: seq<Lit>)
    ensures Labelled(lits, DefaultLabels("i", |row|))
  {
    Covers.CubeLits(Render(row, '-'))
  }

  /** The literals of every input row of a table, in order. */
  function Terms(s: TtTables.TruthTable): (r: seq<seq<Lit>>)
    ensures |r| == TtTables.Paired(s)
  {
    seq(TtTables.Paired(s), k requires 0 <= k < TtTables.Paired(s) => RowTerm(s.inputLines.rows[k]))
  }

  /** The product of each row of the onset, over its own default labels, in parentheses without blanks. */
  function Products(s: TtTables.TruthTable): (r: seq<string>)
    ensures |r| == TtTables.Paired(s)
  {
    seq(TtTables.Paired(s), k requires 0 <= k < TtTables.Paired(s) =>
      "(" + ProductText(RowTerm(s.inputLines.rows[k]), DefaultLabels("i", |s.inputLines.rows[k]|)) + ")")
  }

  /** The assignment of output `c`, written even when its onset is empty. */
  function AssignLine(c: nat, products: seq<string>): string {
    "assign " + "o" + NatToString(c) + " = " + Join(" | ", products) + ";"
  }

  /** What the loop writes for output `c`: the sum of its onset's products. */
  function OutputLine(t: TtTables.TruthTable, c: nat): Result<string>
    requires TtTables.Shaped(t.outputLines)
  {
    match TtTables.Onset(t, c)
    case Err(e) => Err(e)
    case Ok(s) => Ok(AssignLine(c, Products(s)))
  }

  /** What each step of the loop yields for the first `n` outputs. */
  function LineSteps(t: TtTables.TruthTable, n: nat): seq<Result<seq<string>>>
    requires TtTables.Shaped(t.outputLines)
  {
    seq(n, c requires 0 <= c < n => Single(OutputLine(t, c)))
  }

  /** The assignments of the first `n` outputs, or the error of the first that fails. */
  function Assigns(t: TtTables.TruthTable, n: nat): Result<seq<string>>
    requires TtTables.Shaped(t.outputLines)
  {
    Gather(LineSteps(t, n))
  }

  /** The loop writes one line per output, the assignment of its onset; it fails exactly when some onset does. */
  lemma AssignsLines(t: TtTables.TruthTable, n: nat)
    requires TtTables.Shaped(t.outputLines)
    ensures Assigns(t, n).Ok? <==> forall c :: 0 <= c < n ==> TtTables.Onset(t, c).Ok?
    ensures Assigns(t, n).Ok? ==>
              |Assigns(t, n).value| == n &&
              forall c :: 0 <= c < n ==> TtTables.Onset(t, c).Ok? && Assigns(t, n).value[c] == AssignLine(c, Products(TtTables.Onset(t, c).value))
  {
    var steps := LineSteps(t, n);
    GatherOk(steps);
    GatherOneEach(steps);
    assert forall c :: 0 <= c < n ==> (steps[c].Ok? <==> TtTables.Onset(t, c).Ok?);
  }

  /**
   * `write_verilog_sop(tt, filename, modulename)`: the header, then for each
   * output `c` in order the assignment of `oC` summing the products of its
   * onset (even an empty one), then `endmodule`.
   */
  function VerilogSop(t: TtTables.TruthTable, moduleName: string): (r: Result<string>)
    requires TtTables.Shaped(t.outputLines)
    ensures r.Ok? <==> forall c :: 0 <= c < TtTables.NumOutputs(t) ==> TtTables.Onset(t, c).Ok?
    ensures r.Ok? ==>
              Assigns(t, TtTables.NumOutputs(t)).Ok? &&
              var lines := Assigns(t, TtTables.NumOutputs(t)).value;
              |lines| == TtTables.NumOutputs(t) &&
              (forall c :: 0 <= c < |lines| ==>
                 TtTables.Onset(t, c).Ok? && lines[c] == AssignLine(c, Products(TtTables.Onset(t, c).value))) &&
              r.value == HeaderText(TtTables.NumInputs(t), TtTables.NumOutputs(t), moduleName) + Terminated(lines, "\n") + "\nendmodule\n"
  {
    AssignsLines(t, TtTables.NumOutputs(t));
    match Assigns(t, TtTables.NumOutputs(t))
    case Err(e) => Err(e)
    case Ok(lines) =>
      Ok(HeaderText(TtTables.NumInputs(t), TtTables.NumOutputs(t), moduleName) + Terminated(lines, "\n") + "\nendmodule\n")
  }

  /** `line.input_product(0)` for a row taken out of the onset is the product of its input cells. */
  lemma RowProduct(i: seq<Trit>, o: seq<Trit>)
    ensures TtTables.Product(TtTables.New(TtTables.Row(i), TtTables.Row(o)), 0) ==
            Ok(ProductText(RowTerm(i), DefaultLabels("i", |i|)))
  {
    var line := TtTables.New(TtTables.Row(i), TtTables.Row(o));
    assert line.inputLines.rows[0] == i;
  }

  /** The inner loop: one product per row of the onset, each row made a table of its own. */
  method OnsetProducts(s: TtTables.TruthTable) returns (products: seq<string>)
    ensures products == Products(s)
  {
    products := [];
    var rows := TtTables.Paired(s);
    for k := 0 to rows
      invariant products == Products(s)[..k]
    {
      var line := TtTables.New(TtTables.Row(s.inputLines.rows[k]), TtTables.Row(s.outputLines.rows[k]));
      var p := TtTables.InputProduct(line, 0);
      RowProduct(s.inputLines.rows[k], s.outputLines.rows[k]);
      assert Products(s)[..k + 1] == Products(s)[..k] + ["(" + p.value + ")"];
      products := products + ["(" + p.value + ")"];
    }
    assert Products(s)[..rows] == Products(s);
  }

  /** `write_verilog_sop`, writing the assignments output by output. */
  method WriteVerilogSop(t: TtTables.TruthTable, moduleName: string) returns (r: Result<string>)
    requires TtTables.Shaped(t.outputLines)
    ensures r == VerilogSop(t, moduleName)
  {
    var no := TtTables.NumOutputs(t);
    ghost var steps := LineSteps(t, no);
    var head := HeaderText(TtTables.NumInputs(t), no, moduleName);
    ghost var lines: seq<string> := [];
    var body := "";
    assert steps[..0] == [];
    for c := 0 to no
      invariant Gather(steps[..c]) == Ok(lines)
      invariant body == Terminated(lines, "\n")
    {
      var s := TtTables.Onset(t, c);
      if s.Err? {
        GatherStops(steps, c, s.error);
        return Err(s.error);
      }
      var products := OnsetProducts(s.value);
      GatherSnoc(steps, c, lines, [AssignLine(c, products)]);
      body, lines := WriteLine(body, lines, AssignLine(c, products));
    }
    assert steps[..no] == steps;
    return Ok(head + body + "\nendmodule\n");
  }

  /**
   * For a table whose arrays have one row per product, the onset of an
   * existing output is found: it holds, in order, the input rows of the
   * products whose output `c` is 1.
   */
  lemma OnsetRows(t: TtTables.TruthTable, c: nat)
    requires TtTables.Shaped(t.outputLines)
    requires |t.inputLines.rows| == |t.outputLines.rows| && c < TtTables.NumOutputs(t)
    ensures OutputLine(t, c).Ok? && TtTables.Onset(t, c).Ok?
    ensures var s := TtTables.Onset(t, c).value;
            var idx := TtTables.OnesIn(t.outputLines, c);
            TtTables.Paired(s) == |idx| &&
            forall j :: 0 <= j < |idx| ==> s.inputLines.rows[j] == t.inputLines.rows[idx[j]]
  {
    assert PyIndex(t.outputLines.width, c) == Some(c);
    var idx := TtTables.OnesIn(t.outputLines, c);
    forall j | 0 <= j < |idx| ensures idx[j] < TtTables.NumProducts(t) {
      assert idx[j] in idx;
    }
  }

  /**
   * The sum written for output `c` is true under exactly the input
   * assignments covered by a row whose output `c` is 1.
   */
  lemma SopMeaning(t: TtTables.TruthTable, c: nat)
    requires TtTables.Shaped(t.inputLines) && TtTables.Shaped(t.outputLines)
    requires |t.inputLines.rows| == |t.outputLines.rows| && c < TtTables.NumOutputs(t)
    ensures TtTables.Onset(t, c).Ok?
    ensures forall x :: IsBinary(x) && |x| == TtTables.NumInputs(t) ==>
              (AnyTermHolds(Terms(TtTables.Onset(t, c).value), x) <==>
               exists k :: 0 <= k < TtTables.NumProducts(t) && t.outputLines.rows[k][c] == 1 &&
                           TtTables.RowCovers(t.inputLines.rows[k], x))
  {
    OnsetRows(t, c);
    var s := TtTables.Onset(t, c).value;
    var idx := TtTables.OnesIn(t.outputLines, c);
    var terms := Terms(s);
    assert forall j :: 0 <= j < |idx| ==> terms[j] == RowTerm(t.inputLines.rows[idx[j]]);
    forall x | IsBinary(x) && |x| == TtTables.NumInputs(t)
      ensures AnyTermHolds(terms, x) <==>
              exists k :: 0 <= k < TtTables.NumProducts(t) && t.outputLines.rows[k][c] == 1 &&
                          TtTables.RowCovers(t.inputLines.rows[k], x)
    {
      PickedTerms(t.inputLines.rows, t.outputLines.rows, c, idx, terms, x);
    }
  }

  /**
   * The terms of the rows picked by their output `c` hold under `x` exactly
   * when one of those rows covers `x`.
   */
  lemma PickedTerms(rows: seq<seq<Trit>>, outs: seq<seq<Trit>>, c: nat, idx: seq<nat>, terms: seq<seq<Lit>>, x: string)
    requires |rows| == |outs| && forall k :: 0 <= k < |outs| ==> c < |outs[k]|
    requires forall k: nat :: k in idx <==> k < |outs| && outs[k][c] == 1
    requires |terms| == |idx| && forall j :: 0 <= j < |idx| ==> idx[j] < |rows| && terms[j] == RowTerm(rows[idx[j]])
    requires IsBinary(x) && forall k :: 0 <= k < |rows| ==> |rows[k]| == |x|
    ensures AnyTermHolds(terms, x) <==> exists k :: 0 <= k < |rows| && outs[k][c] == 1 && TtTables.RowCovers(rows[k], x)
  {
    if AnyTermHolds(terms, x) {
      var j :| 0 <= j < |terms| && HoldsAll(terms[j], x);
      assert idx[j] in idx;
      TtTables.RowProductMeaning(rows[idx[j]], x);
    }
    if exists k :: 0 <= k < |rows| && outs[k][c] == 1 && TtTables.RowCovers(rows[k], x) {
      var k :| 0 <= k < |rows| && outs[k][c] == 1 && TtTables.RowCovers(rows[k], x);
      assert (k as nat) in idx;
      var j :| 0 <= j < |idx| && idx[j] == k;
      TtTables.RowProductMeaning(rows[k], x);
      assert HoldsAll(terms[j], x);
    }
  }

  /** A column without a 1 has no onset rows. */
  lemma NoOnes(m: TtTables.Matrix, c: nat)
    requires TtTables.Shaped(m) && c < m.width
    requires forall k :: 0 <= k < |m.rows| ==> m.rows[k][c] != 1
    ensures TtTables.OnesIn(m, c) == []
  {
    var idx := TtTables.OnesIn(m, c);
    assert forall k: nat :: k !in idx;
    Unoccupied(idx);
  }

  /** A sequence nothing is a member of is empty. */
  lemma Unoccupied(xs: seq<nat>)
    requires forall k: nat :: k !in xs
    ensures xs == []
  {
    HeadIn(xs);
  }

  /** The first element of a non-empty sequence is a member of it. */
  lemma HeadIn(xs: seq<nat>)
    ensures xs != [] ==> xs[0] in xs
  {
  }

  /**
   * An output that is never 1 still gets an assignment, whose sum is
   * empty: the line `assign oC = ;`.
   */
  lemma EmptyOnsetLine(t: TtTables.TruthTable, c: nat)
    requires TtTables.Shaped(t.outputLines) && c < TtTables.NumOutputs(t)
    requires forall k :: 0 <= k < |t.outputLines.rows| ==> t.outputLines.rows[k][c] != 1
    ensures OutputLine(t, c) == Ok("assign o" + NatToString(c) + " = ;")
  {
    EmptyOnset(t, c);
    EmptySum(c);
  }

  lemma EmptyOnset(t: TtTables.TruthTable, c: nat)
    requires TtTables.Shaped(t.outputLines) && c < TtTables.NumOutputs(t)
    requires forall k :: 0 <= k < |t.outputLines.rows| ==> t.outputLines.rows[k][c] != 1
    ensures TtTables.Onset(t, c).Ok? && Products(TtTables.Onset(t, c).value) == []
  {
    assert PyIndex(t.outputLines.width, c) == Some(c);
    NoOnes(t.outputLines, c);
    assert TtTables.Paired(TtTables.Onset(t, c).value) == 0;
  }

  lemma EmptySum(c: nat)
    ensures AssignLine(c, []) == "assign o" + NatToString(c) + " = ;"
  {
    assert Join(" | ", []) == "";
    assert "assign " + "o" == "assign o";
    assert " = " + "" + ";" == " = ;";
  }
}
