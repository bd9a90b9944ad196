/**
 * The writers of the `truthtables` package: `to_file`, which picks a writer
 * from the format or the file name, the two Verilog writers (a `case`
 * statement over every input combination, or one sum of products per
 * output) and the PLA writer. A writer returns the text it puts in the
 * file; the timestamp of the comment line is a parameter.
 */
module VerilogIo {
  import opened Base
  import opened Builtins
  import opened Binary
  import opened Literals
  import opened PlaHeader
  import opened PlaLines
  import DenseTables
  import Covers
  import PlaReader
  import WrittenPla

  /**
   * What the writers accept: a dense truth table, or a cover together with
   * its `pla_type` attribute when the caller has set one (the class itself
   * never sets it).
   */
  datatype Table = Dense(dense: DenseTables.TruthTable) | Cover(pla: Covers.Pla, plaType: Option<string>)

  function InputLabels(t: Table): seq<string> {
    match t
    case Dense(d) => d.inputs
    case Cover(p, _) => p.inputs
  }

  function OutputLabels(t: Table): seq<string> {
    match t
    case Dense(d) => d.outputs
    case Cover(p, _) => p.outputs
  }

  function ModuleName(t: Table): string {
    match t
    case Dense(d) => d.name
    case Cover(p, _) => p.name
  }

  // ---------------------------------------------------------------- file names

  /** The path without the trailing slashes `Path` drops. */
  function TrimSlashes(path: string): (r: string)
    ensures r == [] || r[|r| - 1] != '/'
  {
    if path != [] && path[|path| - 1] == '/' then TrimSlashes(path[..|path| - 1]) else path
  }

  /** The characters after the last slash. */
  function AfterSlash(s: string): (r: string)
    ensures '/' !in r
  {
    if s == [] || s[|s| - 1] == '/' then [] else AfterSlash(s[..|s| - 1]) + [s[|s| - 1]]
  }

  /** `Path(path).name`: the last component of the path. */
  function BaseName(path: string): string {
    AfterSlash(TrimSlashes(path))
  }

  /** `name.rfind('.')`, None for -1. */
  function LastDot(s: string): (r: Option<nat>)
    ensures r.None? <==> '.' !in s
    ensures r.Some? ==> r.value < |s| && s[r.value] == '.' && '.' !in s[r.value + 1..]
  {
    if s == [] then None
    else if s[|s| - 1] == '.' then Some(|s| - 1)
    else
      var r := LastDot(s[..|s| - 1]);
      assert r.Some? ==> s[r.value + 1..] == s[..|s| - 1][r.value + 1..] + [s[|s| - 1]];
      assert r.None? ==> s == s[..|s| - 1] + [s[|s| - 1]];
      r
  }

  /**
   * `Path(path).suffix`: the last component from its last dot on, when that
   * dot is neither its first nor its last character; otherwise empty.
   */
  function Suffix(path: string): (r: string)
    ensures r == [] || (|r| >= 2 && r[0] == '.' && '.' !in r[1..] && '/' !in r)
  {
    var name := BaseName(path);
    match LastDot(name)
    case None => []
    case Some(i) =>
      if 0 < i < |name| - 1 then
        assert name[i..][1..] == name[i + 1..];
        name[i..]
      else []
  }

  lemma {:induction false} AfterSlashOf(dir: string, w: string)
    requires dir == [] || dir[|dir| - 1] == '/'
    requires '/' !in w
    ensures AfterSlash(dir + w) == w
  {
    if w == [] {
      assert dir + w == dir;
    } else {
      var n := |w| - 1;
      assert (dir + w)[..|dir + w| - 1] == dir + w[..n];
      AfterSlashOf(dir, w[..n]);
      assert w[..n] + [w[n]] == w;
    }
  }

  lemma {:induction false} LastDotOf(a: string, b: string)
    requires b != [] && b[0] == '.' && '.' !in b[1..]
    ensures LastDot(a + b) == Some(|a|)
  {
    if |b| > 1 {
      var n := |b| - 1;
      assert (a + b)[..|a + b| - 1] == a + b[..n];
      assert b[..n][1..] == b[1..n];
      assert b[n] in b[1..];
      LastDotOf(a, b[..n]);
    }
  }

  /**
   * A file `stem.ext` in any directory has the suffix `.ext` when the stem
   * is not empty; a file named `.ext` alone has none.
   */
  lemma SuffixOf(dir: string, stem: string, ext: string)
    requires dir == [] || dir[|dir| - 1] == '/'
    requires '/' !in stem && |ext| >= 2 && ext[0] == '.' && '.' !in ext[1..] && '/' !in ext
    ensures Suffix(dir + stem + ext) == if stem != [] then ext else []
  {
    var path := dir + stem + ext;
    var name := stem + ext;
    assert TrimSlashes(path) == path by {
      assert path[|path| - 1] == ext[|ext| - 1] && ext[|ext| - 1] in ext;
    }
    assert BaseName(path) == name by {
      assert path == dir + name;
      AfterSlashOf(dir, name);
    }
    assert LastDot(name) == Some(|stem|) by {
      LastDotOf(stem, ext);
    }
    assert name[|stem|..] == ext;
  }

  // ---------------------------------------------------------------- to_file

  /** The format `to_file` settles on: the one given, else the one the suffix names, else none. */
  function Format(path: string, fmt: string): string {
    if fmt != [] then fmt
    else if Suffix(path) == ".v" then "verilog"
    else if Suffix(path) == ".pla" then "pla"
    else []
  }

  /**
   * `to_file(table, filename, fmt, mode)`: the text of the file written,
   * an absent format being the empty string.
   */
  function ToFile(t: Table, path: string, fmt: string, mode: string, stamp: string): (r: Result<string>)
    ensures fmt == [] && Suffix(path) != ".v" && Suffix(path) != ".pla" ==> r == Err(ValueError(UnknownSuffix))
    ensures Format(path, fmt) == "verilog" && mode != "case" && mode != "sop" ==> r == Err(ValueError(UnknownMode))
    ensures Format(path, fmt) != [] && Format(path, fmt) != "verilog" && Format(path, fmt) != "pla" ==>
              r == Err(ValueError(UnknownFormat))
  {
    var f := Format(path, fmt);
    if f == [] then Err(ValueError(UnknownSuffix))
    else if f == "verilog" then
      if mode == "case" then VerilogCase(t, stamp)
      else if mode == "sop" then VerilogSop(t, stamp)
      else Err(ValueError(UnknownMode))
    else if f == "pla" then PlaFile(t, stamp)
    else Err(ValueError(UnknownFormat))
  }

  /**
   * Without an explicit format, a file `stem.v` gets the Verilog writer of
   * the mode, a file `stem.pla` the PLA writer, and any other name (`.v`
   * alone among them) is refused.
   */
  lemma ToFileByName(t: Table, dir: string, stem: string, ext: string, mode: string, stamp: string)
    requires dir == [] || dir[|dir| - 1] == '/'
    requires '/' !in stem && |ext| >= 2 && ext[0] == '.' && '.' !in ext[1..] && '/' !in ext
    ensures stem != [] && ext == ".v" && mode == "case" ==> ToFile(t, dir + stem + ext, [], mode, stamp) == VerilogCase(t, stamp)
    ensures stem != [] && ext == ".v" && mode == "sop" ==> ToFile(t, dir + stem + ext, [], mode, stamp) == VerilogSop(t, stamp)
    ensures stem != [] && ext == ".pla" ==> ToFile(t, dir + stem + ext, [], mode, stamp) == PlaFile(t, stamp)
    ensures stem == [] || (ext != ".v" && ext != ".pla") ==>
              ToFile(t, dir + stem + ext, [], mode, stamp) == Err(ValueError(UnknownSuffix))
  {
    SuffixOf(dir, stem, ext);
  }

  // ---------------------------------------------------------------- header

  /** The lines of the module header: the comment, the module line, the two declarations, each declaration block closed by a blank line. */
  function HeaderLines(inputs: seq<string>, outputs: seq<string>, name: string, stamp: string, reg: bool): seq<string> {
    ["// Written by truthtables on " + stamp,
     "module " + name + "( " + Join(" , ", inputs + outputs) + " );",
     "",
     "input " + Join(" , ", inputs) + " ;",
     (if reg then "output reg " else "output ") + Join(" , ", outputs) + " ;",
     ""]
  }

  /** None of the strings has a line break. */
  predicate NoBreaks(ss: seq<string>) {
    forall k :: 0 <= k < |ss| ==> NoLineBreak(ss[k])
  }

  /**
   * `_get_header`: the header lines, each followed by a newline. When no
   * name holds a line break, the text reads back as exactly those lines
   * (then the empty rest after the last newline): the comment
   * with the stamp, the module line listing every port, a blank line, the
   * input declaration, the output declaration (`output reg` for the case
   * writer) and a blank line.
   */
  function HeaderText(inputs: seq<string>, outputs: seq<string>, name: string, stamp: string, reg: bool): (r: string)
    ensures NoBreaks(inputs) && NoBreaks(outputs) && NoLineBreak(name) && NoLineBreak(stamp) ==>
            SplitLines(r) == HeaderLines(inputs, outputs, name, stamp, reg) + [""]
  {
    var r := Terminated(HeaderLines(inputs, outputs, name, stamp, reg), "\n");
    if NoBreaks(inputs) && NoBreaks(outputs) && NoLineBreak(name) && NoLineBreak(stamp) then
      HeaderLinesPlain(inputs, outputs, name, stamp, reg);
      TerminatedLines(HeaderLines(inputs, outputs, name, stamp, reg), "");
      assert r + "" == r;
      r
    else r
  }

  /** No header line holds a line break when no name does. */
  lemma HeaderLinesPlain(inputs: seq<string>, outputs: seq<string>, name: string, stamp: string, reg: bool)
    requires NoBreaks(inputs) && NoBreaks(outputs) && NoLineBreak(name) && NoLineBreak(stamp)
    ensures NoBreaks(HeaderLines(inputs, outputs, name, stamp, reg))
  {
    assert NoBreaks(inputs + outputs);
    JoinNoLineBreak(" , ", inputs + outputs);
    JoinNoLineBreak(" , ", inputs);
    JoinNoLineBreak(" , ", outputs);
    var o := if reg then "output reg " else "output ";
    assert NoLineBreak("// Written by truthtables on ") && NoLineBreak("module ") && NoLineBreak("( ") && NoLineBreak(" );");
    assert NoLineBreak("input ") && NoLineBreak(o) && NoLineBreak(" ;");
    NoLineBreakConcat("// Written by truthtables on ", stamp);
    NoLineBreakConcat("module ", name);
    NoLineBreakConcat("module " + name, "( ");
    NoLineBreakConcat("module " + name + "( ", Join(" , ", inputs + outputs));
    NoLineBreakConcat("module " + name + "( " + Join(" , ", inputs + outputs), " );");
    NoLineBreakConcat("input ", Join(" , ", inputs));
    NoLineBreakConcat("input " + Join(" , ", inputs), " ;");
    NoLineBreakConcat(o, Join(" , ", outputs));
    NoLineBreakConcat(o + Join(" , ", outputs), " ;");
  }

  /**
   * The port list of the module line is the list of the input declaration
   * followed by that of the output declaration, so every port is declared
   * once, in the direction it has in the table.
   */
  lemma {:induction false} PortList(sep: string, inputs: seq<string>, outputs: seq<string>)
    requires inputs != [] && outputs != []
    ensures Join(sep, inputs + outputs) == Join(sep, inputs) + sep + Join(sep, outputs)
  {
    var whole := inputs + outputs;
    assert whole[0] == inputs[0];
    if |inputs| > 1 {
      var (a, x, y) := (inputs[0], Join(sep, inputs[1..]), Join(sep, outputs));
      assert whole[1..] == inputs[1..] + outputs;
      PortList(sep, inputs[1..], outputs);
      assert Join(sep, whole) == a + sep + (x + sep + y);
      assert Join(sep, inputs) == a + sep + x;
      assert a + sep + (x + sep + y) == (a + sep + x) + sep + y;
    } else {
      assert whole[1..] == outputs;
    }
  }

  // ---------------------------------------------------------------- case block

  /** The row label of the case arm for row `idx`: `bin(idx)` padded to the input count. */
  function ArmLabel(d: DenseTables.TruthTable, idx: nat): string {
    PaddedBin(idx, |d.inputs|)
  }

  /** The case arm for row `idx`: its sized binary label, then the row's outputs as a sized binary literal. */
  function ArmLine(d: DenseTables.TruthTable, idx: nat): string
    requires idx < |d.rows|
  {
    "\t\t" + NatToString(|d.inputs|) + "'b" + ArmLabel(d, idx) + " : " +
    "{ " + Join(" , ", d.outputs) + " } = " + NatToString(|d.outputs|) + "'b" + d.rows[idx] + ";"
  }

  function ArmLines(d: DenseTables.TruthTable): (r: seq<string>)
    ensures |r| == |d.rows|
  {
    seq(|d.rows|, idx requires 0 <= idx < |d.rows| => ArmLine(d, idx))
  }

  function CaseHead(d: DenseTables.TruthTable): string {
    "\tcase ({ " + Join(" , ", d.inputs) + " })"
  }

  /** The lines of `get_case_block` before the arms: the `always` block and the case on the concatenated inputs. */
  function CaseOpen(d: DenseTables.TruthTable): seq<string> {
    ["always@(*) begin", CaseHead(d)]
  }

  /** The lines of `get_case_block`: the opening lines, one arm per row, and the closing lines. */
  function CaseLines(d: DenseTables.TruthTable): seq<string> {
    CaseOpen(d) + ArmLines(d) + ["\tendcase", "end"]
  }

  /** `get_case_block`: a cover is not supported. */
  function CaseBlock(t: Table): (r: Result<string>)
    ensures r.Err? <==> t.Cover?
    ensures r.Err? ==> r.error == NotImplemented
  {
    match t
    case Cover(_, _) => Err(NotImplemented)
    case Dense(d) => Ok(Terminated(CaseLines(d), "\n"))
  }

  /** `get_case_block`, appending one arm per row. */
  method GetCaseBlock(t: Table) returns (r: Result<string>)
    ensures r == CaseBlock(t)
  {
    if t.Cover? {
      return Err(NotImplemented);
    }
    var d := t.dense;
    ghost var written: seq<string> := [];
    var s := "";
    s, written := WriteLine(s, written, "always@(*) begin");
    s, written := WriteLine(s, written, CaseHead(d));
    ghost var arms := ArmLines(d);
    for idx := 0 to |d.rows|
      invariant written == CaseOpen(d) + arms[..idx]
      invariant s == Terminated(written, "\n")
    {
      SnocSlice(CaseOpen(d), arms, idx);
      s, written := WriteLine(s, written, ArmLine(d, idx));
    }
    assert written == CaseOpen(d) + arms by {
      assert arms[..|d.rows|] == arms;
    }
    s, written := WriteLine(s, written, "\tendcase");
    s, written := WriteLine(s, written, "end");
    assert written == CaseLines(d);
    return Ok(s);
  }

  /** One more element of `xs` after a prefix and the first `i` of them. */
  lemma SnocSlice(pre: seq<string>, xs: seq<string>, i: nat)
    requires i < |xs|
    ensures pre + xs[..i + 1] == (pre + xs[..i]) + [xs[i]]
  {
    assert xs[..i + 1] == xs[..i] + [xs[i]];
  }

  /**
   * The case statement of a table is complete and unambiguous: every arm's
   * label has as many digits as its size says and spells its row number,
   * and every assignment of the inputs is the label of exactly one arm, the
   * one of its row.
   */
  lemma CaseArms(d: DenseTables.TruthTable)
    requires DenseTables.Valid(d) && |d.inputs| >= 1
    ensures forall idx :: 0 <= idx < |d.rows| ==>
              IsBinary(ArmLabel(d, idx)) && |ArmLabel(d, idx)| == |d.inputs| && BitsValue(ArmLabel(d, idx)) == idx
    ensures forall x :: IsBinary(x) && |x| == |d.inputs| ==>
              BitsValue(x) < |d.rows| && ArmLabel(d, BitsValue(x)) == x &&
              forall idx :: 0 <= idx < |d.rows| && ArmLabel(d, idx) == x ==> idx == BitsValue(x)
  {
    forall x | IsBinary(x) && |x| == |d.inputs|
      ensures BitsValue(x) < |d.rows| && ArmLabel(d, BitsValue(x)) == x
    {
      DenseTables.InputStrBijective(d, x);
    }
  }

  /** `write_verilog_case`: the header with registered outputs, the case block, and `endmodule`. */
  function VerilogCase(t: Table, stamp: string): (r: Result<string>)
    ensures r.Err? <==> t.Cover?
  {
    match CaseBlock(t)
    case Err(e) => Err(e)
    case Ok(block) => Ok(HeaderText(InputLabels(t), OutputLabels(t), ModuleName(t), stamp, true) + block + "\nendmodule")
  }

  method WriteVerilogCase(t: Table, stamp: string) returns (r: Result<string>)
    ensures r == VerilogCase(t, stamp)
  {
    var block := GetCaseBlock(t);
    if block.Err? {
      return Err(block.error);
    }
    r := Ok(HeaderText(InputLabels(t), OutputLabels(t), ModuleName(t), stamp, true) + block.value + "\nendmodule");
  }

  // ---------------------------------------------------------------- sum of products

  /** `table.onset(output)` of either kind of table. */
  function Onset(t: Table, o: string): Result<seq<nat>> {
    match t
    case Dense(d) => DenseTables.Onset(d, o)
    case Cover(p, _) => Covers.Onset(p, o)
  }

  /** `table.input_product(k)` of either kind of table. */
  function Product(t: Table, k: nat): Result<string> {
    match t
    case Dense(d) => DenseTables.DenseProduct(d, k)
    case Cover(p, _) => Covers.CoverProduct(p, k)
  }

  /** The product of row `k` in parentheses. */
  function Parenthesised(t: Table, k: nat): Result<string> {
    match Product(t, k)
    case Err(e) => Err(e)
    case Ok(p) => Ok("( " + p + " )")
  }

  /** What each step of the inner loop yields for the rows `idx`. */
  function ProductSteps(t: Table, idx: seq<nat>): seq<Result<seq<string>>> {
    seq(|idx|, j requires 0 <= j < |idx| => Single(Parenthesised(t, idx[j])))
  }

  /** The parenthesised products of the rows `idx`, or the error of the first that fails. */
  function Bracketed(t: Table, idx: seq<nat>): Result<seq<string>> {
    Gather(ProductSteps(t, idx))
  }

  /** The assignment of an output: the sum of its products. */
  function AssignLine(o: string, products: seq<string>): string {
    "assign " + o + " = " + Join(" | ", products) + " ;"
  }

  /**
   * What `write_verilog_sop` writes for one output: an assignment exactly
   * when its onset is not empty, summing one product per onset row.
   */
  function OutputAssign(t: Table, o: string): (r: Result<seq<string>>)
    ensures r.Ok? ==> |r.value| <= 1
    ensures r.Ok? ==> Onset(t, o).Ok? && Bracketed(t, Onset(t, o).value).Ok? &&
                      |Bracketed(t, Onset(t, o).value).value| == |Onset(t, o).value| &&
                      (r.value != [] <==> Onset(t, o).value != [])
    ensures r.Ok? && r.value != [] ==> r.value == [AssignLine(o, Bracketed(t, Onset(t, o).value).value)]
    ensures r.Ok? <==> Onset(t, o).Ok? && Bracketed(t, Onset(t, o).value).Ok?
    ensures Onset(t, o).Err? ==> r == Err(Onset(t, o).error)
    ensures Onset(t, o).Ok? && Bracketed(t, Onset(t, o).value).Err? ==> r == Err(Bracketed(t, Onset(t, o).value).error)
  {
    match Onset(t, o)
    case Err(e) => Err(e)
    case Ok(idx) =>
      GatherOneEach(ProductSteps(t, idx));
      match Bracketed(t, idx)
      case Err(e) => Err(e)
      case Ok(products) => Ok(if products != [] then [AssignLine(o, products)] else [])
  }

  /** What each step of the outer loop yields for the outputs `outs`. */
  function AssignSteps(t: Table, outs: seq<string>): seq<Result<seq<string>>> {
    seq(|outs|, i requires 0 <= i < |outs| => OutputAssign(t, outs[i]))
  }

  /** The assignments of the outputs `outs`, in order, or the first error; at most one per output. */
  function Assigns(t: Table, outs: seq<string>): (r: Result<seq<string>>)
    ensures r.Ok? ==> |r.value| <= |outs|
  {
    GatherAtMostOne(AssignSteps(t, outs));
    Gather(AssignSteps(t, outs))
  }

  /** The outputs among `outs` whose onset is not empty, in order. */
  function Emitting(t: Table, outs: seq<string>): (r: seq<string>)
    ensures |r| <= |outs|
  {
    if outs == [] then []
    else
      var n := |outs| - 1;
      Emitting(t, outs[..n]) + (if Onset(t, outs[n]).Ok? && Onset(t, outs[n]).value != [] then [outs[n]] else [])
  }

  /** `lines` are, in order, the assignments of the outputs `es`, each summing the products of its onset. */
  predicate SumsOf(t: Table, lines: seq<string>, es: seq<string>) {
    |lines| == |es| &&
    forall k :: 0 <= k < |es| ==>
      Onset(t, es[k]).Ok? && Bracketed(t, Onset(t, es[k]).value).Ok? &&
      lines[k] == AssignLine(es[k], Bracketed(t, Onset(t, es[k]).value).value)
  }

  /**
   * The assignments succeed exactly when every output's does, and then they
   * are, in order, one per output whose onset is not empty, summing the
   * products of that onset.
   */
  lemma AssignsMeaning(t: Table, outs: seq<string>)
    ensures Assigns(t, outs).Ok? <==> forall i :: 0 <= i < |outs| ==> OutputAssign(t, outs[i]).Ok?
    ensures Assigns(t, outs).Ok? ==> SumsOf(t, Assigns(t, outs).value, Emitting(t, outs))
  {
    AssignsOk(t, outs);
    if Assigns(t, outs).Ok? {
      AssignsLines(t, outs);
    }
  }

  lemma AssignsOk(t: Table, outs: seq<string>)
    ensures Assigns(t, outs).Ok? <==> forall i :: 0 <= i < |outs| ==> OutputAssign(t, outs[i]).Ok?
  {
    var steps := AssignSteps(t, outs);
    GatherOk(steps);
    assert forall i :: 0 <= i < |outs| ==> steps[i] == OutputAssign(t, outs[i]);
  }

  lemma {:induction false} AssignsLines(t: Table, outs: seq<string>)
    requires Assigns(t, outs).Ok?
    ensures SumsOf(t, Assigns(t, outs).value, Emitting(t, outs))
  {
    if outs != [] {
      var n := |outs| - 1;
      var front := outs[..n];
      AssignsSnoc(t, outs);
      AssignsLines(t, front);
      SumsOfSnoc(t, Assigns(t, front).value, Emitting(t, front), outs[n]);
    }
  }

  /** The outer loop over one more output. */
  lemma AssignsSnoc(t: Table, outs: seq<string>)
    requires outs != []
    ensures var n := |outs| - 1;
            Assigns(t, outs) == match Assigns(t, outs[..n])
                                case Err(e) => Err(e)
                                case Ok(lines) =>
                                  match OutputAssign(t, outs[n])
                                  case Err(e) => Err(e)
                                  case Ok(more) => Ok(lines + more)
  {
    var n := |outs| - 1;
    assert AssignSteps(t, outs)[..n] == AssignSteps(t, outs[..n]);
  }

  /** One more output adds its assignment exactly when its onset is not empty. */
  lemma SumsOfSnoc(t: Table, lines: seq<string>, es: seq<string>, o: string)
    requires SumsOf(t, lines, es) && OutputAssign(t, o).Ok?
    ensures SumsOf(t, lines + OutputAssign(t, o).value,
                   es + (if Onset(t, o).Ok? && Onset(t, o).value != [] then [o] else []))
  {
    var more := OutputAssign(t, o).value;
    if more != [] {
      assert more == [AssignLine(o, Bracketed(t, Onset(t, o).value).value)];
      var es' := es + [o];
      forall k | 0 <= k < |es'|
        ensures Onset(t, es'[k]).Ok? && Bracketed(t, Onset(t, es'[k]).value).Ok? &&
                (lines + more)[k] == AssignLine(es'[k], Bracketed(t, Onset(t, es'[k]).value).value)
      {
        if k < |es| {
          assert es'[k] == es[k] && (lines + more)[k] == lines[k];
        }
      }
    } else {
      assert lines + more == lines && es + [] == es;
    }
  }

  /**
   * `write_verilog_sop`: the header, then, in order, one assignment per
   * output whose onset is not empty, summing the products of that onset,
   * then `endmodule`. It fails exactly when some output's assignment does.
   */
  function VerilogSop(t: Table, stamp: string): (r: Result<string>)
    ensures r.Ok? <==> forall i :: 0 <= i < |OutputLabels(t)| ==> OutputAssign(t, OutputLabels(t)[i]).Ok?
    ensures r.Ok? ==>
              Assigns(t, OutputLabels(t)).Ok? &&
              var lines := Assigns(t, OutputLabels(t)).value;
              SumsOf(t, lines, Emitting(t, OutputLabels(t))) &&
              r.value == HeaderText(InputLabels(t), OutputLabels(t), ModuleName(t), stamp, false) + Terminated(lines, "\n") + "\nendmodule\n"
  {
    AssignsMeaning(t, OutputLabels(t));
    match Assigns(t, OutputLabels(t))
    case Err(e) => Err(e)
    case Ok(lines) => Ok(HeaderText(InputLabels(t), OutputLabels(t), ModuleName(t), stamp, false) + Terminated(lines, "\n") + "\nendmodule\n")
  }

  /** `table.input_product(k)` by the loop of either kind of table. */
  method InputProduct(t: Table, k: nat) returns (r: Result<string>)
    ensures r == Product(t, k)
  {
    match t
    case Dense(d) => r := DenseTables.InputProduct(d, k);
    case Cover(p, _) => r := Covers.InputProduct(p, k);
  }

  /** The inner loop of `write_verilog_sop`: the products of one output's onset. */
  method OnsetProducts(t: Table, idx: seq<nat>) returns (r: Result<seq<string>>)
    ensures r == Bracketed(t, idx)
  {
    ghost var steps := ProductSteps(t, idx);
    var products: seq<string> := [];
    assert steps[..0] == [];
    for j := 0 to |idx|
      invariant Gather(steps[..j]) == Ok(products)
    {
      var p := InputProduct(t, idx[j]);
      if p.Err? {
        GatherStops(steps, j, p.error);
        return Err(p.error);
      }
      GatherSnoc(steps, j, products, ["( " + p.value + " )"]);
      products := products + ["( " + p.value + " )"];
    }
    assert steps[..|idx|] == steps;
    return Ok(products);
  }

  /** `write_verilog_sop`, writing the assignments output by output. */
  method WriteVerilogSop(t: Table, stamp: string) returns (r: Result<string>)
    ensures r == VerilogSop(t, stamp)
  {
    var outs := OutputLabels(t);
    ghost var steps := AssignSteps(t, outs);
    var head := HeaderText(InputLabels(t), outs, ModuleName(t), stamp, false);
    ghost var lines: seq<string> := [];
    var body := "";
    assert steps[..0] == [];
    for i := 0 to |outs|
      invariant Gather(steps[..i]) == Ok(lines)
      invariant body == Terminated(lines, "\n")
    {
      ghost var old_lines := lines;
      var idx := Onset(t, outs[i]);
      if idx.Err? {
        GatherStops(steps, i, idx.error);
        return Err(idx.error);
      }
      var products := OnsetProducts(t, idx.value);
      if products.Err? {
        GatherStops(steps, i, products.error);
        return Err(products.error);
      }
      ghost var line := if products.value != [] then [AssignLine(outs[i], products.value)] else [];
      GatherSnoc(steps, i, lines, line);
      if products.value != [] {
        body, lines := WriteLine(body, lines, AssignLine(outs[i], products.value));
      }
      assert lines == old_lines + line;
    }
    assert steps[..|outs|] == steps;
    return Ok(head + body + "\nendmodule\n");
  }

  // ---------------------------------------------------------------- meaning of the sums

  predicate AllLabelled(terms: seq<seq<Lit>>, labels: seq<string>) {
    forall j :: 0 <= j < |terms| ==> Labelled(terms[j], labels)
  }

  /** The text of each product term. */
  function ProductTexts(terms: seq<seq<Lit>>, labels: seq<string>): (r: seq<string>)
    requires AllLabelled(terms, labels)
    ensures |r| == |terms|
  {
    seq(|terms|, j requires 0 <= j < |terms| => ProductText(terms[j], labels))
  }

  /** Each text in parentheses, as the sum writes it. */
  function Parens(texts: seq<string>): (r: seq<string>)
    ensures |r| == |texts|
  {
    seq(|texts|, j requires 0 <= j < |texts| => "( " + texts[j] + " )")
  }

  /** When every product succeeds, the list holds each of them in parentheses. */
  lemma BracketedAll(t: Table, idx: seq<nat>, texts: seq<string>)
    requires |texts| == |idx| && forall j :: 0 <= j < |idx| ==> Product(t, idx[j]) == Ok(texts[j])
    ensures Bracketed(t, idx) == Ok(Parens(texts))
  {
    var steps := ProductSteps(t, idx);
    forall j | 0 <= j < |steps| ensures steps[j] == Ok([Parens(texts)[j]]) {
      assert Product(t, idx[j]) == Ok(texts[j]);
    }
    GatherSingles(steps, Parens(texts));
  }

  /** The minterms of the rows `idx` of a dense table. */
  function Minterms(d: DenseTables.TruthTable, idx: seq<nat>): (r: seq<seq<Lit>>)
    ensures |r| == |idx|
  {
    seq(|idx|, j requires 0 <= j < |idx| => Minterm(DenseTables.InputStr(d, idx[j])))
  }

  /**
   * The products `write_verilog_sop` writes for an output of a dense table
   * are the minterms of its onset rows, over the input labels.
   */
  lemma DenseSopProducts(d: DenseTables.TruthTable, o: string)
    requires DenseTables.Valid(d) && |d.inputs| >= 1 && DenseTables.Onset(d, o).Ok?
    ensures var idx := DenseTables.Onset(d, o).value;
            AllLabelled(Minterms(d, idx), d.inputs) &&
            Bracketed(Dense(d), idx) == Ok(Parens(ProductTexts(Minterms(d, idx), d.inputs)))
  {
    var idx := DenseTables.Onset(d, o).value;
    var terms := Minterms(d, idx);
    forall j | 0 <= j < |idx|
      ensures Labelled(terms[j], d.inputs)
      ensures Product(Dense(d), idx[j]) == Ok(ProductText(terms[j], d.inputs))
    {
      assert idx[j] in idx;
      DenseTables.DenseProductMeaning(d, idx[j]);
    }
    BracketedAll(Dense(d), idx, ProductTexts(terms, d.inputs));
  }

  /**
   * `write_verilog_sop` succeeds on a dense table with at least one input
   * whose rows are as wide as its output list: every output has an onset and
   * every onset row a minterm.
   */
  lemma DenseSopWritten(d: DenseTables.TruthTable, stamp: string)
    requires DenseTables.Valid(d) && |d.inputs| >= 1
    requires forall k :: 0 <= k < |d.rows| ==> |d.outputs| <= |d.rows[k]|
    ensures VerilogSop(Dense(d), stamp).Ok?
  {
    forall i | 0 <= i < |d.outputs| ensures OutputAssign(Dense(d), d.outputs[i]).Ok? {
      var o := d.outputs[i];
      assert DenseTables.Onset(d, o).Ok? by {
        assert o in d.outputs;
        var c := IndexOf(d.outputs, o).value;
        assert forall k :: 0 <= k < |d.rows| ==> |d.rows[k]| > c;
      }
      DenseSopProducts(d, o);
    }
  }

  /**
   * A one-row table without inputs whose output is 1 cannot be written:
   * the product of its row fails with IndexError, so `write_verilog_sop`
   * does (`DenseTables.ConstantTableProduct`).
   */
  lemma ConstantTableSop(stamp: string)
    ensures VerilogSop(Dense(DenseTables.TruthTable(["1"], [], ["o0"], "ckt")), stamp).Err?
  {
    var d := DenseTables.TruthTable(["1"], [], ["o0"], "ckt");
    var t := Dense(d);
    assert IndexOf(d.outputs, "o0") == Some(0);
    assert d.rows[0][0] == '1';
    assert DenseTables.Onset(d, "o0").Ok? && 0 in DenseTables.Onset(d, "o0").value;
    var idx := DenseTables.Onset(d, "o0").value;
    assert idx == [0];
    assert DenseTables.DenseProduct(d, 0).Err?;
    var steps := ProductSteps(t, idx);
    assert steps[0].Err?;
    GatherOk(steps);
    assert !OutputAssign(t, d.outputs[0]).Ok?;
  }

  /**
   * That sum of minterms is true under exactly the input assignments whose
   * row has a 1 for the output.
   */
  lemma DenseSopMeaning(d: DenseTables.TruthTable, o: string)
    requires DenseTables.Valid(d) && |d.inputs| >= 1 && DenseTables.Onset(d, o).Ok?
    ensures var idx := DenseTables.Onset(d, o).value;
            var c := IndexOf(d.outputs, o).value;
            forall x :: IsBinary(x) && |x| == |d.inputs| ==>
              BitsValue(x) < |d.rows| && (AnyTermHolds(Minterms(d, idx), x) <==> d.rows[BitsValue(x)][c] == '1')
  {
    var idx := DenseTables.Onset(d, o).value;
    var c := IndexOf(d.outputs, o).value;
    var terms := Minterms(d, idx);
    forall x | IsBinary(x) && |x| == |d.inputs|
      ensures BitsValue(x) < |d.rows| && (AnyTermHolds(terms, x) <==> d.rows[BitsValue(x)][c] == '1')
    {
      BitsValueBound(x);
      var v := BitsValue(x);
      if AnyTermHolds(terms, x) {
        var j :| 0 <= j < |terms| && HoldsAll(terms[j], x);
        assert idx[j] in idx;
        DenseTables.DenseProductMeaning(d, idx[j]);
      }
      if d.rows[v][c] == '1' {
        assert v in idx;
        var j :| 0 <= j < |idx| && idx[j] == v;
        DenseTables.DenseProductMeaning(d, v);
        assert HoldsAll(terms[j], x);
      }
    }
  }

  /** The literals of the input cubes of the products `idx` of a cover. */
  function CubeTerms(p: Covers.Pla, idx: seq<nat>): (r: seq<seq<Lit>>)
    ensures |r| == |idx|
  {
    seq(|idx|, j requires 0 <= j < |idx| => if idx[j] < |p.inputLines| then Covers.CubeLits(p.inputLines[idx[j]]) else [])
  }

  /**
   * The products `write_verilog_sop` writes for an output of a cover are
   * the input cubes of its onset products, over the input labels.
   */
  lemma CoverSopProducts(p: Covers.Pla, plaType: Option<string>, o: string)
    requires Covers.Onset(p, o).Ok? && |p.inputLines| == |p.outputLines|
    requires forall k :: 0 <= k < |p.inputLines| ==> |p.inputLines[k]| == |p.inputs|
    ensures var idx := Covers.Onset(p, o).value;
            AllLabelled(CubeTerms(p, idx), p.inputs) &&
            Bracketed(Cover(p, plaType), idx) == Ok(Parens(ProductTexts(CubeTerms(p, idx), p.inputs)))
  {
    var idx := Covers.Onset(p, o).value;
    var terms := CubeTerms(p, idx);
    forall j | 0 <= j < |idx|
      ensures Labelled(terms[j], p.inputs)
      ensures Product(Cover(p, plaType), idx[j]) == Ok(ProductText(terms[j], p.inputs))
    {
      assert idx[j] in idx;
      CubeRowProduct(p, plaType, idx[j]);
    }
    BracketedAll(Cover(p, plaType), idx, ProductTexts(terms, p.inputs));
  }

  /** A cube as wide as the input labels has the product of its cared-for literals. */
  lemma CubeRowProduct(p: Covers.Pla, plaType: Option<string>, k: nat)
    requires k < |p.inputLines| && |p.inputLines[k]| == |p.inputs|
    ensures Labelled(Covers.CubeLits(p.inputLines[k]), p.inputs)
    ensures Product(Cover(p, plaType), k) == Ok(ProductText(Covers.CubeLits(p.inputLines[k]), p.inputs))
  {
    assert PyIndex(|p.inputLines|, k) == Some(k);
  }

  /**
   * `write_verilog_sop` succeeds on a cover with an output cube per input
   * cube, input cubes as wide as the input labels and output cubes at least
   * as wide as the output labels.
   */
  lemma CoverSopWritten(p: Covers.Pla, plaType: Option<string>, stamp: string)
    requires |p.inputLines| == |p.outputLines|
    requires forall k :: 0 <= k < |p.inputLines| ==> |p.inputLines[k]| == |p.inputs|
    requires forall k :: 0 <= k < |p.outputLines| ==> |p.outputs| <= |p.outputLines[k]|
    ensures VerilogSop(Cover(p, plaType), stamp).Ok?
  {
    forall i | 0 <= i < |p.outputs| ensures OutputAssign(Cover(p, plaType), p.outputs[i]).Ok? {
      var o := p.outputs[i];
      assert Covers.Onset(p, o).Ok? by {
        assert o in p.outputs;
        var c := IndexOf(p.outputs, o).value;
        assert forall k :: 0 <= k < |p.outputLines| ==> |p.outputLines[k]| > c;
      }
      CoverSopProducts(p, plaType, o);
    }
  }

  /**
   * That sum of cubes is true under exactly the input assignments that lie
   * in some cube whose output cube has a 1 for the output.
   */
  lemma CoverSopMeaning(p: Covers.Pla, o: string)
    requires Covers.Onset(p, o).Ok? && |p.inputLines| == |p.outputLines|
    requires forall k :: 0 <= k < |p.inputLines| ==> |p.inputLines[k]| == |p.inputs|
    ensures var idx := Covers.Onset(p, o).value;
            var c := IndexOf(p.outputs, o).value;
            forall x :: IsBinary(x) && |x| == |p.inputs| ==>
              (AnyTermHolds(CubeTerms(p, idx), x) <==>
               exists k :: 0 <= k < |p.inputLines| && p.outputLines[k][c] == '1' && Covers.Matches(p.inputLines[k], x))
  {
    var idx := Covers.Onset(p, o).value;
    var c := IndexOf(p.outputs, o).value;
    var terms := CubeTerms(p, idx);
    assert forall j :: 0 <= j < |idx| ==> idx[j] < |p.inputLines| by {
      assert forall j :: 0 <= j < |idx| ==> idx[j] in idx;
    }
    forall x | IsBinary(x) && |x| == |p.inputs|
      ensures AnyTermHolds(terms, x) <==>
              exists k :: 0 <= k < |p.inputLines| && p.outputLines[k][c] == '1' && Covers.Matches(p.inputLines[k], x)
    {
      PickedCubes(p.inputLines, p.outputLines, c, idx, terms, x);
    }
  }

  /**
   * The terms of the cubes picked by their output `c` hold under `x` exactly
   * when one of those cubes contains `x`.
   */
  lemma PickedCubes(cubes: seq<string>, outs: seq<string>, c: nat, idx: seq<nat>, terms: seq<seq<Lit>>, x: string)
    requires |cubes| == |outs| && forall k :: 0 <= k < |outs| ==> c < |outs[k]|
    requires forall k: nat :: k in idx <==> k < |outs| && outs[k][c] == '1'
    requires |terms| == |idx| && forall j :: 0 <= j < |idx| ==> idx[j] < |cubes| && terms[j] == Covers.CubeLits(cubes[idx[j]])
    requires IsBinary(x) && forall k :: 0 <= k < |cubes| ==> |cubes[k]| == |x|
    ensures AnyTermHolds(terms, x) <==> exists k :: 0 <= k < |cubes| && outs[k][c] == '1' && Covers.Matches(cubes[k], x)
  {
    if AnyTermHolds(terms, x) {
      var j :| 0 <= j < |terms| && HoldsAll(terms[j], x);
      assert idx[j] in idx;
      Covers.CubeMeaning(cubes[idx[j]], x);
    }
    if exists k :: 0 <= k < |cubes| && outs[k][c] == '1' && Covers.Matches(cubes[k], x) {
      var k :| 0 <= k < |cubes| && outs[k][c] == '1' && Covers.Matches(cubes[k], x);
      assert (k as nat) in idx;
      var j :| 0 <= j < |idx| && idx[j] == k;
      Covers.CubeMeaning(cubes[k], x);
      assert HoldsAll(terms[j], x);
    }
  }

  // ---------------------------------------------------------------- write_pla

  /** The header lines of `write_pla`: the comment, the counts, the labels, the type and the product count. */
  function PlaHead(p: Covers.Pla, plaType: string, stamp: string): seq<string>
    requires p.inputLines != [] && p.outputLines != []
  {
    ["# Written by truthtables on " + stamp,
     DirectiveText(Inputs, |p.inputLines[0]|),
     DirectiveText(Outputs, |p.outputLines[0]|),
     ".ilb " + Join(" ", p.inputs),
     ".ob " + Join(" ", p.outputs),
     ".type " + plaType,
     DirectiveText(Products, |p.inputLines|)]
  }

  /**
   * `write_pla`: a dense table fails converting itself to a cover (the
   * conversion reads attributes the table does not have); a cover needs
   * a first cube of each kind, its `pla_type` attribute, and an output cube
   * for every input cube.
   */
  function PlaFile(t: Table, stamp: string): (r: Result<string>)
    ensures r.Ok? <==> t.Cover? && t.pla.inputLines != [] && t.pla.outputLines != [] &&
                       t.plaType.Some? && |t.pla.inputLines| <= |t.pla.outputLines|
    ensures t.Dense? || t.plaType.None? ==> r.Err? && r.error in {AttributeError, IndexError}
  {
    match t
    case Dense(_) => Err(AttributeError)
    case Cover(p, ty) =>
      if p.inputLines == [] || p.outputLines == [] then Err(IndexError)
      else if ty.None? then Err(AttributeError)
      else
        match Covers.ToString(p)
        case Err(e) => Err(e)
        case Ok(body) => Ok(Terminated(PlaHead(p, ty.value, stamp), "\n") + body + "\n" + ".end")
  }

  /** `write_pla`, line by line. */
  method WritePla(t: Table, stamp: string) returns (r: Result<string>)
    ensures r == PlaFile(t, stamp)
  {
    if t.Dense? {
      return Err(AttributeError);
    }
    var p := t.pla;
    ghost var written: seq<string> := [];
    var text := "";
    text, written := WriteLine(text, written, "# Written by truthtables on " + stamp);
    if p.inputLines == [] {
      return Err(IndexError);
    }
    text, written := WriteLine(text, written, DirectiveText(Inputs, |p.inputLines[0]|));
    if p.outputLines == [] {
      return Err(IndexError);
    }
    text, written := WriteLine(text, written, DirectiveText(Outputs, |p.outputLines[0]|));
    text, written := WriteLine(text, written, ".ilb " + Join(" ", p.inputs));
    text, written := WriteLine(text, written, ".ob " + Join(" ", p.outputs));
    if t.plaType.None? {
      return Err(AttributeError);
    }
    text, written := WriteLine(text, written, ".type " + t.plaType.value);
    text, written := WriteLine(text, written, DirectiveText(Products, |p.inputLines|));
    assert written == PlaHead(p, t.plaType.value, stamp);
    var body := Covers.ToString(p);
    if body.Err? {
      return Err(body.error);
    }
    return Ok(text + body.value + "\n" + ".end");
  }

  // ---------------------------------------------------------------- round trip

  /** The products of a cover as pairs of cubes. */
  function Items(p: Covers.Pla): (items: seq<(string, string)>)
    requires |p.inputLines| <= |p.outputLines|
    ensures |items| == |p.inputLines|
  {
    seq(|p.inputLines|, k requires 0 <= k < |p.inputLines| => (p.inputLines[k], p.outputLines[k]))
  }

  /**
   * A cover whose file reads back: at least one product, an output cube per
   * input cube, every cube a blank-free word of the width of the first one,
   * input cubes starting with '0', '1' or '-', and labels without line breaks.
   */
  predicate Readable(p: Covers.Pla) {
    p.inputLines != [] && |p.inputLines| == |p.outputLines| &&
    (forall k :: 0 <= k < |p.inputLines| ==>
       WrittenPla.Writable((p.inputLines[k], p.outputLines[k]), |p.inputLines[0]|, |p.outputLines[0]|)) &&
    (forall k :: 0 <= k < |p.inputs| ==> NoLineBreak(p.inputs[k])) &&
    (forall k :: 0 <= k < |p.outputs| ==> NoLineBreak(p.outputs[k]))
  }

  /** The header `write_pla` emits has the shape the readers scan. */
  lemma HeadWritten(p: Covers.Pla, plaType: string, stamp: string)
    requires p.inputLines != [] && p.outputLines != []
    ensures WrittenPla.WrittenHeader(PlaHead(p, plaType, stamp), |p.inputLines[0]|, |p.outputLines[0]|, |p.inputLines|)
  {
    var (ni, no, np) := (|p.inputLines[0]|, |p.outputLines[0]|, |p.inputLines|);
    var comment := "# Written by truthtables on " + stamp;
    var extras := [".ilb " + Join(" ", p.inputs), ".ob " + Join(" ", p.outputs), ".type " + plaType];
    assert forall j :: 0 <= j < |extras| ==> WrittenPla.Dotted(extras[j]) by {
      WrittenPla.DottedPrefix(".ilb ", Join(" ", p.inputs));
      WrittenPla.DottedPrefix(".ob ", Join(" ", p.outputs));
      WrittenPla.DottedPrefix(".type ", plaType);
    }
    WrittenPla.StandardHeader(comment, ni, no, extras, np);
    assert PlaHead(p, plaType, stamp) ==
           [comment, DirectiveText(Inputs, ni), DirectiveText(Outputs, no)] + extras + [DirectiveText(Products, np)];
  }

  /** The text `write_pla` writes for a cover with a type: the header lines, then the product lines joined by newlines. */
  lemma PlaFileText(p: Covers.Pla, plaType: string, stamp: string)
    requires p.inputLines != [] && |p.inputLines| == |p.outputLines|
    ensures PlaFile(Cover(p, Some(plaType)), stamp) ==
            Ok(Terminated(PlaHead(p, plaType, stamp), "\n") + Join("\n", WrittenPla.CubeLines(Items(p))) + "\n" + ".end")
  {
    assert Covers.Lines(p, |p.inputLines|).value == WrittenPla.CubeLines(Items(p));
  }

  /** Lines each followed by a newline, then other lines joined by newlines and one more newline. */
  lemma TerminatedThenJoin(head: seq<string>, texts: seq<string>, last: string)
    requires texts != []
    ensures Terminated(head, "\n") + Join("\n", texts) + "\n" + last == Terminated(head + texts, "\n") + last
  {
    TerminatedIsJoin(texts, "\n");
    TerminatedAppend(head, texts, "\n");
  }

  /** No header line holds a line break. */
  lemma PlaHeadNoLineBreak(p: Covers.Pla, plaType: string, stamp: string)
    requires Readable(p) && NoLineBreak(plaType) && NoLineBreak(stamp)
    ensures forall j :: 0 <= j < |PlaHead(p, plaType, stamp)| ==> NoLineBreak(PlaHead(p, plaType, stamp)[j])
  {
    JoinNoLineBreak(" ", p.inputs);
    JoinNoLineBreak(" ", p.outputs);
    DirectiveNoLineBreak(Inputs, |p.inputLines[0]|);
    DirectiveNoLineBreak(Outputs, |p.outputLines[0]|);
    DirectiveNoLineBreak(Products, |p.inputLines|);
    assert NoLineBreak("# Written by truthtables on ") && NoLineBreak(".ilb ") && NoLineBreak(".ob ") && NoLineBreak(".type ");
    NoLineBreakConcat("# Written by truthtables on ", stamp);
    NoLineBreakConcat(".ilb ", Join(" ", p.inputs));
    NoLineBreakConcat(".ob ", Join(" ", p.outputs));
    NoLineBreakConcat(".type ", plaType);
  }

  /** The lines of the written file: the header, one line per product, and `.end`. */
  lemma PlaFileLines(p: Covers.Pla, plaType: string, stamp: string)
    requires Readable(p) && NoLineBreak(plaType) && NoLineBreak(stamp)
    ensures PlaFile(Cover(p, Some(plaType)), stamp).Ok?
    ensures SplitLines(PlaFile(Cover(p, Some(plaType)), stamp).value) ==
            PlaHead(p, plaType, stamp) + WrittenPla.CubeLines(Items(p)) + [".end"]
  {
    var head := PlaHead(p, plaType, stamp);
    var texts := WrittenPla.CubeLines(Items(p));
    assert PlaFile(Cover(p, Some(plaType)), stamp) == Ok(Terminated(head + texts, "\n") + ".end") by {
      PlaFileText(p, plaType, stamp);
      TerminatedThenJoin(head, texts, ".end");
    }
    assert forall j :: 0 <= j < |head + texts| ==> NoLineBreak((head + texts)[j]) by {
      PlaHeadNoLineBreak(p, plaType, stamp);
      WrittenPla.CubeLinesNoLineBreak(Items(p));
      AllNoLineBreak(head, texts);
    }
    TerminatedLines(head + texts, ".end");
  }

  /** The lines `write_pla` writes read back as the cubes of the cover. */
  lemma ReadWritten(p: Covers.Pla, plaType: string, stamp: string)
    requires Readable(p)
    ensures PlaReader.Read(PlaHead(p, plaType, stamp) + WrittenPla.CubeLines(Items(p)) + [".end"]) ==
            Ok((p.inputLines, p.outputLines))
  {
    var (ni, no, np) := (|p.inputLines[0]|, |p.outputLines[0]|, |p.inputLines|);
    var head := PlaHead(p, plaType, stamp);
    var items := Items(p);
    var lines := head + WrittenPla.CubeLines(items) + [".end"];
    assert PlaReader.Info(lines) == Ok((ni, no, np)) by {
      HeadWritten(p, plaType, stamp);
      WrittenPla.WrittenScan(head, items, [".end"], ni, no, np);
    }
    assert Collect(PlaReader.Outcomes(AllSections(lines), ni, no)) == Ok(items) by {
      HeadWritten(p, plaType, stamp);
      WrittenPla.WrittenCollect(head, items, [".end"], ni, no);
    }
    PlaReader.UnzipOf(items, p.inputLines, p.outputLines);
  }

  /**
   * What `write_pla` writes for a cover, `read_pla` reads back: the same
   * input cubes and output cubes, in order.
   */
  lemma PlaRoundTrip(p: Covers.Pla, plaType: string, stamp: string)
    requires Readable(p) && NoLineBreak(plaType) && NoLineBreak(stamp)
    ensures PlaFile(Cover(p, Some(plaType)), stamp).Ok?
    ensures PlaReader.Read(SplitLines(PlaFile(Cover(p, Some(plaType)), stamp).value)) == Ok((p.inputLines, p.outputLines))
  {
    PlaFileLines(p, plaType, stamp);
    ReadWritten(p, plaType, stamp);
  }

  /** A label holding a carriage return is outside the round trip: its `.ilb` line would read back as two lines. */
  lemma CarriageReturnLabel()
    ensures !Readable(Covers.Pla(["1"], ["1"], "ckt", ["a\r1 1"], ["o0"]))
  {
    var p := Covers.Pla(["1"], ["1"], "ckt", ["a\r1 1"], ["o0"]);
    assert p.inputs[0][1] == '\r' && IsLineBreak(p.inputs[0][1]);
    assert !NoLineBreak(p.inputs[0]);
  }
}
