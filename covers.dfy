/**
 * The `PLA` class of the `truthtables` package: a cover, that is an ordered
 * list of input cubes over '0', '1' and '-' paired with output cubes, with
 * input and output labels and a module name.
 */
module Covers {
  import opened Base
  import opened Builtins
  import opened Binary
  import opened Literals
  import DenseTables

  datatype Pla = Pla(inputLines: seq<string>, outputLines: seq<string>, name: string,
                     inputs: seq<string>, outputs: seq<string>)

  /** `num_inputs`: the width of the first input cube. */
  function NumInputs(p: Pla): (r: Result<nat>)
    ensures r.Ok? <==> p.inputLines != []
    ensures r.Err? ==> r.error == IndexError
  {
    if p.inputLines == [] then Err(IndexError) else Ok(|p.inputLines[0]|)
  }

  /** `num_outputs`: the width of the first output cube. */
  function NumOutputs(p: Pla): (r: Result<nat>)
    ensures r.Ok? <==> p.outputLines != []
    ensures r.Err? ==> r.error == IndexError
  {
    if p.outputLines == [] then Err(IndexError) else Ok(|p.outputLines[0]|)
  }

  function NumProducts(p: Pla): nat {
    |p.inputLines|
  }

  /**
   * `PLA(input_lines, output_lines, name, inputs, outputs)`. Absent (empty)
   * labels default to `i0..` and `o0..`, sized by the first cube, so an
   * empty cover without explicit labels raises IndexError.
   */
  function NewPla(inLines: seq<string>, outLines: seq<string>, name: string,
                  inputs: seq<string>, outputs: seq<string>): (r: Result<Pla>)
    ensures r.Ok? <==> (inputs != [] || inLines != []) && (outputs != [] || outLines != [])
    ensures r.Err? ==> r.error == IndexError
    ensures r.Ok? ==> r.value.inputLines == inLines && r.value.outputLines == outLines && r.value.name == name
    ensures r.Ok? && inputs != [] ==> r.value.inputs == inputs
    ensures r.Ok? && inputs == [] ==> r.value.inputs == DefaultLabels("i", |inLines[0]|)
    ensures r.Ok? && outputs != [] ==> r.value.outputs == outputs
    ensures r.Ok? && outputs == [] ==> r.value.outputs == DefaultLabels("o", |outLines[0]|)
  {
    var shell := Pla(inLines, outLines, name, [], []);
    if inputs == [] && NumInputs(shell).Err? then Err(IndexError)
    else
      var ins := if inputs != [] then inputs else DefaultLabels("i", NumInputs(shell).value);
      if outputs == [] && NumOutputs(shell).Err? then Err(IndexError)
      else
        var outs := if outputs != [] then outputs else DefaultLabels("o", NumOutputs(shell).value);
        Ok(Pla(inLines, outLines, name, ins, outs))
  }

  /** `pla[key]` for an integer key: the pair of cubes at that position,
      negative keys counting from the end of each list. */
  function GetItem(p: Pla, key: int): (r: Result<(string, string)>)
    ensures r.Ok? <==> -|p.inputLines| <= key < |p.inputLines| && -|p.outputLines| <= key < |p.outputLines|
    ensures r.Err? ==> r.error == IndexError
    ensures r.Ok? && key >= 0 ==> r.value == (p.inputLines[key], p.outputLines[key])
    ensures r.Ok? && key < 0 ==> r.value == (p.inputLines[|p.inputLines| + key], p.outputLines[|p.outputLines| + key])
  {
    match (PyIndex(|p.inputLines|, key), PyIndex(|p.outputLines|, key))
    case (Some(i), Some(o)) => Ok((p.inputLines[i], p.outputLines[o]))
    case _ => Err(IndexError)
  }

  /** `pla[start:stop]`: a new cover of the selected products, named "ckt"
      and with default labels; fails like the constructor when it is empty. */
  function Slice(p: Pla, start: int, stop: int): (r: Result<Pla>)
    ensures r.Err? ==> r.error == IndexError
    ensures r.Ok? ==> r.value.name == "ckt"
    ensures 0 <= start <= stop <= |p.inputLines| && stop <= |p.outputLines| ==>
              (r.Ok? <==> start < stop) &&
              (r.Ok? ==> r.value.inputLines == p.inputLines[start..stop]
                         && r.value.outputLines == p.outputLines[start..stop]
                         && r.value.inputs == DefaultLabels("i", |p.inputLines[start]|)
                         && r.value.outputs == DefaultLabels("o", |p.outputLines[start]|))
  {
    NewPla(PySlice(p.inputLines, start, stop), PySlice(p.outputLines, start, stop), "ckt", [], [])
  }

  /** The text lines of `str(pla)`: `" ".join(pla[i])` for each product
      position, taken through `pla[i]`. */
  function Lines(p: Pla, n: nat): (r: Result<seq<string>>)
    requires n <= |p.inputLines|
    ensures r.Ok? <==> n <= |p.outputLines|
    ensures r.Err? ==> r.error == IndexError
    ensures r.Ok? ==> |r.value| == n
    ensures r.Ok? ==> forall i :: 0 <= i < n ==> r.value[i] == p.inputLines[i] + " " + p.outputLines[i]
  {
    if n == 0 then Ok([])
    else
      match Lines(p, n - 1)
      case Err(e) => Err(e)
      case Ok(front) =>
        match GetItem(p, n - 1)
        case Err(e) => Err(e)
        case Ok(pair) => Ok(front + [pair.0 + " " + pair.1])
  }

  /** `str(pla)`: the product lines joined by newlines, no trailing newline. */
  function ToString(p: Pla): (r: Result<string>)
    ensures r.Ok? <==> |p.inputLines| <= |p.outputLines|
    ensures r.Err? ==> r.error == IndexError
  {
    match Lines(p, |p.inputLines|)
    case Err(e) => Err(e)
    case Ok(lines) => Ok(Join("\n", lines))
  }

  /** `a + b`: the products of `a`, then those of `b`, with `a`'s name and labels. */
  function Concat(a: Pla, b: Pla): (r: Result<Pla>)
    ensures r.Ok? <==> (a.inputs != [] || a.inputLines + b.inputLines != [])
                       && (a.outputs != [] || a.outputLines + b.outputLines != [])
    ensures r.Ok? ==> NumProducts(r.value) == NumProducts(a) + NumProducts(b)
    ensures r.Ok? ==> r.value.inputLines == a.inputLines + b.inputLines
                      && r.value.outputLines == a.outputLines + b.outputLines
    ensures r.Ok? ==> r.value.name == a.name
    ensures r.Ok? && a.inputs != [] ==> r.value.inputs == a.inputs
    ensures r.Ok? && a.outputs != [] ==> r.value.outputs == a.outputs
  {
    NewPla(a.inputLines + b.inputLines, a.outputLines + b.outputLines, a.name, a.inputs, a.outputs)
  }

  /** The text of a concatenation is the text of the left operand followed by
      that of the right one, when the left one pairs its cubes exactly. */
  lemma ConcatLines(a: Pla, b: Pla)
    requires |a.inputLines| == |a.outputLines| && |b.inputLines| <= |b.outputLines|
    requires Concat(a, b).Ok?
    ensures Lines(Concat(a, b).value, NumProducts(a) + NumProducts(b)).Ok?
    ensures Lines(Concat(a, b).value, NumProducts(a) + NumProducts(b)).value
            == Lines(a, NumProducts(a)).value + Lines(b, NumProducts(b)).value
  {
    var c := Concat(a, b).value;
    var n := NumProducts(a) + NumProducts(b);
    var whole := Lines(c, n).value;
    var left := Lines(a, NumProducts(a)).value;
    var right := Lines(b, NumProducts(b)).value;
    forall i | 0 <= i < n ensures whole[i] == (left + right)[i] {
      if i < |left| {
        assert c.inputLines[i] == a.inputLines[i] && c.outputLines[i] == a.outputLines[i];
      } else {
        var k := i - |left|;
        assert c.inputLines[i] == b.inputLines[k] && c.outputLines[i] == b.outputLines[k];
        assert (left + right)[i] == right[k];
      }
    }
    assert whole == left + right;
  }

  /** `onset(o)`: the positions of the products whose output cube has '1'
      in the column of `o`, in order. */
  function Onset(p: Pla, o: string): (r: Result<seq<nat>>)
    ensures o !in p.outputs ==> r == Err(ValueError(UnknownLabel))
    ensures r.Ok? ==> o in p.outputs
    ensures r.Ok? ==>
              var c := IndexOf(p.outputs, o).value;
              (forall k :: 0 <= k < |p.outputLines| ==> c < |p.outputLines[k]|) &&
              (forall k: nat :: k in r.value <==> k < |p.outputLines| && p.outputLines[k][c] == '1') &&
              (forall a, b :: 0 <= a < b < |r.value| ==> r.value[a] < r.value[b])
  {
    match IndexOf(p.outputs, o)
    case None => Err(ValueError(UnknownLabel))
    case Some(c) => DenseTables.ColumnOnes(p.outputLines, c)
  }

  // ---------------------------------------------------------------- products

  predicate Cared(c: char) {
    c == '0' || c == '1'
  }

  /** The literals of an input cube: one per '0' or '1' position, in order;
      '-' (and any other character) contributes none. */
  function CubeLits(cube: string): (lits: seq<Lit>)
    ensures forall j :: 0 <= j < |lits| ==>
              lits[j].pos < |cube| && Cared(cube[lits[j].pos]) && lits[j].positive == (cube[lits[j].pos] == '1')
    ensures forall a, b :: 0 <= a < b < |lits| ==> lits[a].pos < lits[b].pos
  {
    if cube == [] then []
    else
      var n := |cube| - 1;
      var front := CubeLits(cube[..n]);
      assert forall j :: 0 <= j < |front| ==> cube[front[j].pos] == cube[..n][front[j].pos];
      if Cared(cube[n]) then front + [Lit(n, cube[n] == '1')] else front
  }

  /** Every cared position of the cube has its literal. */
  lemma {:induction false} CubeLitsComplete(cube: string, i: nat)
    requires i < |cube| && Cared(cube[i])
    ensures exists j :: 0 <= j < |CubeLits(cube)| && CubeLits(cube)[j].pos == i
  {
    var n := |cube| - 1;
    if i < n {
      CubeLitsComplete(cube[..n], i);
      var j :| 0 <= j < |CubeLits(cube[..n])| && CubeLits(cube[..n])[j].pos == i;
      assert CubeLits(cube)[j] == CubeLits(cube[..n])[j];
    } else {
      assert CubeLits(cube)[|CubeLits(cube)| - 1].pos == n;
    }
  }

  /** The input assignment `x` lies in the cube. */
  predicate Matches(cube: string, x: string) {
    |x| == |cube| &&
    forall i :: 0 <= i < |cube| ==> (cube[i] == '0' ==> x[i] == '0') && (cube[i] == '1' ==> x[i] == '1')
  }

  /** A cube's product term is true under exactly the assignments in the cube. */
  lemma CubeMeaning(cube: string, x: string)
    requires IsBinary(x) && |x| == |cube|
    ensures HoldsAll(CubeLits(cube), x) <==> Matches(cube, x)
  {
    var lits := CubeLits(cube);
    if HoldsAll(lits, x) {
      forall i | 0 <= i < |cube| && Cared(cube[i]) ensures x[i] == cube[i] {
        CubeLitsComplete(cube, i);
        var j :| 0 <= j < |lits| && lits[j].pos == i;
        assert Holds(lits[j], x);
      }
    }
    if Matches(cube, x) {
      forall j | 0 <= j < |lits| ensures Holds(lits[j], x) {
        var i := lits[j].pos;
        assert x[i] == cube[i];
      }
    }
  }

  /** The product of one cube over `labels`: an IndexError when a cared
      position has no label. */
  function CubeProduct(cube: string, labels: seq<string>): (r: Result<string>)
    ensures r.Ok? <==> forall i :: 0 <= i < |cube| && Cared(cube[i]) ==> i < |labels|
    ensures r.Err? ==> r.error == IndexError
  {
    var lits := CubeLits(cube);
    if Labelled(lits, labels) then
      assert forall i :: 0 <= i < |cube| && Cared(cube[i]) ==> i < |labels| by {
        forall i | 0 <= i < |cube| && Cared(cube[i]) ensures i < |labels| {
          CubeLitsComplete(cube, i);
        }
      }
      Ok(ProductText(lits, labels))
    else
      assert exists i :: 0 <= i < |cube| && Cared(cube[i]) && i >= |labels| by {
        var j :| 0 <= j < |lits| && lits[j].pos >= |labels|;
        assert Cared(cube[lits[j].pos]);
      }
      Err(IndexError)
  }

  /** `input_product(k)`: the product of cube `k` (a Python index). */
  function CoverProduct(p: Pla, k: int): (r: Result<string>)
    ensures r.Err? ==> r.error == IndexError
    ensures !(-|p.inputLines| <= k < |p.inputLines|) ==> r.Err?
  {
    match PyIndex(|p.inputLines|, k)
    case None => Err(IndexError)
    case Some(j) => CubeProduct(p.inputLines[j], p.inputs)
  }

  method InputProduct(p: Pla, k: int) returns (r: Result<string>)
    ensures r == CoverProduct(p, k)
  {
    var j := PyIndex(|p.inputLines|, k);
    if j.None? {
      return Err(IndexError);
    }
    r := CubeProductLoop(p.inputLines[j.value], p.inputs);
  }

  /** The loop of `input_product`: a literal for each '0' or '1' character,
      none for anything else. */
  method CubeProductLoop(cube: string, labels: seq<string>) returns (r: Result<string>)
    ensures r == CubeProduct(cube, labels)
  {
    var terms: seq<string> := [];
    var i := 0;
    while i < |cube|
      invariant 0 <= i <= |cube|
      invariant Labelled(CubeLits(cube[..i]), labels)
      invariant terms == LitTexts(CubeLits(cube[..i]), labels)
    {
      CubeLitsStep(cube, i);
      if cube[i] == '0' {
        if i >= |labels| {
          return Err(IndexError);
        }
        LitTextsSnoc(CubeLits(cube[..i]), Lit(i, false), labels);
        terms := terms + ["~" + labels[i]];
      } else if cube[i] == '1' {
        if i >= |labels| {
          return Err(IndexError);
        }
        LitTextsSnoc(CubeLits(cube[..i]), Lit(i, true), labels);
        terms := terms + [labels[i]];
      }
      i := i + 1;
    }
    assert cube[..i] == cube;
    return Ok(Join(" & ", terms));
  }

  /** One more character of the cube adds its literal when it is cared for. */
  lemma CubeLitsStep(cube: string, i: nat)
    requires i < |cube|
    ensures CubeLits(cube[..i + 1]) == CubeLits(cube[..i]) + (if Cared(cube[i]) then [Lit(i, cube[i] == '1')] else [])
  {
    assert cube[..i + 1][..i] == cube[..i];
  }
}
