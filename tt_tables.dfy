/**
 * The `TruthTable` of the older `tt` package: two numpy arrays of cells, the
 * input cubes and the output cubes, one row per product.
 */
module TtTables {
  import opened Base
  import opened Builtins
  import opened Binary
  import opened Literals
  import opened Trits
  import PlaLines
  import DenseTables
  import Covers

  /** A two-dimensional array: its column count and its rows. */
  datatype Matrix = Matrix(width: nat, rows: seq<seq<Trit>>)

  /** Every row has `width` cells, as in any numpy array. */
  predicate Shaped(m: Matrix) {
    forall k :: 0 <= k < |m.rows| ==> |m.rows[k]| == m.width
  }

  /** What the constructor is given for each array: one row or a grid. */
  datatype Cells = Row(cells: seq<Trit>) | Grid(grid: Matrix)

  datatype TruthTable = TruthTable(inputLines: Matrix, outputLines: Matrix)

  function NumInputs(t: TruthTable): nat {
    t.inputLines.width
  }

  function NumOutputs(t: TruthTable): nat {
    t.outputLines.width
  }

  function NumProducts(t: TruthTable): nat {
    |t.inputLines.rows|
  }

  /** `np.expand_dims(a, axis=0)` for a one-dimensional array. */
  function Promote(c: Cells): Matrix {
    match c
    case Row(cells) => Matrix(|cells|, [cells])
    case Grid(m) => m
  }

  /**
   * `TruthTable(input_lines=..., output_lines=...)`: a single row is promoted
   * to a one-product table, a grid is kept; the counts are the dimensions.
   */
  function New(inputs: Cells, outputs: Cells): (t: TruthTable)
    ensures inputs.Row? ==> NumProducts(t) == 1 && NumInputs(t) == |inputs.cells| && t.inputLines.rows[0] == inputs.cells
    ensures outputs.Row? ==> |t.outputLines.rows| == 1 && NumOutputs(t) == |outputs.cells| && t.outputLines.rows[0] == outputs.cells
    ensures inputs.Grid? ==> NumProducts(t) == |inputs.grid.rows| && NumInputs(t) == inputs.grid.width
    ensures outputs.Grid? ==> |t.outputLines.rows| == |outputs.grid.rows| && NumOutputs(t) == outputs.grid.width
    ensures inputs.Grid? ==> t.inputLines == inputs.grid
    ensures outputs.Grid? ==> t.outputLines == outputs.grid
    ensures (inputs.Row? || Shaped(inputs.grid)) ==> Shaped(t.inputLines)
    ensures (outputs.Row? || Shaped(outputs.grid)) ==> Shaped(t.outputLines)
  {
    TruthTable(Promote(inputs), Promote(outputs))
  }

  // ---------------------------------------------------------------- text

  /** One line of `__str__`: the inputs with 2 as '-', a blank, the outputs with 2 as '~'. */
  function RowText(i: seq<Trit>, o: seq<Trit>): string {
    Render(i, '-') + " " + Render(o, '~')
  }

  /** The products `zip` visits: as many as the shorter array has rows. */
  function Paired(t: TruthTable): nat {
    if |t.inputLines.rows| <= |t.outputLines.rows| then |t.inputLines.rows| else |t.outputLines.rows|
  }

  function RowTexts(t: TruthTable): (r: seq<string>)
    ensures |r| == Paired(t)
  {
    seq(Paired(t), k requires 0 <= k < Paired(t) => RowText(t.inputLines.rows[k], t.outputLines.rows[k]))
  }

  /** What `__str__` returns: every line followed by a newline, then `rstrip`. */
  function Text(t: TruthTable): (r: string)
    ensures r == [] || !IsSpace(r[|r| - 1])
    ensures r <= Terminated(RowTexts(t), "\n")
  {
    RStrip(Terminated(RowTexts(t), "\n"))
  }

  /** `__str__`, accumulating one line per product. */
  method Str(t: TruthTable) returns (s: string)
    ensures s == Text(t)
  {
    s := "";
    var texts := RowTexts(t);
    for k := 0 to Paired(t)
      invariant s == Terminated(texts[..k], "\n")
    {
      assert texts[..k + 1][..k] == texts[..k];
      s := s + Render(t.inputLines.rows[k], '-') + " ";
      s := s + Render(t.outputLines.rows[k], '~') + "\n";
    }
    assert texts[..Paired(t)] == texts;
    s := RStrip(s);
  }

  /**
   * With at least one product and at least one output, the text is the
   * product lines joined by newlines: `rstrip` removes exactly the last
   * newline.
   */
  lemma TextLines(t: TruthTable)
    requires Paired(t) >= 1 && Shaped(t.outputLines) && t.outputLines.width >= 1
    ensures Text(t) == Join("\n", RowTexts(t))
  {
    var texts := RowTexts(t);
    TerminatedIsJoin(texts, "\n");
    JoinLast(texts);
    RStripTrailing(Join("\n", texts), "\n");
  }

  /** The last character of the joined lines is the last output glyph. */
  lemma JoinLast(texts: seq<string>)
    requires texts != [] && texts[|texts| - 1] != []
    ensures Join("\n", texts) != [] && Join("\n", texts)[|Join("\n", texts)| - 1] == texts[|texts| - 1][|texts[|texts| - 1]| - 1]
  {
    if |texts| > 1 {
      var n := |texts| - 1;
      assert texts == texts[..n] + [texts[n]];
      JoinSnoc("\n", texts[..n], texts[n]);
    }
  }

  // ---------------------------------------------------------------- onset

  /** The rows whose cell in column `c` is 1, ascending. */
  function OnesIn(m: Matrix, c: nat): (idx: seq<nat>)
    requires Shaped(m) && c < m.width
    ensures forall k: nat :: k in idx <==> k < |m.rows| && m.rows[k][c] == 1
    ensures forall a, b :: 0 <= a < b < |idx| ==> idx[a] < idx[b]
    ensures forall j :: 0 <= j < |idx| ==> idx[j] < |m.rows|
  {
    var glyphs := seq(|m.rows|, k requires 0 <= k < |m.rows| => Render(m.rows[k], '~'));
    var idx := DenseTables.ColumnOnes(glyphs, c).value;
    assert forall j :: 0 <= j < |idx| ==> idx[j] in idx;
    idx
  }

  /** The rows at positions `idx`, in that order. */
  function Pick(rows: seq<seq<Trit>>, idx: seq<nat>): seq<seq<Trit>>
    requires forall j :: 0 <= j < |idx| ==> idx[j] < |rows|
  {
    seq(|idx|, j requires 0 <= j < |idx| => rows[idx[j]])
  }

  /**
   * `onset(output_num)`: the table of the products whose output
   * `output_num` (a Python index) is 1, each input row kept beside its
   * output row, in order; an IndexError for a column out of range or an
   * onset row the input array does not have.
   */
  function Onset(t: TruthTable, outputNum: int): (r: Result<TruthTable>)
    requires Shaped(t.outputLines)
    ensures r.Ok? <==> PyIndex(t.outputLines.width, outputNum).Some? &&
                       forall j :: 0 <= j < |OnesIn(t.outputLines, PyIndex(t.outputLines.width, outputNum).value)| ==>
                         OnesIn(t.outputLines, PyIndex(t.outputLines.width, outputNum).value)[j] < NumProducts(t)
    ensures r.Err? ==> r.error == IndexError
    ensures r.Ok? ==>
              var c := PyIndex(t.outputLines.width, outputNum).value;
              var idx := OnesIn(t.outputLines, c);
              r.value.inputLines == Matrix(t.inputLines.width, Pick(t.inputLines.rows, idx)) &&
              r.value.outputLines == Matrix(t.outputLines.width, Pick(t.outputLines.rows, idx))
  {
    match PyIndex(t.outputLines.width, outputNum)
    case None => Err(IndexError)
    case Some(c) =>
      var idx := OnesIn(t.outputLines, c);
      if forall j :: 0 <= j < |idx| ==> idx[j] < NumProducts(t) then
        Ok(TruthTable(Matrix(t.inputLines.width, Pick(t.inputLines.rows, idx)),
                      Matrix(t.outputLines.width, Pick(t.outputLines.rows, idx))))
      else Err(IndexError)
  }

  /**
   * The onset holds exactly the products of the table with a 1 in the
   * column, in table order, each with its own input row.
   */
  lemma OnsetMeaning(t: TruthTable, c: nat)
    requires Shaped(t.outputLines) && c < t.outputLines.width
    requires |t.inputLines.rows| == |t.outputLines.rows|
    ensures Onset(t, c).Ok?
    ensures var s := Onset(t, c).value;
            |s.inputLines.rows| == |s.outputLines.rows| &&
            (forall j :: 0 <= j < |s.outputLines.rows| ==> s.outputLines.rows[j][c] == 1) &&
            (forall k :: 0 <= k < NumProducts(t) && t.outputLines.rows[k][c] == 1 ==>
               exists j :: 0 <= j < |s.outputLines.rows| &&
                           s.inputLines.rows[j] == t.inputLines.rows[k] && s.outputLines.rows[j] == t.outputLines.rows[k])
  {
    var idx := OnesIn(t.outputLines, c);
    assert PyIndex(t.outputLines.width, c) == Some(c);
    forall j | 0 <= j < |idx| ensures idx[j] < NumProducts(t) {
      assert idx[j] in idx;
    }
    var s := Onset(t, c).value;
    forall k | 0 <= k < NumProducts(t) && t.outputLines.rows[k][c] == 1
      ensures exists j :: 0 <= j < |s.outputLines.rows| &&
                          s.inputLines.rows[j] == t.inputLines.rows[k] && s.outputLines.rows[j] == t.outputLines.rows[k]
    {
      assert (k as nat) in idx;
      var j :| 0 <= j < |idx| && idx[j] == k;
      assert s.inputLines.rows[j] == t.inputLines.rows[k];
    }
    forall j | 0 <= j < |s.outputLines.rows| ensures s.outputLines.rows[j][c] == 1 {
      assert idx[j] in idx;
    }
  }

  // ---------------------------------------------------------------- products

  /**
   * `input_product(line_num)` with the default labels `i0`, `i1`, ...: the
   * product of the row written as a cube ('-' for 2), so 0 gives a negated
   * literal, 1 a plain one and 2 none.
   */
  function Product(t: TruthTable, lineNum: int): (r: Result<string>)
    ensures r.Err? ==> r.error == IndexError
    ensures Shaped(t.inputLines) ==> (r.Ok? <==> PyIndex(NumProducts(t), lineNum).Some?)
  {
    match PyIndex(NumProducts(t), lineNum)
    case None => Err(IndexError)
    case Some(j) =>
      var cube := Render(t.inputLines.rows[j], '-');
      assert Shaped(t.inputLines) ==> |cube| == NumInputs(t);
      Covers.CubeProduct(cube, DefaultLabels("i", NumInputs(t)))
  }

  /**
   * `input_product(line_num, labels)`. The misspelled parameter
   * `input_lables` only decides whether the default labels are bound: with
   * no labels they are, and the product is `Product`; with labels given,
   * `input_labels` is never assigned, so the first cell that is 0 or 1 reads
   * it unbound, and a row of don't-cares gives the empty product.
   */
  function LabelledProduct(t: TruthTable, lineNum: int, labels: seq<string>): (r: Result<string>)
    ensures labels == [] ==> r == Product(t, lineNum)
    ensures labels != [] && PyIndex(NumProducts(t), lineNum).None? ==> r == Err(IndexError)
    ensures labels != [] && PyIndex(NumProducts(t), lineNum).Some? ==>
              var row := t.inputLines.rows[PyIndex(NumProducts(t), lineNum).value];
              (r.Ok? <==> forall i :: 0 <= i < |row| ==> row[i] == 2) &&
              (r.Ok? ==> r.value == "") &&
              (r.Err? ==> r.error == UnboundLocal)
  {
    if labels == [] then Product(t, lineNum)
    else
      match PyIndex(NumProducts(t), lineNum)
      case None => Err(IndexError)
      case Some(j) =>
        if 0 in t.inputLines.rows[j] || 1 in t.inputLines.rows[j] then Err(UnboundLocal) else Ok("")
  }

  /** `input_product`, appending a literal for each cell that is 0 or 1. */
  method InputProduct(t: TruthTable, lineNum: int) returns (r: Result<string>)
    ensures r == Product(t, lineNum)
  {
    var j := PyIndex(NumProducts(t), lineNum);
    if j.None? {
      return Err(IndexError);
    }
    r := RowProduct(t.inputLines.rows[j.value], DefaultLabels("i", NumInputs(t)));
  }

  /** The loop of `input_product` over one row of cells. */
  method RowProduct(row: seq<Trit>, labels: seq<string>) returns (r: Result<string>)
    ensures r == Covers.CubeProduct(Render(row, '-'), labels)
  {
    ghost var cube := Render(row, '-');
    var terms: seq<string> := [];
    for i := 0 to |row|
      invariant Labelled(Covers.CubeLits(cube[..i]), labels)
      invariant terms == LitTexts(Covers.CubeLits(cube[..i]), labels)
    {
      Covers.CubeLitsStep(cube, i);
      if row[i] == 0 {
        assert cube[i] == '0';
        if i >= |labels| {
          return Err(IndexError);
        }
        LitTextsSnoc(Covers.CubeLits(cube[..i]), Lit(i, false), labels);
        terms := terms + ["~" + labels[i]];
      } else if row[i] == 1 {
        assert cube[i] == '1';
        if i >= |labels| {
          return Err(IndexError);
        }
        LitTextsSnoc(Covers.CubeLits(cube[..i]), Lit(i, true), labels);
        terms := terms + [labels[i]];
      } else {
        assert !Covers.Cared(cube[i]);
      }
    }
    assert cube[..|row|] == cube;
    return Ok(Join(" & ", terms));
  }

  /** The assignment `x` agrees with the row wherever the row is not 2. */
  predicate RowCovers(row: seq<Trit>, x: string) {
    |x| == |row| && forall i :: 0 <= i < |row| && row[i] != 2 ==> x[i] == (if row[i] == 1 then '1' else '0')
  }

  /** A row's product is true under exactly the assignments the row covers. */
  lemma RowProductMeaning(row: seq<Trit>, x: string)
    requires IsBinary(x) && |x| == |row|
    ensures HoldsAll(Covers.CubeLits(Render(row, '-')), x) <==> RowCovers(row, x)
  {
    Covers.CubeMeaning(Render(row, '-'), x);
  }

  // ---------------------------------------------------------------- to_int

  /** The largest value a numpy int64 cell holds. */
  const Int64Max: int := 0x7FFF_FFFF_FFFF_FFFF

  /** `''.join(str(val) for val in row)`. */
  function Digits(row: seq<Trit>): string {
    Render(row, '2')
  }

  /**
   * What `to_int` does with one pair of rows, in its order: a don't-care in
   * either row is a ValueError; `int(i, 2)` of an empty row is one; a value
   * beyond int64 cannot be stored.
   */
  function RowInts(i: seq<Trit>, o: seq<Trit>): (r: Result<(int, int)>)
    ensures r.Ok? ==> IsBinary(Digits(i)) && IsBinary(Digits(o)) && r.value == (BitsValue(Digits(i)), BitsValue(Digits(o)))
  {
    if 2 in i || 2 in o then Err(ValueError(DontCare))
    else
      assert IsBinary(Digits(i)) && IsBinary(Digits(o));
      if i == [] then Err(ValueError(EmptyBinary))
      else if BitsValue(Digits(i)) > Int64Max then Err(OverflowError)
      else if o == [] then Err(ValueError(EmptyBinary))
      else if BitsValue(Digits(o)) > Int64Max then Err(OverflowError)
      else Ok((BitsValue(Digits(i)), BitsValue(Digits(o))))
  }

  function RowOutcome(i: seq<Trit>, o: seq<Trit>): PlaLines.Outcome<(int, int)> {
    match RowInts(i, o)
    case Err(e) => PlaLines.Fail(e)
    case Ok(p) => PlaLines.Keep(p)
  }

  function RowOutcomes(t: TruthTable): (r: seq<PlaLines.Outcome<(int, int)>>)
    ensures |r| == Paired(t)
  {
    seq(Paired(t), k requires 0 <= k < Paired(t) => RowOutcome(t.inputLines.rows[k], t.outputLines.rows[k]))
  }

  /** The `n` cells of an int array filled from the front with `values`, zero beyond. */
  function Filled(values: seq<int>, n: nat): (r: seq<int>)
    ensures |r| == n
  {
    seq(n, k requires 0 <= k < n => if k < |values| then values[k] else 0)
  }

  /** Storing the next value in a partly filled array. */
  lemma FilledSnoc(values: seq<int>, v: int, n: nat)
    requires |values| < n
    ensures Filled(values, n)[|values| := v] == Filled(values + [v], n)
  {
  }

  /** Storing the next pair's values in the two partly filled arrays. */
  lemma PairsSnoc(pairs: seq<(int, int)>, item: (int, int), n: nat)
    requires |pairs| < n
    ensures Filled(Firsts(pairs), n)[|pairs| := item.0] == Filled(Firsts(pairs + [item]), n)
    ensures Filled(Seconds(pairs), n)[|pairs| := item.1] == Filled(Seconds(pairs + [item]), n)
  {
    FilledSnoc(Firsts(pairs), item.0, n);
    FilledSnoc(Seconds(pairs), item.1, n);
    assert Firsts(pairs + [item]) == Firsts(pairs) + [item.0];
    assert Seconds(pairs + [item]) == Seconds(pairs) + [item.1];
  }

  function Firsts(pairs: seq<(int, int)>): (r: seq<int>)
    ensures |r| == |pairs|
  {
    seq(|pairs|, k requires 0 <= k < |pairs| => pairs[k].0)
  }

  function Seconds(pairs: seq<(int, int)>): (r: seq<int>)
    ensures |r| == |pairs|
  {
    seq(|pairs|, k requires 0 <= k < |pairs| => pairs[k].1)
  }

  /**
   * `to_int`: the value of each paired input row and output row, in order,
   * in two arrays of `num_products` cells; the first failing row decides the
   * error.
   */
  function ToInts(t: TruthTable): (r: Result<(seq<int>, seq<int>)>)
    ensures r.Ok? ==> |r.value.0| == NumProducts(t) && |r.value.1| == NumProducts(t)
  {
    match PlaLines.Collect(RowOutcomes(t))
    case Err(e) => Err(e)
    case Ok(pairs) => Ok((Filled(Firsts(pairs), NumProducts(t)), Filled(Seconds(pairs), NumProducts(t))))
  }

  /** `to_int`, filling two zero-initialised arrays in place. */
  method ToInt(t: TruthTable) returns (r: Result<(seq<int>, seq<int>)>)
    ensures r == ToInts(t)
  {
    var n := NumProducts(t);
    var inputs := new int[n](_ => 0);
    var outputs := new int[n](_ => 0);
    ghost var outs := RowOutcomes(t);
    ghost var pairs: seq<(int, int)> := [];
    assert inputs[..] == Filled(Firsts(pairs), n);
    assert outputs[..] == Filled(Seconds(pairs), n);
    for k := 0 to Paired(t)
      invariant PlaLines.Collect(outs[..k]) == Ok(pairs)
      invariant |pairs| == k
      invariant inputs[..] == Filled(Firsts(pairs), n)
      invariant outputs[..] == Filled(Seconds(pairs), n)
    {
      PlaLines.CollectPrefix(outs, k);
      var o := ConvertRow(t.inputLines.rows[k], t.outputLines.rows[k]);
      assert outs[k] == o;
      if o.Fail? {
        PlaLines.CollectFailureSticks(outs, k + 1);
        return Err(o.error);
      }
      PairsSnoc(pairs, o.item, n);
      inputs[k] := o.item.0;
      outputs[k] := o.item.1;
      pairs := pairs + [o.item];
    }
    assert outs[..Paired(t)] == outs;
    return Ok((inputs[..], outputs[..]));
  }

  /** The body of `to_int`'s loop for one pair of rows. */
  method ConvertRow(i: seq<Trit>, o: seq<Trit>) returns (r: PlaLines.Outcome<(int, int)>)
    ensures r == RowOutcome(i, o)
  {
    if 2 in i || 2 in o {
      return PlaLines.Fail(ValueError(DontCare));
    }
    var si := Digits(i);
    var so := Digits(o);
    if si == [] {
      return PlaLines.Fail(ValueError(EmptyBinary));
    }
    var vi := BitsValue(si);
    if vi > Int64Max {
      return PlaLines.Fail(OverflowError);
    }
    if so == [] {
      return PlaLines.Fail(ValueError(EmptyBinary));
    }
    var vo := BitsValue(so);
    if vo > Int64Max {
      return PlaLines.Fail(OverflowError);
    }
    return PlaLines.Keep((vi, vo));
  }

  /** A converted pair of rows fits int64 and writes back, zero-padded, as the rows. */
  lemma RowIntsRoundTrip(i: seq<Trit>, o: seq<Trit>)
    requires RowInts(i, o).Ok?
    ensures RowInts(i, o).value.0 <= Int64Max && PaddedBin(RowInts(i, o).value.0, |i|) == Digits(i)
    ensures RowInts(i, o).value.1 <= Int64Max && PaddedBin(RowInts(i, o).value.1, |o|) == Digits(o)
  {
    PaddedBinOfValue(Digits(i), |i|);
    PaddedBinOfValue(Digits(o), |o|);
  }

  /** When `to_int` succeeds, it has converted every paired row, in order. */
  lemma PairsOf(t: TruthTable)
    requires PlaLines.Collect(RowOutcomes(t)).Ok?
    ensures var pairs := PlaLines.Collect(RowOutcomes(t)).value;
            |pairs| == Paired(t) &&
            forall k :: 0 <= k < Paired(t) ==>
              RowInts(t.inputLines.rows[k], t.outputLines.rows[k]) == Ok(pairs[k])
  {
    var os := RowOutcomes(t);
    PlaLines.CollectMeaning(os);
    KeptAll(os);
  }

  /** A pair of rows `to_int` converts: no don't-care, neither row empty, and both values within int64. */
  predicate Convertible(i: seq<Trit>, o: seq<Trit>) {
    2 !in i && 2 !in o && i != [] && o != [] &&
    BitsValue(Digits(i)) <= Int64Max && BitsValue(Digits(o)) <= Int64Max
  }

  /**
   * `to_int` succeeds exactly when every paired row converts, so a
   * don't-care in any paired row makes it fail. When it succeeds, cell `k`
   * of each array holds the MSB-first value of row `k`, within int64, whose
   * zero-padded binary is the row again; cells past the paired rows stay 0.
   */
  lemma ToIntsMeaning(t: TruthTable)
    ensures ToInts(t).Ok? <==> forall k :: 0 <= k < Paired(t) ==> Convertible(t.inputLines.rows[k], t.outputLines.rows[k])
    ensures (exists k :: 0 <= k < Paired(t) && (2 in t.inputLines.rows[k] || 2 in t.outputLines.rows[k])) ==> ToInts(t).Err?
    ensures ToInts(t).Ok? ==>
              var (ins, outs) := ToInts(t).value;
              |ins| == NumProducts(t) && |outs| == NumProducts(t) &&
              (forall k :: 0 <= k < Paired(t) ==>
                 0 <= ins[k] <= Int64Max && PaddedBin(ins[k], |t.inputLines.rows[k]|) == Digits(t.inputLines.rows[k]) &&
                 0 <= outs[k] <= Int64Max && PaddedBin(outs[k], |t.outputLines.rows[k]|) == Digits(t.outputLines.rows[k])) &&
              (forall k :: Paired(t) <= k < NumProducts(t) ==> ins[k] == 0 && outs[k] == 0)
  {
    ToIntsSucceeds(t);
    if exists k :: 0 <= k < Paired(t) && (2 in t.inputLines.rows[k] || 2 in t.outputLines.rows[k]) {
      DontCareFails(t);
    }
    if ToInts(t).Ok? {
      ToIntsValues(t);
    }
  }

  /** The loop runs to the end exactly when every paired row converts. */
  lemma ToIntsSucceeds(t: TruthTable)
    ensures ToInts(t).Ok? <==> forall k :: 0 <= k < Paired(t) ==> Convertible(t.inputLines.rows[k], t.outputLines.rows[k])
  {
    var os := RowOutcomes(t);
    PlaLines.CollectMeaning(os);
    forall k | 0 <= k < Paired(t)
      ensures os[k].Fail? <==> !Convertible(t.inputLines.rows[k], t.outputLines.rows[k])
    {
      RowIntsOk(t.inputLines.rows[k], t.outputLines.rows[k]);
    }
  }

  /** One pair of rows converts exactly when it is convertible. */
  lemma RowIntsOk(i: seq<Trit>, o: seq<Trit>)
    ensures RowInts(i, o).Ok? <==> Convertible(i, o)
  {
  }

  /** A don't-care in a paired row makes `to_int` fail. */
  lemma DontCareFails(t: TruthTable)
    requires exists k :: 0 <= k < Paired(t) && (2 in t.inputLines.rows[k] || 2 in t.outputLines.rows[k])
    ensures ToInts(t).Err?
  {
    var os := RowOutcomes(t);
    var k :| 0 <= k < Paired(t) && (2 in t.inputLines.rows[k] || 2 in t.outputLines.rows[k]);
    assert os[k].Fail?;
    PlaLines.CollectMeaning(os);
  }

  /** The cells `to_int` fills when it succeeds. */
  lemma ToIntsValues(t: TruthTable)
    requires ToInts(t).Ok?
    ensures var (ins, outs) := ToInts(t).value;
            |ins| == NumProducts(t) && |outs| == NumProducts(t) &&
            (forall k :: 0 <= k < Paired(t) ==>
               0 <= ins[k] <= Int64Max && PaddedBin(ins[k], |t.inputLines.rows[k]|) == Digits(t.inputLines.rows[k]) &&
               0 <= outs[k] <= Int64Max && PaddedBin(outs[k], |t.outputLines.rows[k]|) == Digits(t.outputLines.rows[k])) &&
            (forall k :: Paired(t) <= k < NumProducts(t) ==> ins[k] == 0 && outs[k] == 0)
  {
    PairsOf(t);
    var pairs := PlaLines.Collect(RowOutcomes(t)).value;
    assert ToInts(t).value == (Filled(Firsts(pairs), NumProducts(t)), Filled(Seconds(pairs), NumProducts(t)));
    FilledValues(t.inputLines.rows, t.outputLines.rows, pairs, NumProducts(t));
  }

  /** The arrays filled from converted rows hold each row's value, within int64 and writing back as the row, then zeros. */
  lemma FilledValues(rowsI: seq<seq<Trit>>, rowsO: seq<seq<Trit>>, pairs: seq<(int, int)>, n: nat)
    requires |pairs| <= |rowsI| && |pairs| <= |rowsO| && |pairs| <= n
    requires forall k :: 0 <= k < |pairs| ==> RowInts(rowsI[k], rowsO[k]) == Ok(pairs[k])
    ensures var (ins, outs) := (Filled(Firsts(pairs), n), Filled(Seconds(pairs), n));
            (forall k :: 0 <= k < |pairs| ==>
               0 <= ins[k] <= Int64Max && PaddedBin(ins[k], |rowsI[k]|) == Digits(rowsI[k]) &&
               0 <= outs[k] <= Int64Max && PaddedBin(outs[k], |rowsO[k]|) == Digits(rowsO[k])) &&
            (forall k :: |pairs| <= k < n ==> ins[k] == 0 && outs[k] == 0)
  {
    var ins := Filled(Firsts(pairs), n);
    var outs := Filled(Seconds(pairs), n);
    forall k | 0 <= k < |pairs|
      ensures 0 <= ins[k] <= Int64Max && PaddedBin(ins[k], |rowsI[k]|) == Digits(rowsI[k])
      ensures 0 <= outs[k] <= Int64Max && PaddedBin(outs[k], |rowsO[k]|) == Digits(rowsO[k])
    {
      RowIntsRoundTrip(rowsI[k], rowsO[k]);
    }
  }

  /** When nothing fails, every outcome is kept, in order. */
  lemma {:induction false} KeptAll<T>(os: seq<PlaLines.Outcome<T>>)
    requires forall j :: 0 <= j < |os| ==> os[j].Keep?
    ensures |PlaLines.Kept(os)| == |os| && forall j :: 0 <= j < |os| ==> PlaLines.Kept(os)[j] == os[j].item
  {
    if os != [] {
      var n := |os| - 1;
      KeptAll(os[..n]);
      assert os == os[..n] + [os[n]];
      PlaLines.CollectSnoc(os[..n], os[n]);
    }
  }
}
