/**
 * The dense truth table of the `truthtables` package: one output bit string
 * per input combination, row `k` holding the outputs for the inputs spelled
 * by the binary digits of `k`, most significant first.
 */
module DenseTables {
  import opened Base
  import opened Builtins
  import opened Binary
  import opened Literals

  datatype TruthTable = TruthTable(rows: seq<string>, inputs: seq<string>, outputs: seq<string>, name: string)

  ghost predicate IsPow2(n: nat) {
    exists k: nat :: Pow2(k) == n
  }

  /** What a constructed table guarantees: one row per input combination. */
  predicate Valid(t: TruthTable) {
    Pow2(|t.inputs|) == |t.rows|
  }

  lemma {:induction false} Pow2Injective(a: nat, b: nat)
    ensures Pow2(a) == Pow2(b) ==> a == b
  {
    if a != 0 && b != 0 {
      Pow2Injective(a - 1, b - 1);
    }
  }

  /**
   * `TruthTable(rows, inputs, outputs, name)`. An empty label list stands for
   * an absent one (Python tests both with `if inputs:`) and is replaced by the
   * default labels; explicit labels must match the shape of `rows`. The
   * power-of-two test uses the exact logarithm where the source rounds
   * `math.log(len(rows), 2)` as a float.
   */
  function NewTruthTable(rows: seq<string>, inputs: seq<string>, outputs: seq<string>, name: string): (r: Result<TruthTable>)
    ensures rows == [] ==> r == Err(ValueError(MathDomain))
    ensures rows != [] && !IsPow2(|rows|) ==> r == Err(ValueError(NotPowerOfTwo))
    ensures r.Ok? <==> IsPow2(|rows|)
                       && (inputs == [] || Pow2(|inputs|) == |rows|)
                       && (outputs == [] || |outputs| == |rows[0]|)
    ensures r.Ok? ==> Valid(r.value) && r.value.rows == rows && r.value.name == name
    ensures r.Ok? ==> |r.value.outputs| == |rows[0]|
    ensures r.Ok? && inputs != [] ==> r.value.inputs == inputs
    ensures r.Ok? && inputs == [] ==> r.value.inputs == DefaultLabels("i", |r.value.inputs|)
    ensures r.Ok? ==> r.value.outputs == if outputs == [] then DefaultLabels("o", |rows[0]|) else outputs
  {
    if rows == [] then Err(ValueError(MathDomain))
    else
      match Log2(|rows|)
      case None => Err(ValueError(NotPowerOfTwo))
      case Some(n) =>
        if inputs != [] && n != |inputs| then
          Pow2Injective(n, |inputs|); Err(ValueError(InputLabelCount))
        else
          var ins := if inputs != [] then inputs else DefaultLabels("i", n);
          var m := |rows[0]|;
          if outputs != [] && m != |outputs| then Err(ValueError(OutputLabelCount))
          else Ok(TruthTable(rows, ins, if outputs != [] then outputs else DefaultLabels("o", m), name))
  }

  /**
   * `input_str(k)`: `bin(k)[2:]` padded with '0' to the input count. For a
   * negative `k`, `bin` gives a leading '-' and slicing off two characters
   * leaves a string such as "b1"; every caller here passes a row index, so
   * `k` is a natural number.
   */
  function InputStr(t: TruthTable, k: nat): (s: string)
    ensures IsBinary(s) && BitsValue(s) == k
    ensures |s| == |t.inputs| <==> |t.inputs| >= 1 && k < Pow2(|t.inputs|)
    ensures |s| >= |t.inputs|
  {
    PaddedBin(k, |t.inputs|)
  }

  /** Every assignment of the inputs is the label of exactly one row. */
  lemma InputStrBijective(t: TruthTable, x: string)
    requires Valid(t) && |t.inputs| >= 1
    requires IsBinary(x) && |x| == |t.inputs|
    ensures BitsValue(x) < |t.rows| && InputStr(t, BitsValue(x)) == x
    ensures forall k: nat :: k < |t.rows| && InputStr(t, k) == x ==> k == BitsValue(x)
  {
    BitsValueBound(x);
    PaddedBinOfValue(x, |t.inputs|);
  }

  // ---------------------------------------------------------------- onset

  /**
   * The positions `k`, ascending, at which `lines[k]` has '1' in column
   * `col`; an IndexError when some line is too short to have that column.
   */
  function ColumnOnes(lines: seq<string>, col: nat): (r: Result<seq<nat>>)
    ensures r.Err? <==> exists k :: 0 <= k < |lines| && |lines[k]| <= col
    ensures r.Err? ==> r.error == IndexError
    ensures r.Ok? ==> forall k: nat :: k in r.value <==> k < |lines| && lines[k][col] == '1'
    ensures r.Ok? ==> forall a, b :: 0 <= a < b < |r.value| ==> r.value[a] < r.value[b]
  {
    if lines == [] then Ok([])
    else
      var n := |lines| - 1;
      var front := lines[..n];
      var p := ColumnOnes(front, col);
      assert forall k :: 0 <= k < n ==> lines[k] == front[k];
      if p.Err? then p
      else if |lines[n]| <= col then Err(IndexError)
      else
        var last: seq<nat> := if lines[n][col] == '1' then [n] else [];
        assert forall j :: 0 <= j < |p.value| ==> p.value[j] < n by {
          forall j | 0 <= j < |p.value| ensures p.value[j] < n {
            assert p.value[j] in p.value;
          }
        }
        Ok(p.value + last)
  }

  /** `onset(o)`: the rows whose output `o` is '1', in order. */
  function Onset(t: TruthTable, o: string): (r: Result<seq<nat>>)
    ensures o !in t.outputs ==> r == Err(ValueError(UnknownLabel))
    ensures r.Ok? ==> o in t.outputs
    ensures r.Ok? ==>
              var c := IndexOf(t.outputs, o).value;
              (forall k :: 0 <= k < |t.rows| ==> c < |t.rows[k]|) &&
              (forall k: nat :: k in r.value <==> k < |t.rows| && t.rows[k][c] == '1')
    ensures r.Ok? ==> forall a, b :: 0 <= a < b < |r.value| ==> r.value[a] < r.value[b]
  {
    match IndexOf(t.outputs, o)
    case None => Err(ValueError(UnknownLabel))
    case Some(c) => ColumnOnes(t.rows, c)
  }

  // ---------------------------------------------------------------- products

  /** `input_product(k)`: the minterm of row `k` over the input labels; an
      IndexError when the row label is longer than the label list. */
  function DenseProduct(t: TruthTable, k: nat): (r: Result<string>)
    ensures r.Ok? <==> |t.inputs| >= 1 && k < Pow2(|t.inputs|)
    ensures r.Err? ==> r.error == IndexError
  {
    var bits := InputStr(t, k);
    if |bits| <= |t.inputs| then
      MintermLabelled(bits, t.inputs);
      Ok(ProductText(Minterm(bits), t.inputs))
    else Err(IndexError)
  }

  /** `input_product(k)`: the row label of `k`, rendered by the loop below. */
  method InputProduct(t: TruthTable, k: nat) returns (r: Result<string>)
    ensures r == DenseProduct(t, k)
  {
    var bits := InputStr(t, k);
    r := MintermProduct(bits, t.inputs);
  }

  /** The loop of `input_product`: one literal per character of `bits`,
      negated at '0'; an IndexError once `bits` outruns the labels. */
  method MintermProduct(bits: string, labels: seq<string>) returns (r: Result<string>)
    ensures r == if |bits| <= |labels| then Ok(ProductText(Minterm(bits), labels)) else Err(IndexError)
  {
    var terms: seq<string> := [];
    var i := 0;
    while i < |bits|
      invariant 0 <= i <= |bits| && i <= |labels|
      invariant |terms| == i
      invariant forall j :: 0 <= j < i ==> terms[j] == LitText(Lit(j, bits[j] != '0'), labels)
    {
      if i >= |labels| {
        return Err(IndexError);
      }
      if bits[i] == '0' {
        terms := terms + ["~" + labels[i]];
      } else {
        terms := terms + [labels[i]];
      }
      i := i + 1;
    }
    assert terms == LitTexts(Minterm(bits), labels);
    return Ok(Join(" & ", terms));
  }

  /**
   * Row `k`'s product has one literal per input, in input order, negated
   * exactly where bit `i` of `k` is 0, and is true under exactly the
   * assignment of row `k`.
   */
  lemma DenseProductMeaning(t: TruthTable, k: nat)
    requires |t.inputs| >= 1 && k < Pow2(|t.inputs|)
    ensures DenseProduct(t, k) == Ok(ProductText(Minterm(InputStr(t, k)), t.inputs))
    ensures |Minterm(InputStr(t, k))| == |t.inputs|
    ensures forall i :: 0 <= i < |t.inputs| ==>
              LitText(Minterm(InputStr(t, k))[i], t.inputs)
                == if InputStr(t, k)[i] == '0' then "~" + t.inputs[i] else t.inputs[i]
    ensures forall x :: IsBinary(x) && |x| == |t.inputs| ==>
              (HoldsAll(Minterm(InputStr(t, k)), x) <==> BitsValue(x) == k)
  {
    var bits := InputStr(t, k);
    forall x | IsBinary(x) && |x| == |t.inputs|
      ensures HoldsAll(Minterm(bits), x) <==> BitsValue(x) == k
    {
      MintermHolds(bits, x);
      if BitsValue(x) == k {
        BitsInjective(x, bits);
      }
    }
  }

  /**
   * The product `input_product` evidently intends: the minterm of row `k`,
   * which for a table without inputs is the empty product of its one row.
   * The source pads `bin(0)[2:]`, which is "0" rather than "", so its loop
   * reads a label that does not exist (see `ConstantTableProduct`).
   */
  function IntendedProduct(t: TruthTable, k: nat): (r: Result<string>)
    ensures r.Ok? <==> k < Pow2(|t.inputs|)
    ensures r.Err? ==> r.error == IndexError
  {
    var bits := if |t.inputs| == 0 && k == 0 then "" else InputStr(t, k);
    if |bits| <= |t.inputs| then
      MintermLabelled(bits, t.inputs);
      Ok(ProductText(Minterm(bits), t.inputs))
    else Err(IndexError)
  }

  /** Every row of a valid table has an intended product, with or without inputs. */
  lemma IntendedProductRows(t: TruthTable)
    requires Valid(t)
    ensures forall k :: 0 <= k < |t.rows| ==> IntendedProduct(t, k).Ok?
  {
  }

  /** With at least one input the intended product is the source's. */
  lemma IntendedAgrees(t: TruthTable, k: nat)
    requires |t.inputs| >= 1
    ensures IntendedProduct(t, k) == DenseProduct(t, k)
  {
  }

  // ---------------------------------------------------------------- examples

  /**
   * A one-row table is accepted with no inputs, and the product of its only
   * row fails with IndexError: `bin(0)[2:].zfill(0)` is "0", one digit more
   * than there are input labels.
   */
  lemma ConstantTableProduct()
    ensures NewTruthTable(["1"], [], [], "ckt") == Ok(TruthTable(["1"], [], ["o0"], "ckt"))
    ensures DenseProduct(TruthTable(["1"], [], ["o0"], "ckt"), 0) == Err(IndexError)
    ensures IntendedProduct(TruthTable(["1"], [], ["o0"], "ckt"), 0) == Ok("")
  {
    assert Pow2(0) == 1;
    assert Log2(1) == Some(0);
    assert DigitChar(0) == '0' && NatToString(0) == "0" && "o" + "0" == "o0";
    assert DefaultLabels("o", 1) == ["o0"];
    assert DefaultLabels("i", 0) == [];
    assert Minterm("") == [];
    assert LitTexts([], []) == [];
  }

  /** The two-input counting table, built with default labels. */
  lemma CountingTableExample()
    ensures NewTruthTable(["00", "01", "10", "11"], [], [], "ckt")
            == Ok(TruthTable(["00", "01", "10", "11"], ["i0", "i1"], ["o0", "o1"], "ckt"))
  {
    assert Pow2(2) == 4;
    assert Log2(4) == Some(2);
    assert DigitChar(0) == '0' && DigitChar(1) == '1';
    assert NatToString(0) == "0" && NatToString(1) == "1";
    assert "i" + "0" == "i0" && "i" + "1" == "i1" && "o" + "0" == "o0" && "o" + "1" == "o1";
    assert DefaultLabels("i", 2) == ["i0", "i1"];
    assert DefaultLabels("o", 2) == ["o0", "o1"];
  }
}
