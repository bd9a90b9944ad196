/**
 * `read_pla_info` and `read_pla` of the `truthtables` package: the header
 * counts, then the cube lines as two lists of strings, the input sections
 * and the output sections, checked against the header.
 */
module PlaReader {
  import opened Base
  import opened Builtins
  import opened PlaHeader
  import opened PlaLines

  /** `read_pla_info`: the counts of the header, each of them present and nonzero. */
  function Info(lines: seq<string>): (r: Result<(int, int, int)>)
    ensures Scan(lines).Err? ==> r == Err(Scan(lines).error)
    ensures r.Ok? ==> Scan(lines).Ok? && r.value.0 != 0 && r.value.1 != 0 && r.value.2 != 0 &&
                      Scan(lines).value == Header(Some(r.value.0), Some(r.value.1), Some(r.value.2))
  {
    match Scan(lines)
    case Err(e) => Err(e)
    case Ok(h) => Checked(h)
  }

  method ReadPlaInfo(lines: seq<string>) returns (r: Result<(int, int, int)>)
    ensures r == Info(lines)
  {
    var h := ScanHeader(lines);
    if h.Err? {
      return Err(h.error);
    }
    r := Checked(h.value);
  }

  /**
   * What `read_pla_info` returns: for each count, the value of the last
   * directive setting it, which must exist and be nonzero; a file without
   * an `.i` directive fails with an unbound variable, and a directive whose
   * count is not an integer fails the whole read.
   */
  lemma InfoMeaning(lines: seq<string>)
    ensures Info(lines).Ok? ==>
              LastWins(Kinds(lines), Inputs, Some(Info(lines).value.0)) && Info(lines).value.0 != 0 &&
              LastWins(Kinds(lines), Outputs, Some(Info(lines).value.1)) && Info(lines).value.1 != 0 &&
              LastWins(Kinds(lines), Products, Some(Info(lines).value.2)) && Info(lines).value.2 != 0
    ensures Scan(lines).Ok? && LastWins(Kinds(lines), Inputs, None) ==> Info(lines) == Err(UnboundLocal)
    ensures (exists j :: 0 <= j < |lines| && Bad(Kinds(lines)[j])) ==> Info(lines).Err?
  {
    var kinds := Kinds(lines);
    if Info(lines).Ok? {
      var h := Scan(lines).value;
      assert Info(lines).value == (h.inputs.value, h.outputs.value, h.products.value);
      ScanCounts(kinds);
    }
    if Scan(lines).Ok? && LastWins(kinds, Inputs, None) {
      NeverSet(kinds, Inputs);
    }
    if exists j :: 0 <= j < |lines| && Bad(kinds[j]) {
      ScanFailure(kinds);
    }
  }

  // ---------------------------------------------------------------- body

  /** One pass of `read_pla`'s body loop over the line at position `idx`,
      given its sections when it is a cube line. */
  function LineOutcome(idx: nat, sections: Option<seq<string>>, ni: int, no: int): Outcome<(string, string)> {
    match sections
    case None => Skip
    case Some(s) =>
      match CheckSections(idx, s, ni, no)
      case Err(e) => Fail(e)
      case Ok(p) => Keep(p)
  }

  function Outcomes(cs: seq<Option<seq<string>>>, ni: int, no: int): (r: seq<Outcome<(string, string)>>)
    ensures |r| == |cs|
  {
    seq(|cs|, j requires 0 <= j < |cs| => LineOutcome(j, cs[j], ni, no))
  }

  /** The two lists `read_pla` builds from the pairs of sections. */
  function Unzip(pairs: seq<(string, string)>): (seq<string>, seq<string>) {
    (seq(|pairs|, t requires 0 <= t < |pairs| => pairs[t].0), seq(|pairs|, t requires 0 <= t < |pairs| => pairs[t].1))
  }

  /** `read_pla`: the header, then the cube lines, then the product count. */
  function Read(lines: seq<string>): (r: Result<(seq<string>, seq<string>)>)
    ensures Info(lines).Err? ==> r == Err(Info(lines).error)
    ensures r.Ok? ==> Info(lines).Ok? && |r.value.0| == Info(lines).value.2 && |r.value.1| == Info(lines).value.2
  {
    match Info(lines)
    case Err(e) => Err(e)
    case Ok(info) =>
      match Collect(Outcomes(AllSections(lines), info.0, info.1))
      case Err(e) => Err(e)
      case Ok(pairs) =>
        if |pairs| != info.2 then Err(PlaParsing(ProductCount, None)) else Ok(Unzip(pairs))
  }

  method ReadPla(lines: seq<string>) returns (r: Result<(seq<string>, seq<string>)>)
    ensures r == Read(lines)
  {
    var info := ReadPlaInfo(lines);
    if info.Err? {
      return Err(info.error);
    }
    var (ni, no, np) := info.value;
    var body := ReadBody(lines, ni, no);
    if body.Err? {
      return Err(body.error);
    }
    var (inputs, outputs) := body.value;
    if |inputs| != np {
      return Err(PlaParsing(ProductCount, None));
    }
    return Ok((inputs, outputs));
  }

  /** The loop of `read_pla` over the lines, appending the sections of each cube line. */
  method ReadBody(lines: seq<string>, ni: int, no: int) returns (r: Result<(seq<string>, seq<string>)>)
    ensures r == match Collect(Outcomes(AllSections(lines), ni, no))
                 case Err(e) => Err(e)
                 case Ok(pairs) => Ok(Unzip(pairs))
    ensures r.Ok? ==> |r.value.0| == |Collect(Outcomes(AllSections(lines), ni, no)).value|
  {
    var inputs: seq<string> := [];
    var outputs: seq<string> := [];
    ghost var outs := Outcomes(AllSections(lines), ni, no);
    ghost var pairs: seq<(string, string)> := [];
    for idx := 0 to |lines|
      invariant Collect(outs[..idx]) == Ok(pairs)
      invariant |inputs| == |pairs| && |outputs| == |pairs|
      invariant forall t :: 0 <= t < |pairs| ==> pairs[t] == (inputs[t], outputs[t])
    {
      CollectPrefix(outs, idx);
      var o := ReadLine(idx, lines[idx], ni, no);
      assert outs[idx] == o;
      if o.Fail? {
        CollectFailureSticks(outs, idx + 1);
        return Err(o.error);
      } else if o.Keep? {
        inputs := inputs + [o.item.0];
        outputs := outputs + [o.item.1];
        pairs := pairs + [o.item];
      }
    }
    assert outs[..|lines|] == outs;
    UnzipOf(pairs, inputs, outputs);
    return Ok((inputs, outputs));
  }

  lemma UnzipOf(pairs: seq<(string, string)>, firsts: seq<string>, seconds: seq<string>)
    requires |firsts| == |pairs| && |seconds| == |pairs|
    requires forall t :: 0 <= t < |pairs| ==> pairs[t] == (firsts[t], seconds[t])
    ensures Unzip(pairs) == (firsts, seconds)
  {
    assert Unzip(pairs).0 == firsts;
    assert Unzip(pairs).1 == seconds;
  }

  /** The body of `read_pla`'s loop for the line at position `idx`. */
  method ReadLine(idx: nat, raw: string, ni: int, no: int) returns (r: Outcome<(string, string)>)
    ensures r == LineOutcome(idx, CubeSections(raw), ni, no)
  {
    var line := Strip(raw);
    if line != [] && line[0] in {'1', '0', '-'} {
      var sections := Split(line);
      if |sections| != 2 {
        return Fail(PlaParsing(Sections(|sections|), Some(idx)));
      }
      var i, o := sections[0], sections[1];
      if |i| != ni {
        return Fail(PlaParsing(InputWidth, Some(idx)));
      }
      if |o| != no {
        return Fail(PlaParsing(OutputWidth, Some(idx)));
      }
      return Keep((i, o));
    }
    return Skip;
  }

  /** A line written as two sections of the announced widths, separated by a
      blank, is a cube line whose sections the loop keeps. */
  lemma WrittenCube(idx: nat, a: string, b: string, ni: int, no: int)
    requires a != [] && NoSpace(a) && a[0] in {'1', '0', '-'} && |a| == ni
    requires b != [] && NoSpace(b) && |b| == no
    ensures LineOutcome(idx, CubeSections(a + " " + b), ni, no) == Keep((a, b))
  {
    StripKeeps(a + " " + b);
    SplitTwo(a, b);
  }

  // ---------------------------------------------------------------- meaning

  /** When no cube line fails its checks, the loop keeps one pair of sections
      per cube line, in file order, each of the announced widths. */
  lemma {:induction false} KeptCubes(cs: seq<Option<seq<string>>>, ni: int, no: int)
    requires forall j :: 0 <= j < |cs| ==> !Outcomes(cs, ni, no)[j].Fail?
    ensures |Kept(Outcomes(cs, ni, no))| == |Present(cs)|
    ensures forall t :: 0 <= t < |Present(cs)| ==>
              var p := Kept(Outcomes(cs, ni, no))[t];
              Present(cs)[t] == [p.0, p.1] && |p.0| == ni && |p.1| == no
  {
    if cs != [] {
      var n := |cs| - 1;
      var outs := Outcomes(cs, ni, no);
      var front := Outcomes(cs[..n], ni, no);
      assert front == outs[..n];
      KeptCubes(cs[..n], ni, no);
      assert outs == front + [outs[n]];
      CollectSnoc(front, outs[n]);
    }
  }

  /**
   * A successful `read_pla` returns one input section and one output section
   * per cube line of the file, in file order: the two sections the line
   * splits into, of the widths the header announced; their number is the
   * announced product count.
   */
  lemma ReadMeaning(lines: seq<string>)
    requires Read(lines).Ok?
    ensures var (ni, no, np) := Info(lines).value;
            var (ins, outs) := Read(lines).value;
            var cubes := Present(AllSections(lines));
            |ins| == np && |outs| == np && |cubes| == np &&
            forall t :: 0 <= t < np ==> cubes[t] == [ins[t], outs[t]] && |ins[t]| == ni && |outs[t]| == no
  {
    var (ni, no, np) := Info(lines).value;
    var os := Outcomes(AllSections(lines), ni, no);
    CollectMeaning(os);
    KeptCubes(AllSections(lines), ni, no);
  }

  /**
   * After a good header, `read_pla` fails exactly when some cube line fails
   * its checks, with the error of the first such line, or when the number of
   * cube lines differs from the announced product count.
   */
  lemma ReadFailure(lines: seq<string>)
    requires Info(lines).Ok?
    ensures var (ni, no, np) := Info(lines).value;
            var os := Outcomes(AllSections(lines), ni, no);
            (Read(lines).Ok? <==> (forall j :: 0 <= j < |os| ==> !os[j].Fail?) && |Present(AllSections(lines))| == np) &&
            ((exists j :: 0 <= j < |os| && os[j].Fail?) ==>
               exists j :: 0 <= j < |os| && os[j].Fail? && Read(lines) == Err(os[j].error) &&
                           forall i :: 0 <= i < j ==> !os[i].Fail?)
  {
    var (ni, no, np) := Info(lines).value;
    var os := Outcomes(AllSections(lines), ni, no);
    CollectMeaning(os);
    if forall j :: 0 <= j < |os| ==> !os[j].Fail? {
      KeptCubes(AllSections(lines), ni, no);
    }
  }
}
