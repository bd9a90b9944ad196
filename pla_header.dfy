/**
 * The header scan shared by the three PLA readers: every line whose stripped
 * text starts with ".i ", ".o " or ".p " sets the input, output or product
 * count to the integer in its last token, a later directive overriding an
 * earlier one. What each reader then demands of the counts differs and is
 * stated by `Checked` and `Unchecked`.
 */
module PlaHeader {
  import opened Base
  import opened Builtins

  /** The three directives the readers look for. */
  datatype Tag = Inputs | Outputs | Products

  /** The letter after the dot: ".i", ".o" or ".p". */
  function TagLetter(t: Tag): (c: char)
    ensures !IsSpace(c)
  {
    match t
    case Inputs => 'i'
    case Outputs => 'o'
    case Products => 'p'
  }

  /** The counts seen so far; None until the directive has appeared. */
  datatype Header = Header(inputs: Option<int>, outputs: Option<int>, products: Option<int>)

  const Unset := Header(None, None, None)

  /** The stripped line is not blank and its first three characters are a
      dot, the directive's letter and a space. */
  predicate IsDirective(line: string, tag: Tag) {
    var s := Strip(line);
    s != [] && |s| >= 3 && s[0] == '.' && s[1] == TagLetter(tag) && s[2] == ' '
  }

  predicate IsAnyDirective(line: string) {
    IsDirective(line, Inputs) || IsDirective(line, Outputs) || IsDirective(line, Products)
  }

  /** `int(line.strip().split()[-1])`. */
  function DirectiveValue(line: string): (r: Result<int>)
    ensures r.Err? ==> r.error in {ValueError(NotAnInteger), IndexError}
  {
    var tokens := Split(Strip(line));
    if tokens == [] then Err(IndexError) else ParseInt(tokens[|tokens| - 1])
  }

  /** The count a directive sets. */
  function Field(h: Header, tag: Tag): Option<int> {
    match tag
    case Inputs => h.inputs
    case Outputs => h.outputs
    case Products => h.products
  }

  /** What the scan loop makes of one line: a directive with the result of
      `int()` on its last token, or nothing. The tests run in the order
      ".i", ".o", ".p". */
  datatype Kind = Directive(tag: Tag, value: Result<int>) | Other

  function KindOf(line: string): Kind {
    if IsDirective(line, Inputs) then Directive(Inputs, DirectiveValue(line))
    else if IsDirective(line, Outputs) then Directive(Outputs, DirectiveValue(line))
    else if IsDirective(line, Products) then Directive(Products, DirectiveValue(line))
    else Other
  }

  function Kinds(lines: seq<string>): (r: seq<Kind>)
    ensures |r| == |lines|
  {
    seq(|lines|, i requires 0 <= i < |lines| => KindOf(lines[i]))
  }

  /** The header with `tag`'s count overwritten. */
  function Set(h: Header, tag: Tag, v: int): (r: Header)
    ensures Field(r, tag) == Some(v)
    ensures forall other: Tag :: other != tag ==> Field(r, other) == Field(h, other)
  {
    match tag
    case Inputs => h.(inputs := Some(v))
    case Outputs => h.(outputs := Some(v))
    case Products => h.(products := Some(v))
  }

  /** One pass of the scan loop. */
  function Step(h: Header, k: Kind): Result<Header> {
    match k
    case Other => Ok(h)
    case Directive(tag, v) => if v.Err? then Err(v.error) else Ok(Set(h, tag, v.value))
  }

  /** The header after scanning `kinds`, or the first `int()` failure. */
  function ScanKinds(kinds: seq<Kind>): Result<Header> {
    if kinds == [] then Ok(Unset)
    else
      match ScanKinds(kinds[..|kinds| - 1])
      case Err(e) => Err(e)
      case Ok(h) => Step(h, kinds[|kinds| - 1])
  }

  /**
   * The scan of `read_pla_info`: it fails exactly when some directive's last
   * token is not an integer, and otherwise leaves for each count the value of
   * the last directive setting it (None when no line sets it).
   */
  function Scan(lines: seq<string>): (r: Result<Header>)
    ensures r.Err? <==> exists j :: 0 <= j < |lines| && Bad(Kinds(lines)[j])
    ensures r.Ok? ==> forall tag: Tag :: LastWins(Kinds(lines), tag, Field(r.value, tag))
  {
    var r := ScanKinds(Kinds(lines));
    ScanFailure(Kinds(lines));
    if r.Ok? then
      assert forall tag: Tag :: LastWins(Kinds(lines), tag, Field(r.value, tag)) by {
        forall tag: Tag ensures LastWins(Kinds(lines), tag, Field(r.value, tag)) {
          ScanLastWins(Kinds(lines), tag);
        }
      }
      r
    else r
  }

  /** The loop of `read_pla_info` / `read_info`, overwriting its three counters. */
  method ScanHeader(lines: seq<string>) returns (r: Result<Header>)
    ensures r == Scan(lines)
  {
    var inputs: Option<int> := None;
    var outputs: Option<int> := None;
    var products: Option<int> := None;
    ghost var kinds := Kinds(lines);
    for k := 0 to |lines|
      invariant ScanKinds(kinds[..k]) == Ok(Header(inputs, outputs, products))
    {
      ScanPrefix(kinds, k);
      assert kinds[k] == KindOf(lines[k]);
      var line := lines[k];
      if IsDirective(line, Inputs) {
        var v := DirectiveValue(line);
        if v.Err? {
          FailureSticks(kinds, k + 1);
          return Err(v.error);
        }
        inputs := Some(v.value);
      } else if IsDirective(line, Outputs) {
        var v := DirectiveValue(line);
        if v.Err? {
          FailureSticks(kinds, k + 1);
          return Err(v.error);
        }
        outputs := Some(v.value);
      } else if IsDirective(line, Products) {
        var v := DirectiveValue(line);
        if v.Err? {
          FailureSticks(kinds, k + 1);
          return Err(v.error);
        }
        products := Some(v.value);
      }
    }
    assert kinds[..|lines|] == kinds;
    return Ok(Header(inputs, outputs, products));
  }

  /** Scanning one more line of a prefix is one more step. */
  lemma ScanPrefix(kinds: seq<Kind>, k: nat)
    requires k < |kinds|
    ensures ScanKinds(kinds[..k + 1]) == match ScanKinds(kinds[..k])
                                          case Err(e) => Err(e)
                                          case Ok(h) => Step(h, kinds[k])
  {
    assert kinds[..k + 1][..k] == kinds[..k];
  }

  /** Once the scan of a prefix has failed, the whole scan fails the same way. */
  lemma {:induction false} FailureSticks(kinds: seq<Kind>, k: nat)
    requires k <= |kinds| && ScanKinds(kinds[..k]).Err?
    ensures ScanKinds(kinds) == ScanKinds(kinds[..k])
    decreases |kinds| - k
  {
    if k < |kinds| {
      assert kinds[..k + 1][..k] == kinds[..k];
      FailureSticks(kinds, k + 1);
    } else {
      assert kinds[..k] == kinds;
    }
  }

  /** Scanning one more line is one more step. */
  lemma ScanSnoc(front: seq<Kind>, k: Kind)
    ensures ScanKinds(front + [k]) == match ScanKinds(front)
                                     case Err(e) => Err(e)
                                     case Ok(h) => Step(h, k)
  {
    assert (front + [k])[..|front|] == front;
  }

  /** The kind is a directive whose count is not an integer. */
  predicate Bad(k: Kind) {
    k.Directive? && k.value.Err?
  }

  /** The scan fails exactly when some directive's last token is not an
      integer, and then with the error of the first such line. */
  lemma {:induction false} ScanFailure(kinds: seq<Kind>)
    ensures ScanKinds(kinds).Err? <==> exists j :: 0 <= j < |kinds| && Bad(kinds[j])
    ensures ScanKinds(kinds).Err? ==>
              exists j :: 0 <= j < |kinds| && Bad(kinds[j]) && ScanKinds(kinds) == Err(kinds[j].value.error) &&
                          forall i :: 0 <= i < j ==> !Bad(kinds[i])
  {
    if kinds != [] {
      var n := |kinds| - 1;
      var front := kinds[..n];
      ScanFailure(front);
      assert kinds == front + [kinds[n]];
      ScanSnoc(front, kinds[n]);
      assert forall j :: 0 <= j < n ==> kinds[j] == front[j];
      if ScanKinds(front).Err? {
        var j :| 0 <= j < n && Bad(front[j]) && ScanKinds(front) == Err(front[j].value.error) &&
                 forall i :: 0 <= i < j ==> !Bad(front[i]);
        assert Bad(kinds[j]);
      } else if Bad(kinds[n]) {
        assert forall i :: 0 <= i < n ==> !Bad(kinds[i]);
      }
    }
  }

  /** The kind is a directive for `tag`. */
  predicate Sets(k: Kind, tag: Tag) {
    k.Directive? && k.tag == tag
  }

  /**
   * `value` is what a last-wins scan of `kinds` leaves for `tag`: None when
   * no line is a `tag` directive, else the value of the last such line.
   */
  ghost predicate LastWins(kinds: seq<Kind>, tag: Tag, value: Option<int>) {
    if value.None? then
      forall j :: 0 <= j < |kinds| ==> !Sets(kinds[j], tag)
    else
      exists j :: 0 <= j < |kinds| && kinds[j] == Directive(tag, Ok(value.value)) &&
                  forall i :: j < i < |kinds| ==> !Sets(kinds[i], tag)
  }

  /** After a successful scan each count is the value of the last directive
      setting it, and None when no line sets it. */
  lemma {:induction false} ScanLastWins(kinds: seq<Kind>, tag: Tag)
    requires ScanKinds(kinds).Ok?
    ensures LastWins(kinds, tag, Field(ScanKinds(kinds).value, tag))
  {
    if kinds != [] {
      var n := |kinds| - 1;
      var front := kinds[..n];
      var k := kinds[n];
      assert kinds == front + [k];
      ScanSnoc(front, k);
      ScanLastWins(front, tag);
      var h := ScanKinds(front).value;
      var v := Field(ScanKinds(kinds).value, tag);
      assert forall j :: 0 <= j < n ==> kinds[j] == front[j];
      if Sets(k, tag) {
        assert v == Some(k.value.value);
        assert kinds[n] == Directive(tag, Ok(v.value));
      } else {
        assert v == Field(h, tag);
        if v.Some? {
          var j :| 0 <= j < n && front[j] == Directive(tag, Ok(v.value)) &&
                   forall i :: j < i < n ==> !Sets(front[i], tag);
          assert kinds[j] == Directive(tag, Ok(v.value));
        }
      }
    }
  }

  /** Each of the three counts of a successful scan is the last value set for it. */
  lemma ScanCounts(kinds: seq<Kind>)
    requires ScanKinds(kinds).Ok?
    ensures LastWins(kinds, Inputs, ScanKinds(kinds).value.inputs)
    ensures LastWins(kinds, Outputs, ScanKinds(kinds).value.outputs)
    ensures LastWins(kinds, Products, ScanKinds(kinds).value.products)
  {
    ScanLastWins(kinds, Inputs);
    ScanLastWins(kinds, Outputs);
    ScanLastWins(kinds, Products);
  }

  /** A count no line sets stays unset. */
  lemma NeverSet(kinds: seq<Kind>, tag: Tag)
    requires ScanKinds(kinds).Ok? && LastWins(kinds, tag, None)
    ensures Field(ScanKinds(kinds).value, tag) == None
  {
    ScanLastWins(kinds, tag);
  }

  // ---------------------------------------------------------------- checks

  /**
   * What `truthtables` `read_pla_info` and `tt.utils.pla.read_pla_info`
   * demand of the counts, in order inputs, outputs, products: an absent one
   * is read before assignment (UnboundLocalError), a zero one is rejected.
   */
  function Checked(h: Header): (r: Result<(int, int, int)>)
    ensures r.Ok? <==> h.inputs.Some? && h.inputs.value != 0 && h.outputs.Some? && h.outputs.value != 0
                       && h.products.Some? && h.products.value != 0
    ensures r.Ok? ==> r.value == (h.inputs.value, h.outputs.value, h.products.value)
    ensures h.inputs.None? ==> r == Err(UnboundLocal)
    ensures h.inputs == Some(0) ==> r == Err(PlaParsing(NoInputs, None))
    ensures h.inputs.Some? && h.inputs.value != 0 && h.outputs.None? ==> r == Err(UnboundLocal)
    ensures h.inputs.Some? && h.inputs.value != 0 && h.outputs == Some(0) ==> r == Err(PlaParsing(NoOutputs, None))
    ensures h.inputs.Some? && h.inputs.value != 0 && h.outputs.Some? && h.outputs.value != 0 && h.products.None? ==>
              r == Err(UnboundLocal)
    ensures h.inputs.Some? && h.inputs.value != 0 && h.outputs.Some? && h.outputs.value != 0 && h.products == Some(0) ==>
              r == Err(PlaParsing(NoProducts, None))
  {
    if h.inputs.None? then Err(UnboundLocal)
    else if h.inputs.value == 0 then Err(PlaParsing(NoInputs, None))
    else if h.outputs.None? then Err(UnboundLocal)
    else if h.outputs.value == 0 then Err(PlaParsing(NoOutputs, None))
    else if h.products.None? then Err(UnboundLocal)
    else if h.products.value == 0 then Err(PlaParsing(NoProducts, None))
    else Ok((h.inputs.value, h.outputs.value, h.products.value))
  }

  /** What `tt.utils.pla_utils.read_info` demands: only that each count was
      seen (returning them reads all three); zero is accepted. */
  function Unchecked(h: Header): (r: Result<(int, int, int)>)
    ensures r.Ok? <==> h.inputs.Some? && h.outputs.Some? && h.products.Some?
    ensures r.Ok? ==> r.value == (h.inputs.value, h.outputs.value, h.products.value)
    ensures r.Err? ==> r.error == UnboundLocal
  {
    if h.inputs.Some? && h.outputs.Some? && h.products.Some? then
      Ok((h.inputs.value, h.outputs.value, h.products.value))
    else Err(UnboundLocal)
  }

  // ---------------------------------------------------------------- written headers

  /** The directive line a writer emits for a count. */
  function DirectiveText(tag: Tag, n: nat): string {
    ['.', TagLetter(tag)] + " " + NatToString(n)
  }

  /** A directive line holds no line break. */
  lemma DirectiveNoLineBreak(tag: Tag, n: nat)
    ensures NoLineBreak(DirectiveText(tag, n))
  {
  }

  /** What the writer emits, the scan reads back as that count. */
  lemma DirectiveLine(tag: Tag, n: nat)
    ensures KindOf(DirectiveText(tag, n)) == Directive(tag, Ok(n))
  {
    var line := DirectiveText(tag, n);
    DirectiveTextStrips(tag, n);
    assert Strip(line)[..3] == ['.', TagLetter(tag), ' '];
    assert DirectiveValue(line) == Ok(n) by {
      DirectiveTextSplits(tag, n);
      ParseNatToString(n);
    }
    KindOfDirective(line, tag);
  }

  /** A stripped line that starts with a tag's directive is read as that directive. */
  lemma KindOfDirective(line: string, tag: Tag)
    requires |Strip(line)| >= 3 && Strip(line)[..3] == ['.', TagLetter(tag), ' ']
    ensures KindOf(line) == Directive(tag, DirectiveValue(line))
  {
    var s := Strip(line);
    assert s[0] == '.' && s[1] == TagLetter(tag) && s[2] == ' ' by {
      assert s[0] == s[..3][0] && s[1] == s[..3][1] && s[2] == s[..3][2];
    }
    match tag
    case Inputs =>
      assert IsDirective(line, Inputs);
    case Outputs =>
      assert !IsDirective(line, Inputs) && IsDirective(line, Outputs);
    case Products =>
      assert !IsDirective(line, Inputs) && !IsDirective(line, Outputs) && IsDirective(line, Products);
  }

  /** A directive line has no surrounding blanks. */
  lemma DirectiveTextStrips(tag: Tag, n: nat)
    ensures Strip(DirectiveText(tag, n)) == DirectiveText(tag, n)
  {
    var digits := NatToString(n);
    var line := DirectiveText(tag, n);
    assert line[|line| - 1] == digits[|digits| - 1];
    StripKeeps(line);
  }

  /** A directive line splits into its name and its count. */
  lemma DirectiveTextSplits(tag: Tag, n: nat)
    ensures Split(DirectiveText(tag, n)) == [['.', TagLetter(tag)], NatToString(n)]
  {
    SplitTwo(['.', TagLetter(tag)], NatToString(n));
  }

  /** A line that starts with a non-space character other than '.' is no directive. */
  lemma NotDirectiveFirst(line: string)
    requires line != [] && !IsSpace(line[0]) && line[0] != '.'
    ensures KindOf(line) == Other
  {
    StripPrefix(line, 0);
  }

  /** A line that starts with '.' and a non-space character that is not a
      directive letter is no directive. */
  lemma NotDirectiveSecond(line: string)
    requires |line| >= 2 && line[0] == '.' && !IsSpace(line[1])
    requires line[1] !in {'i', 'o', 'p'}
    ensures KindOf(line) == Other
  {
    StripPrefix(line, 1);
  }

  /** A line that starts with '.', a letter and a non-space character is no directive. */
  lemma NotDirectiveThird(line: string)
    requires |line| >= 3 && line[0] == '.' && !IsSpace(line[1]) && !IsSpace(line[2])
    ensures KindOf(line) == Other
  {
    StripPrefix(line, 2);
  }

  predicate AllOther(kinds: seq<Kind>) {
    forall j :: 0 <= j < |kinds| ==> kinds[j] == Other
  }

  /** Lines that set no count leave the scan where it was. */
  lemma {:induction false} ScanSkips(front: seq<Kind>, rest: seq<Kind>)
    requires AllOther(rest)
    ensures ScanKinds(front + rest) == ScanKinds(front)
  {
    if rest != [] {
      var n := |rest| - 1;
      assert front + rest == (front + rest[..n]) + [rest[n]];
      ScanSnoc(front + rest[..n], rest[n]);
      ScanSkips(front, rest[..n]);
    } else {
      assert front + rest == front;
    }
  }
}
