/**
 * The PLA files the writers produce, as the readers see them: header lines
 * in which only `.i`, `.o` and `.p` set a count, then one line per product
 * written as its input section, a blank and its output section, then a
 * closing line. These facts are shared by the round trips of the three
 * writers.
 */
module WrittenPla {
  import opened Base
  import opened Builtins
  import opened PlaHeader
  import opened PlaLines
  import PlaReader

  /** `"{} {}".format(i, o)`: one product line as the writers put it. */
  function CubeLine(item: (string, string)): string {
    item.0 + " " + item.1
  }

  function CubeLines(items: seq<(string, string)>): (r: seq<string>)
    ensures |r| == |items|
  {
    seq(|items|, k requires 0 <= k < |items| => CubeLine(items[k]))
  }

  /** A product the readers take back as written: two blank-free sections of
      the announced widths, the input one starting like a cube line. */
  predicate Writable(item: (string, string), ni: int, no: int) {
    item.0 != [] && NoSpace(item.0) && item.0[0] in {'1', '0', '-'} && |item.0| == ni &&
    item.1 != [] && NoSpace(item.1) && |item.1| == no
  }

  /** A line that starts with a visible character no cube line starts with. */
  predicate Plain(line: string) {
    line != [] && !IsSpace(line[0]) && line[0] !in {'1', '0', '-'}
  }

  /** Every line the writers emit is free of line breaks. */
  lemma CubeLinesNoLineBreak(items: seq<(string, string)>)
    requires forall k :: 0 <= k < |items| ==> NoSpace(items[k].0) && NoSpace(items[k].1)
    ensures forall k :: 0 <= k < |items| ==> NoLineBreak(CubeLines(items)[k])
  {
    assert '\n' in Whitespace && '\r' in Whitespace;
  }

  /** A line whose first characters rule out `.i `, `.o ` and `.p ` after stripping. */
  predicate NoDirective(line: string) {
    line != [] && !IsSpace(line[0]) &&
    (line[0] != '.' ||
     (|line| >= 2 && !IsSpace(line[1]) && (line[1] !in {'i', 'o', 'p'} || (|line| >= 3 && !IsSpace(line[2])))))
  }

  /** Such a line sets no count. */
  lemma NoDirectiveAt(lines: seq<string>, j: nat)
    requires j < |lines| && NoDirective(lines[j])
    ensures Kinds(lines)[j] == Other
  {
    var line := lines[j];
    if line[0] != '.' {
      NotDirectiveFirst(line);
    } else if line[1] !in {'i', 'o', 'p'} {
      NotDirectiveSecond(line);
    } else {
      NotDirectiveThird(line);
    }
  }

  /** A directive line a writer emits sets its count. */
  lemma DirectiveAt(lines: seq<string>, j: nat, tag: Tag, n: nat)
    requires j < |lines| && lines[j] == DirectiveText(tag, n)
    ensures Kinds(lines)[j] == Directive(tag, Ok(n))
  {
    DirectiveLine(tag, n);
  }

  /** The product lines sit after the header lines, in order. */
  lemma CubeLineAt(head: seq<string>, items: seq<(string, string)>, tail: seq<string>, k: nat)
    requires k < |items|
    ensures (head + CubeLines(items) + tail)[|head| + k] == CubeLine(items[k])
  {
    assert CubeLines(items)[k] == CubeLine(items[k]);
  }

  /** A product line sets no count. */
  lemma CubeKind(lines: seq<string>, j: nat, item: (string, string), ni: int, no: int)
    requires j < |lines| && lines[j] == CubeLine(item) && Writable(item, ni, no)
    ensures Kinds(lines)[j] == Other
  {
    NoDirectiveAt(lines, j);
  }

  lemma CubeKinds(head: seq<string>, items: seq<(string, string)>, tail: seq<string>, ni: int, no: int)
    requires forall k :: 0 <= k < |items| ==> Writable(items[k], ni, no)
    ensures forall j :: |head| <= j < |head| + |items| ==> Kinds(head + CubeLines(items) + tail)[j] == Other
  {
    var lines := head + CubeLines(items) + tail;
    forall j | |head| <= j < |head| + |items| ensures Kinds(lines)[j] == Other {
      CubeLineAt(head, items, tail, j - |head|);
      CubeKind(lines, j, items[j - |head|], ni, no);
    }
  }

  /**
   * A written header: a first line, `.i`, `.o`, `m` lines, then `.p`, where
   * only the three directives set a count, and nothing after them does
   * either; the scan reads back the written counts.
   */
  lemma HeaderKinds(ks: seq<Kind>, m: nat, ni: nat, no: nat, np: nat)
    requires |ks| >= m + 4
    requires ks[0] == Other && ks[1] == Directive(Inputs, Ok(ni)) && ks[2] == Directive(Outputs, Ok(no))
    requires ks[m + 3] == Directive(Products, Ok(np))
    requires forall j :: 3 <= j < m + 3 ==> ks[j] == Other
    requires forall j :: m + 4 <= j < |ks| ==> ks[j] == Other
    ensures ScanKinds(ks) == Ok(Header(Some(ni), Some(no), Some(np)))
  {
    assert ks[..0] == [];
    ScanPrefix(ks, 0);
    ScanPrefix(ks, 1);
    ScanPrefix(ks, 2);
    var afterO := Header(Some(ni), Some(no), None);
    assert ScanKinds(ks[..3]) == Ok(afterO);
    SkipRun(ks, 3, m + 3, afterO);
    ScanPrefix(ks, m + 3);
    SkipRun(ks, m + 4, |ks|, Header(Some(ni), Some(no), Some(np)));
    assert ks[..|ks|] == ks;
  }

  /** A run of kinds that set no count leaves the scan where it was. */
  lemma SkipRun(ks: seq<Kind>, k: nat, n: nat, h: Header)
    requires k <= n <= |ks| && ScanKinds(ks[..k]) == Ok(h)
    requires forall j :: k <= j < n ==> ks[j] == Other
    ensures ScanKinds(ks[..n]) == Ok(h)
  {
    assert AllOther(ks[k..n]);
    ScanSkips(ks[..k], ks[k..n]);
    assert ks[..k] + ks[k..n] == ks[..n];
  }

  /** A plain line is skipped by the body loops. */
  lemma PlainSkipped(idx: nat, line: string, ni: int, no: int)
    requires Plain(line)
    ensures PlaReader.LineOutcome(idx, CubeSections(line), ni, no) == Skip
  {
    StripPrefix(line, 0);
  }

  /** The plain lines before the products are skipped. */
  lemma HeadOutcomes(lines: seq<string>, h: nat, ni: int, no: int)
    requires h <= |lines| && forall j :: 0 <= j < h ==> Plain(lines[j])
    ensures forall j :: 0 <= j < h ==> PlaReader.Outcomes(AllSections(lines), ni, no)[j] == Skip
  {
    forall j | 0 <= j < h ensures PlaReader.Outcomes(AllSections(lines), ni, no)[j] == Skip {
      PlainSkipped(j, lines[j], ni, no);
    }
  }

  /** A product line is kept as written. */
  lemma CubeKept(lines: seq<string>, j: nat, item: (string, string), ni: int, no: int)
    requires j < |lines| && lines[j] == CubeLine(item) && Writable(item, ni, no)
    ensures PlaReader.Outcomes(AllSections(lines), ni, no)[j] == Keep(item)
  {
    PlaReader.WrittenCube(j, item.0, item.1, ni, no);
  }

  lemma ItemOutcomes(head: seq<string>, items: seq<(string, string)>, tail: seq<string>, ni: int, no: int)
    requires forall k :: 0 <= k < |items| ==> Writable(items[k], ni, no)
    ensures forall j :: |head| <= j < |head| + |items| ==>
              PlaReader.Outcomes(AllSections(head + CubeLines(items) + tail), ni, no)[j] == Keep(items[j - |head|])
  {
    var lines := head + CubeLines(items) + tail;
    forall j | |head| <= j < |head| + |items|
      ensures PlaReader.Outcomes(AllSections(lines), ni, no)[j] == Keep(items[j - |head|])
    {
      CubeLineAt(head, items, tail, j - |head|);
      CubeKept(lines, j, items[j - |head|], ni, no);
    }
  }

  /** The plain lines after the products are skipped. */
  lemma TailOutcomes(lines: seq<string>, h: nat, ni: int, no: int)
    requires h <= |lines| && forall j :: h <= j < |lines| ==> Plain(lines[j])
    ensures forall j :: h <= j < |lines| ==> PlaReader.Outcomes(AllSections(lines), ni, no)[j] == Skip
  {
    forall j | h <= j < |lines| ensures PlaReader.Outcomes(AllSections(lines), ni, no)[j] == Skip {
      PlainSkipped(j, lines[j], ni, no);
    }
  }

  // ---------------------------------------------------------------- whole files

  lemma HeadAt(head: seq<string>, mid: seq<string>, tail: seq<string>, j: nat)
    requires j < |head|
    ensures (head + mid + tail)[j] == head[j]
  {
  }

  lemma TailAt(head: seq<string>, mid: seq<string>, tail: seq<string>, j: nat)
    requires |head| + |mid| <= j < |head| + |mid| + |tail|
    ensures (head + mid + tail)[j] == tail[j - |head| - |mid|]
  {
  }

  /**
   * The header lines the writers emit: a comment, `.i`, `.o`, any lines that
   * set no count, and `.p` last; none of them looks like a product line.
   */
  predicate WrittenHeader(head: seq<string>, ni: nat, no: nat, np: nat) {
    |head| >= 4 &&
    head[1] == DirectiveText(Inputs, ni) && head[2] == DirectiveText(Outputs, no) &&
    head[|head| - 1] == DirectiveText(Products, np) &&
    NoDirective(head[0]) && (forall j :: 3 <= j < |head| - 1 ==> NoDirective(head[j])) &&
    forall j :: 0 <= j < |head| ==> Plain(head[j])
  }

  /** The header lines of such a file set the counts they write and nothing else. */
  lemma HeadKinds(head: seq<string>, mid: seq<string>, tail: seq<string>, ni: nat, no: nat, np: nat)
    requires WrittenHeader(head, ni, no, np)
    ensures var ks := Kinds(head + mid + tail);
            ks[0] == Other && ks[1] == Directive(Inputs, Ok(ni)) && ks[2] == Directive(Outputs, Ok(no)) &&
            ks[|head| - 1] == Directive(Products, Ok(np)) &&
            forall j :: 3 <= j < |head| - 1 ==> ks[j] == Other
  {
    var lines := head + mid + tail;
    var ks := Kinds(lines);
    assert ks[0] == Other by {
      HeadAt(head, mid, tail, 0);
      NoDirectiveAt(lines, 0);
    }
    assert ks[1] == Directive(Inputs, Ok(ni)) by {
      HeadAt(head, mid, tail, 1);
      DirectiveAt(lines, 1, Inputs, ni);
    }
    assert ks[2] == Directive(Outputs, Ok(no)) by {
      HeadAt(head, mid, tail, 2);
      DirectiveAt(lines, 2, Outputs, no);
    }
    assert ks[|head| - 1] == Directive(Products, Ok(np)) by {
      HeadAt(head, mid, tail, |head| - 1);
      DirectiveAt(lines, |head| - 1, Products, np);
    }
    forall j | 3 <= j < |head| - 1 ensures ks[j] == Other {
      HeadAt(head, mid, tail, j);
      NoDirectiveAt(lines, j);
    }
  }

  /** The closing lines set no count. */
  lemma TailKinds(head: seq<string>, mid: seq<string>, tail: seq<string>)
    requires forall j :: 0 <= j < |tail| ==> NoDirective(tail[j])
    ensures forall j :: |head| + |mid| <= j < |head| + |mid| + |tail| ==> Kinds(head + mid + tail)[j] == Other
  {
    var lines := head + mid + tail;
    forall j | |head| + |mid| <= j < |lines| ensures Kinds(lines)[j] == Other {
      TailAt(head, mid, tail, j);
      NoDirectiveAt(lines, j);
    }
  }

  /** A header line that opens with a dot and two visible characters, such as `.ilb` or `.type`. */
  predicate Dotted(line: string) {
    |line| >= 3 && line[0] == '.' && !IsSpace(line[1]) && !IsSpace(line[2])
  }

  /** A line that starts with a dotted word is dotted. */
  lemma DottedPrefix(word: string, rest: string)
    requires Dotted(word)
    ensures Dotted(word + rest)
  {
    assert (word + rest)[..3] == word[..3];
  }

  /**
   * The headers the writers emit: a comment, `.i`, `.o`, dotted lines that
   * set no count, and `.p`.
   */
  lemma StandardHeader(comment: string, ni: nat, no: nat, extras: seq<string>, np: nat)
    requires comment != [] && comment[0] == '#'
    requires forall j :: 0 <= j < |extras| ==> Dotted(extras[j])
    ensures WrittenHeader([comment, DirectiveText(Inputs, ni), DirectiveText(Outputs, no)] + extras + [DirectiveText(Products, np)], ni, no, np)
  {
    var head := [comment, DirectiveText(Inputs, ni), DirectiveText(Outputs, no)] + extras + [DirectiveText(Products, np)];
    forall j | 3 <= j < |head| - 1 ensures NoDirective(head[j]) && Plain(head[j]) {
      assert head[j] == extras[j - 3];
    }
  }

  /**
   * A file made of a written header, product lines and closing lines that
   * set no count: `read_pla_info` and `read_info` see the written counts.
   */
  lemma WrittenScan(head: seq<string>, items: seq<(string, string)>, tail: seq<string>, ni: nat, no: nat, np: nat)
    requires WrittenHeader(head, ni, no, np)
    requires forall k :: 0 <= k < |items| ==> Writable(items[k], ni, no)
    requires forall j :: 0 <= j < |tail| ==> NoDirective(tail[j])
    ensures Scan(head + CubeLines(items) + tail) == Ok(Header(Some(ni), Some(no), Some(np)))
  {
    HeadKinds(head, CubeLines(items), tail, ni, no, np);
    CubeKinds(head, items, tail, ni, no);
    TailKinds(head, CubeLines(items), tail);
    HeaderKinds(Kinds(head + CubeLines(items) + tail), |head| - 4, ni, no, np);
  }

  /**
   * In such a file the body loops skip the header and closing lines and keep
   * each product line as written.
   */
  lemma WrittenOutcomes(head: seq<string>, items: seq<(string, string)>, tail: seq<string>, ni: int, no: int)
    requires forall j :: 0 <= j < |head| ==> Plain(head[j])
    requires forall k :: 0 <= k < |items| ==> Writable(items[k], ni, no)
    requires forall j :: 0 <= j < |tail| ==> Plain(tail[j])
    ensures Run(PlaReader.Outcomes(AllSections(head + CubeLines(items) + tail), ni, no), |head|, items)
  {
    var lines := head + CubeLines(items) + tail;
    forall j | 0 <= j < |head| ensures Plain(lines[j]) {
      HeadAt(head, CubeLines(items), tail, j);
    }
    HeadOutcomes(lines, |head|, ni, no);
    ItemOutcomes(head, items, tail, ni, no);
    forall j | |head| + |items| <= j < |lines| ensures Plain(lines[j]) {
      TailAt(head, CubeLines(items), tail, j);
    }
    TailOutcomes(lines, |head| + |items|, ni, no);
  }

  /** The `truthtables` body loop collects exactly the written products. */
  lemma WrittenCollect(head: seq<string>, items: seq<(string, string)>, tail: seq<string>, ni: int, no: int)
    requires forall j :: 0 <= j < |head| ==> Plain(head[j])
    requires forall k :: 0 <= k < |items| ==> Writable(items[k], ni, no)
    requires forall j :: 0 <= j < |tail| ==> Plain(tail[j])
    ensures Collect(PlaReader.Outcomes(AllSections(head + CubeLines(items) + tail), ni, no)) == Ok(items)
  {
    var os := PlaReader.Outcomes(AllSections(head + CubeLines(items) + tail), ni, no);
    assert Run(os, |head|, items) by {
      WrittenOutcomes(head, items, tail, ni, no);
    }
    CollectRun(os, |head|, items);
  }
}
