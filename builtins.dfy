/**
 * The Python built-ins the table code relies on, on `string` = seq<char>:
 * `str.strip`, `str.split()`, `str.join`, `int()`, `str()` of a natural number,
 * `list.index`, indexing and slicing with negative positions, and the
 * splitting of a text file into lines.
 */
module Builtins {
  import opened Base

  /** The characters `str.isspace` accepts. */
  const Whitespace: set<char> :=
    {' ', '\t', '\n', '\r', '\U{000B}', '\U{000C}', '\U{001C}', '\U{001D}', '\U{001E}',
     '\U{001F}', '\U{0085}', '\U{00A0}', '\U{1680}', '\U{2000}', '\U{2001}', '\U{2002}',
     '\U{2003}', '\U{2004}', '\U{2005}', '\U{2006}', '\U{2007}', '\U{2008}', '\U{2009}',
     '\U{200A}', '\U{2028}', '\U{2029}', '\U{202F}', '\U{205F}', '\U{3000}'}

  /** `str.isspace` for one character. */
  predicate IsSpace(c: char) {
    c in Whitespace
  }

  predicate NoSpace(s: string) {
    forall i :: 0 <= i < |s| ==> !IsSpace(s[i])
  }

  /** The characters at which reading a file in text mode ends a line. */
  predicate IsLineBreak(c: char) {
    c == '\n' || c == '\r'
  }

  predicate NoLineBreak(s: string) {
    forall i :: 0 <= i < |s| ==> !IsLineBreak(s[i])
  }

  // ---------------------------------------------------------------- strip

  /** `s.lstrip()`: the longest suffix of `s` that does not start with whitespace. */
  function LStrip(s: string): (r: string)
    ensures |r| <= |s| && r == s[|s| - |r|..]
    ensures r == [] || !IsSpace(r[0])
  {
    if s != [] && IsSpace(s[0]) then LStrip(s[1..]) else s
  }

  /** `s.rstrip()`: the longest prefix of `s` that does not end with whitespace. */
  function RStrip(s: string): (r: string)
    ensures |r| <= |s| && r == s[..|r|]
    ensures r == [] || !IsSpace(r[|r| - 1])
  {
    if s != [] && IsSpace(s[|s| - 1]) then RStrip(s[..|s| - 1]) else s
  }

  /** `s.strip()`. */
  function Strip(s: string): string {
    RStrip(LStrip(s))
  }

  lemma StripKeeps(s: string)
    requires s != [] && !IsSpace(s[0]) && !IsSpace(s[|s| - 1])
    ensures Strip(s) == s
  {
  }

  /** Stripping trailing whitespace off `s + t` where `t` is all whitespace
      and `s` does not end with any gives `s` back. */
  lemma {:induction false} RStripTrailing(s: string, t: string)
    requires s != [] && !IsSpace(s[|s| - 1])
    requires forall i :: 0 <= i < |t| ==> IsSpace(t[i])
    ensures RStrip(s + t) == s
  {
    if t != [] {
      assert (s + t)[..|s + t| - 1] == s + t[..|t| - 1];
      RStripTrailing(s, t[..|t| - 1]);
    } else {
      assert s + t == s;
    }
  }

  /** Trailing whitespace is all `rstrip` removes. */
  lemma {:induction false} RStripKeeps(s: string, i: nat)
    requires i < |s| && !IsSpace(s[i])
    ensures |RStrip(s)| > i
  {
    if IsSpace(s[|s| - 1]) {
      RStripKeeps(s[..|s| - 1], i);
    }
  }

  /** Stripping a string that starts with a non-space character keeps its
      front up to any later non-space character. */
  lemma StripPrefix(s: string, i: nat)
    requires i < |s| && !IsSpace(s[0]) && !IsSpace(s[i])
    ensures |Strip(s)| > i && Strip(s)[..i + 1] == s[..i + 1]
  {
    RStripKeeps(s, i);
  }

  // ---------------------------------------------------------------- split

  /** The longest prefix of `s` without whitespace. */
  function Word(s: string): (w: string)
    ensures |w| <= |s| && w == s[..|w|]
    ensures NoSpace(w)
    ensures |w| == |s| || IsSpace(s[|w|])
  {
    if s == [] || IsSpace(s[0]) then [] else [s[0]] + Word(s[1..])
  }

  /** `s.split()`: the maximal runs of non-whitespace characters, in order. */
  function Split(s: string): (r: seq<string>)
    decreases |s|
  {
    var t := LStrip(s);
    if t == [] then []
    else
      var w := Word(t);
      [w] + Split(t[|w|..])
  }

  lemma {:induction false} WordOf(a: string, rest: string)
    requires NoSpace(a)
    requires rest == [] || IsSpace(rest[0])
    ensures Word(a + rest) == a
  {
    if a != [] {
      assert (a + rest)[1..] == a[1..] + rest;
      WordOf(a[1..], rest);
    } else {
      assert a + rest == rest;
    }
  }

  /** Leading whitespace does not change the split. */
  lemma {:induction false} SplitSpace(c: char, rest: string)
    requires IsSpace(c)
    ensures Split([c] + rest) == Split(rest)
  {
    assert ([c] + rest)[1..] == rest;
    assert LStrip([c] + rest) == LStrip(rest);
  }

  /** A word followed by whitespace (or nothing) is the first piece of the split. */
  lemma {:induction false} SplitCons(w: string, rest: string)
    requires w != [] && NoSpace(w)
    requires rest == [] || IsSpace(rest[0])
    ensures Split(w + rest) == [w] + Split(rest)
  {
    var s := w + rest;
    assert s[0] == w[0];
    assert LStrip(s) == s;
    WordOf(w, rest);
    assert s[|w|..] == rest;
  }

  /** A word alone splits into itself. */
  lemma {:induction false} SplitOne(a: string)
    requires a != [] && NoSpace(a)
    ensures Split(a) == [a]
  {
    SplitCons(a, []);
    assert a + [] == a;
  }

  lemma Assoc(a: string, b: string, c: string)
    ensures a + b + c == a + (b + c)
  {
  }

  lemma {:induction false} SplitSpaced(a: string, b: string)
    requires a != [] && NoSpace(a) && b != [] && NoSpace(b)
    ensures Split(a + ([' '] + b)) == [a, b]
  {
    SplitCons(a, [' '] + b);
    SplitSpace(' ', b);
    SplitOne(b);
  }

  /** Two words separated by one blank split into the two words. */
  lemma {:induction false} SplitTwo(a: string, b: string)
    requires a != [] && NoSpace(a) && b != [] && NoSpace(b)
    ensures Split(a + " " + b) == [a, b]
  {
    Assoc(a, [' '], b);
    SplitSpaced(a, b);
  }

  // ---------------------------------------------------------------- join

  /** `sep.join(parts)`. */
  function Join(sep: string, parts: seq<string>): string
  {
    if parts == [] then ""
    else if |parts| == 1 then parts[0]
    else parts[0] + sep + Join(sep, parts[1..])
  }

  /** The concatenation of `parts`, each followed by `end`. */
  function Terminated(parts: seq<string>, end: string): string
  {
    if parts == [] then "" else Terminated(parts[..|parts| - 1], end) + parts[|parts| - 1] + end
  }

  lemma {:induction false} JoinSnoc(sep: string, parts: seq<string>, x: string)
    requires parts != []
    ensures Join(sep, parts + [x]) == Join(sep, parts) + sep + x
  {
    if |parts| == 1 {
      assert (parts + [x])[1..] == [x];
    } else {
      assert (parts + [x])[1..] == parts[1..] + [x];
      JoinSnoc(sep, parts[1..], x);
    }
  }

  /** Writing each part followed by `end` gives the join plus one final `end`. */
  lemma {:induction false} TerminatedIsJoin(parts: seq<string>, end: string)
    requires parts != []
    ensures Terminated(parts, end) == Join(end, parts) + end
  {
    var n := |parts|;
    if n == 1 {
      assert Terminated(parts[..0], end) == "";
    } else {
      TerminatedIsJoin(parts[..n - 1], end);
      JoinSnoc(end, parts[..n - 1], parts[n - 1]);
      assert parts[..n - 1] + [parts[n - 1]] == parts;
    }
  }

  /** Writing one more part after the others. */
  lemma TerminatedSnoc(parts: seq<string>, x: string, end: string)
    ensures Terminated(parts + [x], end) == Terminated(parts, end) + x + end
  {
    assert (parts + [x])[..|parts|] == parts;
  }

  /** Writing one line and its newline to a file, tracking the lines written so far. */
  method WriteLine(text: string, ghost written: seq<string>, line: string)
      returns (r: string, ghost lines: seq<string>)
    requires text == Terminated(written, "\n")
    ensures lines == written + [line]
    ensures r == Terminated(lines, "\n")
  {
    TerminatedSnoc(written, line, "\n");
    r := text + line + "\n";
    lines := written + [line];
  }

  /** Two pieces without a line break make a line without one. */
  lemma NoLineBreakConcat(a: string, b: string)
    requires NoLineBreak(a) && NoLineBreak(b)
    ensures NoLineBreak(a + b)
  {
    forall i | 0 <= i < |a + b|
      ensures !IsLineBreak((a + b)[i])
    {
      if i >= |a| {
        assert (a + b)[i] == b[i - |a|];
      }
    }
  }

  /** Writing two runs of parts one after the other. */
  lemma {:induction false} TerminatedAppend(a: seq<string>, b: seq<string>, end: string)
    ensures Terminated(a + b, end) == Terminated(a, end) + Terminated(b, end)
  {
    if b == [] {
      assert a + b == a;
    } else {
      var n := |b| - 1;
      assert (a + b)[..|a + b| - 1] == a + b[..n];
      TerminatedAppend(a, b[..n], end);
    }
  }

  /** Parts and separator without a line break join into a string without one. */
  lemma {:induction false} JoinNoLineBreak(sep: string, parts: seq<string>)
    requires NoLineBreak(sep) && forall k :: 0 <= k < |parts| ==> NoLineBreak(parts[k])
    ensures NoLineBreak(Join(sep, parts))
  {
    if |parts| > 1 {
      JoinNoLineBreak(sep, parts[1..]);
    }
  }

  // ---------------------------------------------------------------- lines

  /** The first line of `s`: its longest prefix without a line break. */
  function LineOf(s: string): (w: string)
    ensures |w| <= |s| && w == s[..|w|]
    ensures NoLineBreak(w)
    ensures |w| == |s| || IsLineBreak(s[|w|])
  {
    if s == [] || IsLineBreak(s[0]) then [] else [s[0]] + LineOf(s[1..])
  }

  /** The length of the line ending that starts at position `k`: two for `\r\n`, one for a lone `\r` or `\n`. */
  function BreakLength(s: string, k: nat): (n: nat)
    requires k < |s| && IsLineBreak(s[k])
    ensures 1 <= n <= 2 && k + n <= |s|
  {
    if s[k] == '\r' && k + 1 < |s| && s[k + 1] == '\n' then 2 else 1
  }

  /**
   * The lines of a text file read in text mode, without their line endings:
   * a line ends at `\n`, at `\r` or at `\r\n`.
   */
  function SplitLines(s: string): (r: seq<string>)
    ensures r != []
    decreases |s|
  {
    var w := LineOf(s);
    if |w| == |s| then [s] else [w] + SplitLines(s[|w| + BreakLength(s, |w|)..])
  }

  lemma {:induction false} LineOfPrefix(a: string, rest: string)
    requires NoLineBreak(a)
    requires rest == [] || IsLineBreak(rest[0])
    ensures LineOf(a + rest) == a
  {
    if a != [] {
      assert (a + rest)[1..] == a[1..] + rest;
      LineOfPrefix(a[1..], rest);
    } else {
      assert a + rest == rest;
    }
  }

  /** A line, a newline and the rest split into that line and the lines of the rest. */
  lemma SplitLinesCons(w: string, rest: string)
    requires NoLineBreak(w)
    ensures SplitLines(w + ("\n" + rest)) == [w] + SplitLines(rest)
  {
    var s := w + ("\n" + rest);
    LineOfPrefix(w, "\n" + rest);
    assert s[|w|] == '\n';
    assert BreakLength(s, |w|) == 1;
    assert s[|w| + 1..] == rest;
  }

  /** Lines without line breaks joined with newlines split back into the same lines. */
  lemma {:induction false} SplitLinesJoin(lines: seq<string>)
    requires lines != []
    requires forall k :: 0 <= k < |lines| ==> NoLineBreak(lines[k])
    ensures SplitLines(Join("\n", lines)) == lines
  {
    if |lines| == 1 {
      LineOfPrefix(lines[0], []);
      assert lines[0] + [] == lines[0];
    } else {
      var rest := Join("\n", lines[1..]);
      assert SplitLines(Join("\n", lines)) == [lines[0]] + SplitLines(rest) by {
        assert Join("\n", lines) == lines[0] + ("\n" + rest);
        SplitLinesCons(lines[0], rest);
      }
      SplitLinesJoin(lines[1..]);
      assert [lines[0]] + lines[1..] == lines;
    }
  }

  /** Two lists of lines without line breaks joined are still without. */
  lemma AllNoLineBreak(a: seq<string>, b: seq<string>)
    requires forall j :: 0 <= j < |a| ==> NoLineBreak(a[j])
    requires forall j :: 0 <= j < |b| ==> NoLineBreak(b[j])
    ensures forall j :: 0 <= j < |a + b| ==> NoLineBreak((a + b)[j])
  {
  }

  /** A file written as lines each followed by a newline, then a last line
      without one, reads back as those lines. */
  lemma TerminatedLines(lines: seq<string>, last: string)
    requires forall k :: 0 <= k < |lines| ==> NoLineBreak(lines[k])
    requires NoLineBreak(last)
    ensures SplitLines(Terminated(lines, "\n") + last) == lines + [last]
  {
    if lines == [] {
      assert Terminated(lines, "\n") + last == last;
      assert Join("\n", [last]) == last;
    } else {
      TerminatedIsJoin(lines, "\n");
      JoinSnoc("\n", lines, last);
    }
    SplitLinesJoin(lines + [last]);
  }

  /** A line, one of the three line endings, and the rest split into that line and the lines of the rest. */
  lemma SplitLinesAt(w: string, ending: string, rest: string)
    requires NoLineBreak(w)
    requires ending == "\n" || ending == "\r\n" || (ending == "\r" && (rest == [] || rest[0] != '\n'))
    ensures SplitLines(w + ending + rest) == [w] + SplitLines(rest)
  {
    var s := w + ending + rest;
    LineOfPrefix(w, ending + rest);
    assert s == w + (ending + rest);
    assert s[|w|] == ending[0];
    assert BreakLength(s, |w|) == |ending|;
    assert s[|w| + |ending|..] == rest;
  }

  /** A text without line breaks is a single line. */
  lemma SplitLinesOne(c: string)
    requires NoLineBreak(c)
    ensures SplitLines(c) == [c]
  {
    LineOfPrefix(c, []);
    assert c + [] == c;
  }

  /** Three lines ended by a carriage return and by a carriage return and a newline. */
  lemma SplitMixedEndings(a: string, b: string, c: string)
    requires NoLineBreak(a) && NoLineBreak(b) && NoLineBreak(c) && b != [] && b[0] != '\n'
    ensures SplitLines(a + ("\r" + (b + ("\r\n" + c)))) == [a, b, c]
  {
    var tail := b + ("\r\n" + c);
    assert b + "\r\n" + c == tail;
    assert a + "\r" + tail == a + ("\r" + tail);
    assert tail[0] == b[0];
    SplitLinesOne(c);
    SplitLinesAt(b, "\r\n", c);
    SplitLinesAt(a, "\r", tail);
  }

  /** A carriage return ends a line as well, alone or before a newline. */
  lemma CarriageReturnExample()
    ensures SplitLines(".ilb a\r1 1\r\n.e") == [".ilb a", "1 1", ".e"]
  {
    var a, b, c := ".ilb a", "1 1", ".e";
    assert NoLineBreak(a) && NoLineBreak(b) && NoLineBreak(c);
    SplitMixedEndings(a, b, c);
    assert ".ilb a\r1 1\r\n.e" == a + ("\r" + (b + ("\r\n" + c)));
  }

  // ---------------------------------------------------------------- numbers

  predicate IsDigit(c: char) {
    '0' <= c <= '9'
  }

  predicate AllDigits(s: string) {
    forall i :: 0 <= i < |s| ==> IsDigit(s[i])
  }

  function DigitChar(d: nat): (c: char)
    requires d < 10
    ensures IsDigit(c) && c as int - '0' as int == d
  {
    (d + '0' as int) as char
  }

  /** The value of a string of decimal digits, most significant first. */
  function DecimalValue(s: string): nat
    requires AllDigits(s)
  {
    if s == [] then 0 else 10 * DecimalValue(s[..|s| - 1]) + (s[|s| - 1] as int - '0' as int)
  }

  /** `str(n)` for a natural number. */
  function NatToString(n: nat): (s: string)
    ensures s != [] && AllDigits(s) && DecimalValue(s) == n
    ensures NoSpace(s) && NoLineBreak(s)
  {
    if n < 10 then [DigitChar(n)]
    else
      var p := NatToString(n / 10);
      var s := p + [DigitChar(n % 10)];
      assert s[..|s| - 1] == p;
      s
  }

  /** `int(token)` for a token without whitespace: an optional sign and at
      least one decimal digit, otherwise a ValueError. */
  function ParseInt(s: string): (r: Result<int>)
    ensures r.Err? ==> r.error == ValueError(NotAnInteger)
  {
    if s != [] && (s[0] == '-' || s[0] == '+') then
      var d := s[1..];
      if d != [] && AllDigits(d) then Ok(if s[0] == '-' then -(DecimalValue(d) as int) else DecimalValue(d))
      else Err(ValueError(NotAnInteger))
    else if s != [] && AllDigits(s) then Ok(DecimalValue(s))
    else Err(ValueError(NotAnInteger))
  }

  /** What `str` writes, `int` reads back. */
  lemma ParseNatToString(n: nat)
    ensures ParseInt(NatToString(n)) == Ok(n)
  {
  }

  // ---------------------------------------------------------------- lists

  /** `xs.index(x)`: the first position holding `x`, if any. */
  function IndexOf<T(==)>(xs: seq<T>, x: T): (r: Option<nat>)
    ensures r.None? <==> x !in xs
    ensures r.Some? ==> r.value < |xs| && xs[r.value] == x
    ensures r.Some? ==> forall j :: 0 <= j < r.value ==> xs[j] != x
  {
    if xs == [] then None
    else if xs[0] == x then Some(0)
    else match IndexOf(xs[1..], x)
      case None => None
      case Some(k) => Some(k + 1)
  }

  /** The position `xs[k]` reads for a Python index `k` (negative counts from
      the end), or None where Python raises IndexError. */
  function PyIndex(len: nat, k: int): (r: Option<nat>)
    ensures r.Some? <==> -(len as int) <= k < len
    ensures r.Some? ==> r.value < len && (r.value == k || r.value == len + k)
  {
    if 0 <= k < len then Some(k) else if -(len as int) <= k < 0 then Some(len + k) else None
  }

  /** A Python slice bound clamped into `0..len`. */
  function SliceBound(len: nat, b: int): (r: nat)
    ensures r <= len
  {
    if b < 0 then (if len + b < 0 then 0 else len + b) else if b > len then len else b
  }

  /** `xs[start:stop]`: never fails; bounds are clamped and an empty range gives []. */
  function PySlice<T>(xs: seq<T>, start: int, stop: int): (r: seq<T>)
    ensures 0 <= start <= stop <= |xs| ==> r == xs[start..stop]
    ensures |r| <= |xs|
  {
    var lo := SliceBound(|xs|, start);
    var hi := SliceBound(|xs|, stop);
    if lo < hi then xs[lo..hi] else []
  }

  // ---------------------------------------------------------------- results in a loop

  /** A result holding one value as a list of that value. */
  function Single<T>(r: Result<T>): Result<seq<T>> {
    match r
    case Err(e) => Err(e)
    case Ok(x) => Ok([x])
  }

  /**
   * A loop that appends what each step yields and stops at the first step
   * that raises: the concatenation of the values, or the first error.
   */
  function Gather<T>(rs: seq<Result<seq<T>>>): Result<seq<T>> {
    if rs == [] then Ok([])
    else
      match Gather(rs[..|rs| - 1])
      case Err(e) => Err(e)
      case Ok(front) =>
        match rs[|rs| - 1]
        case Err(e) => Err(e)
        case Ok(xs) => Ok(front + xs)
  }

  /** A step that succeeds appends its values to what the loop gathered. */
  lemma GatherSnoc<T>(rs: seq<Result<seq<T>>>, i: nat, front: seq<T>, xs: seq<T>)
    requires i < |rs| && Gather(rs[..i]) == Ok(front) && rs[i] == Ok(xs)
    ensures Gather(rs[..i + 1]) == Ok(front + xs)
  {
    assert rs[..i + 1][..i] == rs[..i];
  }

  /** The first step that raises decides the outcome of the whole loop. */
  lemma {:induction false} GatherStops<T>(rs: seq<Result<seq<T>>>, i: nat, e: Error)
    requires i < |rs| && Gather(rs[..i]).Ok? && rs[i] == Err(e)
    ensures Gather(rs) == Err(e)
  {
    var n := |rs| - 1;
    if n == i {
      assert rs[..n] == rs[..i];
    } else {
      assert rs[..n][..i] == rs[..i];
      GatherStops(rs[..n], i, e);
    }
  }

  /** When every step yields one value, the loop gathers those values in order. */
  lemma {:induction false} GatherSingles<T>(rs: seq<Result<seq<T>>>, xs: seq<T>)
    requires |rs| == |xs| && forall j :: 0 <= j < |rs| ==> rs[j] == Ok([xs[j]])
    ensures Gather(rs) == Ok(xs)
  {
    if rs != [] {
      var n := |rs| - 1;
      GatherSingles(rs[..n], xs[..n]);
      assert xs[..n] + [xs[n]] == xs;
    }
  }

  /** The loop runs to the end exactly when no step raises. */
  lemma {:induction false} GatherOk<T>(rs: seq<Result<seq<T>>>)
    ensures Gather(rs).Ok? <==> forall j :: 0 <= j < |rs| ==> rs[j].Ok?
  {
    if rs != [] {
      var n := |rs| - 1;
      GatherOk(rs[..n]);
      assert forall j :: 0 <= j < n ==> rs[..n][j] == rs[j];
    }
  }

  /** Steps that yield one value each gather, when none raises, the value of each step in order. */
  lemma {:induction false} GatherOneEach<T>(rs: seq<Result<seq<T>>>)
    requires forall j :: 0 <= j < |rs| && rs[j].Ok? ==> |rs[j].value| == 1
    ensures Gather(rs).Ok? ==>
              |Gather(rs).value| == |rs| &&
              forall j :: 0 <= j < |rs| ==> rs[j].Ok? && Gather(rs).value[j] == rs[j].value[0]
  {
    if rs != [] {
      var n := |rs| - 1;
      var front := rs[..n];
      assert forall j :: 0 <= j < n ==> front[j] == rs[j];
      GatherOneEach(front);
    }
  }

  /** Steps that yield at most one value each gather at most one value per step. */
  lemma {:induction false} GatherAtMostOne<T>(rs: seq<Result<seq<T>>>)
    requires forall j :: 0 <= j < |rs| && rs[j].Ok? ==> |rs[j].value| <= 1
    ensures Gather(rs).Ok? ==> |Gather(rs).value| <= |rs|
  {
    if rs != [] {
      GatherAtMostOne(rs[..|rs| - 1]);
    }
  }
}
