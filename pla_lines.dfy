/**
 * The body of a PLA file as the three readers see it: a line whose stripped
 * text starts with '1', '0' or '-' is a cube line and must split into an
 * input and an output section of the widths the header announced. What a
 * reader makes of each line is an `Outcome`; the reader's loop collects the
 * kept items in order and stops at the first failure.
 */
module PlaLines {
  import opened Base
  import opened Builtins

  /** `line and line[0] in "10-"`, on the stripped line. */
  predicate IsCubeLine(line: string) {
    var s := Strip(line);
    s != [] && s[0] in {'1', '0', '-'}
  }

  /** `line.strip().split()` of a cube line; None for every other line. */
  function CubeSections(line: string): Option<seq<string>> {
    if IsCubeLine(line) then Some(Split(Strip(line))) else None
  }

  function AllSections(lines: seq<string>): (r: seq<Option<seq<string>>>)
    ensures |r| == |lines|
  {
    seq(|lines|, j requires 0 <= j < |lines| => CubeSections(lines[j]))
  }

  /** The sections of the cube lines, in order. */
  function Present(cs: seq<Option<seq<string>>>): (r: seq<seq<string>>)
    ensures |r| <= |cs|
  {
    if cs == [] then []
    else Present(cs[..|cs| - 1]) + if cs[|cs| - 1].Some? then [cs[|cs| - 1].value] else []
  }

  /** The section and width checks of a cube line at position `idx`, on its
      whitespace-separated sections. */
  function CheckSections(idx: nat, sections: seq<string>, ni: int, no: int): (r: Result<(string, string)>)
    ensures r.Ok? <==> |sections| == 2 && |sections[0]| == ni && |sections[1]| == no
    ensures r.Ok? ==> sections == [r.value.0, r.value.1]
    ensures r.Err? ==> r.error.PlaParsing? && r.error.line == Some(idx)
    ensures |sections| != 2 ==> r == Err(PlaParsing(Sections(|sections|), Some(idx)))
  {
    if |sections| != 2 then Err(PlaParsing(Sections(|sections|), Some(idx)))
    else if |sections[0]| != ni then Err(PlaParsing(InputWidth, Some(idx)))
    else if |sections[1]| != no then Err(PlaParsing(OutputWidth, Some(idx)))
    else Ok((sections[0], sections[1]))
  }

  /** What one pass of a reader's loop does with a line. */
  datatype Outcome<T> = Skip | Keep(item: T) | Fail(error: Error)

  /** The reader's loop over the outcomes: keep in order, stop at the first failure. */
  function Collect<T>(outs: seq<Outcome<T>>): Result<seq<T>> {
    if outs == [] then Ok([])
    else
      match Collect(outs[..|outs| - 1])
      case Err(e) => Err(e)
      case Ok(items) =>
        match outs[|outs| - 1]
        case Skip => Ok(items)
        case Keep(x) => Ok(items + [x])
        case Fail(e) => Err(e)
  }

  /** The items of the `Keep` outcomes, in order, failures ignored. */
  function Kept<T>(outs: seq<Outcome<T>>): (r: seq<T>)
    ensures |r| <= |outs|
  {
    if outs == [] then []
    else Kept(outs[..|outs| - 1]) + (if outs[|outs| - 1].Keep? then [outs[|outs| - 1].item] else [])
  }

  lemma CollectSnoc<T>(front: seq<Outcome<T>>, o: Outcome<T>)
    ensures Collect(front + [o]) == match Collect(front)
                                    case Err(e) => Err(e)
                                    case Ok(items) =>
                                      match o
                                      case Skip => Ok(items)
                                      case Keep(x) => Ok(items + [x])
                                      case Fail(e) => Err(e)
    ensures Kept(front + [o]) == Kept(front) + (if o.Keep? then [o.item] else [])
  {
    assert (front + [o])[..|front|] == front;
  }

  /**
   * The loop succeeds exactly when no outcome is a failure, and then returns
   * every kept item in order; otherwise it fails with the first failure.
   */
  lemma {:induction false} CollectMeaning<T>(outs: seq<Outcome<T>>)
    ensures Collect(outs).Ok? <==> forall j :: 0 <= j < |outs| ==> !outs[j].Fail?
    ensures Collect(outs).Ok? ==> Collect(outs).value == Kept(outs)
    ensures Collect(outs).Err? ==>
              exists j :: 0 <= j < |outs| && outs[j].Fail? && Collect(outs) == Err(outs[j].error) &&
                          forall i :: 0 <= i < j ==> !outs[i].Fail?
  {
    if outs != [] {
      var n := |outs| - 1;
      var front := outs[..n];
      CollectMeaning(front);
      assert outs == front + [outs[n]];
      CollectSnoc(front, outs[n]);
      assert forall j :: 0 <= j < n ==> outs[j] == front[j];
      if Collect(front).Err? {
        var j :| 0 <= j < n && front[j].Fail? && Collect(front) == Err(front[j].error) &&
                 forall i :: 0 <= i < j ==> !front[i].Fail?;
        assert outs[j].Fail?;
      } else if outs[n].Fail? {
        assert forall i :: 0 <= i < n ==> !outs[i].Fail?;
      }
    }
  }

  /** Collecting one more outcome of a prefix is one more step. */
  lemma CollectPrefix<T>(outs: seq<Outcome<T>>, k: nat)
    requires k < |outs|
    ensures Collect(outs[..k + 1]) == match Collect(outs[..k])
                                      case Err(e) => Err(e)
                                      case Ok(items) =>
                                        match outs[k]
                                        case Skip => Ok(items)
                                        case Keep(x) => Ok(items + [x])
                                        case Fail(e) => Err(e)
  {
    assert outs[..k + 1][..k] == outs[..k];
  }

  /** Once a prefix has failed, the whole loop fails the same way. */
  lemma {:induction false} CollectFailureSticks<T>(outs: seq<Outcome<T>>, k: nat)
    requires k <= |outs| && Collect(outs[..k]).Err?
    ensures Collect(outs) == Collect(outs[..k])
    decreases |outs| - k
  {
    if k < |outs| {
      CollectPrefix(outs, k);
      CollectFailureSticks(outs, k + 1);
    } else {
      assert outs[..k] == outs;
    }
  }

  predicate AllSkip<T>(outs: seq<Outcome<T>>) {
    forall j :: 0 <= j < |outs| ==> outs[j].Skip?
  }

  /** Lines a reader skips add nothing; kept lines add their items. */
  lemma {:induction false} CollectAppend<T>(a: seq<Outcome<T>>, b: seq<Outcome<T>>)
    requires Collect(a).Ok? && Collect(b).Ok?
    ensures Collect(a + b) == Ok(Collect(a).value + Collect(b).value)
  {
    if b == [] {
      assert a + b == a;
      assert Collect(a).value + [] == Collect(a).value;
    } else {
      var n := |b| - 1;
      assert a + b == (a + b[..n]) + [b[n]];
      CollectSnoc(a + b[..n], b[n]);
      CollectSnoc(b[..n], b[n]);
      assert b[..n] + [b[n]] == b;
      CollectAppend(a, b[..n]);
      if b[n].Keep? {
        assert Collect(a).value + Collect(b[..n]).value + [b[n].item]
            == Collect(a).value + (Collect(b[..n]).value + [b[n].item]);
      }
    }
  }

  /** A run of skipped lines collects nothing. */
  lemma {:induction false} CollectSkips<T>(outs: seq<Outcome<T>>)
    requires AllSkip(outs)
    ensures Collect(outs) == Ok([])
  {
    if outs != [] {
      var n := |outs| - 1;
      assert outs == outs[..n] + [outs[n]];
      CollectSnoc(outs[..n], outs[n]);
      CollectSkips(outs[..n]);
    }
  }

  /** A run of kept lines collects their items in order. */
  lemma {:induction false} CollectKeeps<T>(items: seq<T>)
    ensures Collect(seq(|items|, i requires 0 <= i < |items| => Keep(items[i]))) == Ok(items)
  {
    var outs := seq(|items|, i requires 0 <= i < |items| => Keep(items[i]));
    if items != [] {
      var n := |items| - 1;
      assert outs == outs[..n] + [outs[n]];
      CollectSnoc(outs[..n], outs[n]);
      assert outs[..n] == seq(n, i requires 0 <= i < n => Keep(items[..n][i]));
      CollectKeeps(items[..n]);
      assert items[..n] + [items[n]] == items;
    }
  }

  /** Skipped lines, then a run of kept ones, then skipped lines again. */
  ghost predicate Run<T>(outs: seq<Outcome<T>>, h: nat, items: seq<T>) {
    h + |items| <= |outs| &&
    (forall j :: 0 <= j < h ==> outs[j] == Skip) &&
    (forall j :: h <= j < h + |items| ==> outs[j] == Keep(items[j - h])) &&
    (forall j :: h + |items| <= j < |outs| ==> outs[j] == Skip)
  }

  /** Such a run collects exactly its kept items. */
  lemma CollectRun<T>(outs: seq<Outcome<T>>, h: nat, items: seq<T>)
    requires Run(outs, h, items)
    ensures Collect(outs) == Ok(items)
  {
    var n := h + |items|;
    var keeps := seq(|items|, i requires 0 <= i < |items| => Keep(items[i]));
    assert outs == outs[..h] + keeps + outs[n..];
    CollectAround(outs[..h], items, outs[n..]);
  }

  lemma CollectAround<T>(a: seq<Outcome<T>>, items: seq<T>, c: seq<Outcome<T>>)
    requires AllSkip(a) && AllSkip(c)
    ensures Collect(a + seq(|items|, i requires 0 <= i < |items| => Keep(items[i])) + c) == Ok(items)
  {
    var keeps := seq(|items|, i requires 0 <= i < |items| => Keep(items[i]));
    CollectSkips(a);
    CollectKeeps(items);
    CollectSkips(c);
    CollectAppend(a, keeps);
    assert [] + items == items;
    CollectAppend(a + keeps, c);
    assert items + [] == items;
  }
}
