/**
 * Product terms as the Verilog and PLA writers spell them: a conjunction of
 * literals joined by " & ", a literal being an input label, negated with '~'.
 * The structure is kept beside the text so that what a term means (which
 * input assignments make it true) can be stated and proved.
 */
module Literals {
  import opened Builtins
  import opened Binary

  /** Labels `prefix0`, `prefix1`, ..., `prefix(n-1)`. */
  function DefaultLabels(prefix: string, n: nat): (r: seq<string>)
    ensures |r| == n
  {
    seq(n, i requires 0 <= i < n => prefix + NatToString(i))
  }

  /** Default labels hold no line break when their prefix holds none. */
  lemma DefaultLabelsPlain(prefix: string, n: nat)
    requires NoLineBreak(prefix)
    ensures forall k :: 0 <= k < n ==> NoLineBreak(DefaultLabels(prefix, n)[k])
  {
    forall k | 0 <= k < n ensures NoLineBreak(DefaultLabels(prefix, n)[k]) {
      NoLineBreakConcat(prefix, NatToString(k));
    }
  }

  /** The input at position `pos`, negated unless `positive`. */
  datatype Lit = Lit(pos: nat, positive: bool)

  /** Every literal names an existing label. */
  predicate Labelled(lits: seq<Lit>, labels: seq<string>) {
    forall i :: 0 <= i < |lits| ==> lits[i].pos < |labels|
  }

  function LitText(l: Lit, labels: seq<string>): string
    requires l.pos < |labels|
  {
    if l.positive then labels[l.pos] else "~" + labels[l.pos]
  }

  function LitTexts(lits: seq<Lit>, labels: seq<string>): (r: seq<string>)
    requires Labelled(lits, labels)
    ensures |r| == |lits|
  {
    seq(|lits|, i requires 0 <= i < |lits| => LitText(lits[i], labels))
  }

  lemma LitTextsSnoc(lits: seq<Lit>, l: Lit, labels: seq<string>)
    requires Labelled(lits, labels) && l.pos < |labels|
    ensures Labelled(lits + [l], labels)
    ensures LitTexts(lits + [l], labels) == LitTexts(lits, labels) + [LitText(l, labels)]
  {
    assert forall i :: 0 <= i < |lits| ==> lits[i] == (lits + [l])[i];
  }

  /** The text of a product term: its literals joined by " & ". */
  function ProductText(lits: seq<Lit>, labels: seq<string>): string
    requires Labelled(lits, labels)
  {
    Join(" & ", LitTexts(lits, labels))
  }

  /** The literal is true under the input assignment `x`, a bit string with
      one character per input. */
  predicate Holds(l: Lit, x: string) {
    l.pos < |x| && (x[l.pos] == '1') == l.positive
  }

  predicate HoldsAll(lits: seq<Lit>, x: string) {
    forall i :: 0 <= i < |lits| ==> Holds(lits[i], x)
  }

  /** A sum of products is true when one of its terms is. */
  predicate AnyTermHolds(terms: seq<seq<Lit>>, x: string) {
    exists t :: 0 <= t < |terms| && HoldsAll(terms[t], x)
  }

  /** The minterm of a row label: one literal per position, negated where the bit is '0'. */
  function Minterm(bits: string): seq<Lit> {
    seq(|bits|, i requires 0 <= i < |bits| => Lit(i, bits[i] != '0'))
  }

  /** A minterm names only positions below its length. */
  lemma MintermLabelled(bits: string, labels: seq<string>)
    requires |bits| <= |labels|
    ensures Labelled(Minterm(bits), labels)
  {
  }

  /** The minterm of a bit string is true under exactly that one assignment. */
  lemma MintermHolds(bits: string, x: string)
    requires IsBinary(bits) && IsBinary(x) && |x| == |bits|
    ensures HoldsAll(Minterm(bits), x) <==> x == bits
  {
    var m := Minterm(bits);
    if HoldsAll(m, x) {
      forall i | 0 <= i < |x| ensures x[i] == bits[i] {
        assert Holds(m[i], x);
      }
    }
  }
}
