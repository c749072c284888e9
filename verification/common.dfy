/** Small value-level helpers shared by the other modules: an optional value (Java's `null`),
    the decimal text Java produces for `"" + n`, substring occurrence, and the label join of
    Apache Commons `StringUtils.join`. */
module Common {

  /** A value that may be absent; `None` stands for a Java `null`. */
  datatype Option<+T> = None | Some(value: T)

  /** True when `w` occurs in `s` starting at position `i`. */
  predicate OccursAt(s: string, i: nat, w: string)
  {
    i + |w| <= |s| && s[i..i + |w|] == w
  }

  function DigitChar(d: nat): char
    requires d < 10
  {
    "0123456789"[d]
  }

  /** Decimal digits of a natural number, most significant first. */
  function NaturalDecimal(n: nat): string
    decreases n
  {
    if n < 10 then [DigitChar(n)] else NaturalDecimal(n / 10) + [DigitChar(n % 10)]
  }

  /** The text Java gives `"" + n` for an integer `n`. */
  function Decimal(n: int): string
  {
    if n < 0 then "-" + NaturalDecimal(-n) else NaturalDecimal(n)
  }

  /** `StringUtils.join(items, sep)`: the items in order with `sep` between neighbours. */
  function Join(items: seq<string>, sep: string): string
  {
    if items == [] then ""
    else if |items| == 1 then items[0]
    else items[0] + sep + Join(items[1..], sep)
  }

  /** An occurrence inside the right operand of a concatenation is an occurrence in the whole. */
  lemma OccursInSuffix(u: string, t: string, i: nat, w: string)
    requires OccursAt(t, i, w)
    ensures OccursAt(u + t, |u| + i, w)
  {
    assert (u + t)[|u| + i..|u| + i + |w|] == t[i..i + |w|];
  }

  /** An occurrence inside the left operand of a concatenation is an occurrence in the whole. */
  lemma OccursInPrefix(u: string, t: string, i: nat, w: string)
    requires OccursAt(u, i, w)
    ensures OccursAt(u + t, i, w)
  {
    assert (u + t)[i..i + |w|] == u[i..i + |w|];
  }

  /** An occurrence inside an occurrence is an occurrence. */
  lemma OccursWithin(s: string, p: nat, inner: string, q: nat, w: string)
    requires OccursAt(s, p, inner) && OccursAt(inner, q, w)
    ensures OccursAt(s, p + q, w)
  {
    forall j | 0 <= j < |w|
      ensures s[p + q + j] == w[j]
    {
      assert s[p..p + |inner|][q + j] == inner[q + j];
      assert inner[q..q + |w|][j] == w[j];
    }
    assert s[p + q..p + q + |w|] == w;
  }

  /** Every item appears, whole, somewhere in the joined text. */
  lemma {:induction false} JoinContainsItem(items: seq<string>, sep: string, k: nat)
    requires k < |items|
    ensures exists p: nat :: OccursAt(Join(items, sep), p, items[k])
    decreases |items|
  {
    if |items| == 1 {
      assert OccursAt(Join(items, sep), 0, items[k]);
    } else if k == 0 {
      OccursInPrefix(items[0], sep + Join(items[1..], sep), 0, items[0]);
      assert Join(items, sep) == items[0] + (sep + Join(items[1..], sep));
      assert OccursAt(Join(items, sep), 0, items[k]);
    } else {
      JoinContainsItem(items[1..], sep, k - 1);
      var p: nat :| OccursAt(Join(items[1..], sep), p, items[1..][k - 1]);
      OccursInSuffix(items[0] + sep, Join(items[1..], sep), p, items[k]);
      assert OccursAt(Join(items, sep), |items[0] + sep| + p, items[k]);
    }
  }
}
