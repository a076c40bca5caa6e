/** Order-preserving list operations the editors, the dashboard and the type registry share. */
module Lists {

  /** `a` can be obtained from `b` by deleting elements, keeping the order of the rest. */
  ghost predicate SubsequenceOf<T>(a: seq<T>, b: seq<T>)
    decreases |b|
  {
    || |a| == 0
    || (|b| > 0 && ((a[0] == b[0] && SubsequenceOf(a[1..], b[1..])) || SubsequenceOf(a, b[1..])))
  }

  /** `rows.filter(keep)`. */
  function Filter<T(==)>(rows: seq<T>, keep: T -> bool): (r: seq<T>)
    ensures |r| <= |rows|
    ensures forall i :: 0 <= i < |r| ==> keep(r[i]) && r[i] in rows
    ensures forall i :: 0 <= i < |rows| && keep(rows[i]) ==> rows[i] in r
    ensures (forall i :: 0 <= i < |rows| ==> keep(rows[i])) ==> r == rows
    ensures SubsequenceOf(r, rows)
    decreases |rows|
  {
    if |rows| == 0 then []
    else
      var rest := Filter(rows[1..], keep);
      assert rows == [rows[0]] + rows[1..];
      if keep(rows[0]) then
        assert ([rows[0]] + rest)[1..] == rest;
        [rows[0]] + rest
      else rest
  }

  /** Every kept value occurs in the result as often as in the list; every other value not at all. */
  lemma {:induction false} FilterMultiplicity<T(!new)>(rows: seq<T>, keep: T -> bool)
    ensures forall x :: multiset(Filter(rows, keep))[x] == if keep(x) then multiset(rows)[x] else 0
    decreases |rows|
  {
    if |rows| > 0 {
      FilterMultiplicity(rows[1..], keep);
      var rest := Filter(rows[1..], keep);
      assert rows == [rows[0]] + rows[1..];
      assert multiset(rows) == multiset([rows[0]]) + multiset(rows[1..]);
      assert multiset([rows[0]] + rest) == multiset([rows[0]]) + multiset(rest);
    }
  }

  /** `rows.filter((_, i) => i !== index)`: out-of-range indices delete nothing. */
  function RemoveAt<T>(rows: seq<T>, index: int): (r: seq<T>)
    ensures 0 <= index < |rows| ==> r == rows[..index] + rows[index + 1..]
    ensures !(0 <= index < |rows|) ==> r == rows
    decreases |rows|
  {
    if |rows| == 0 then []
    else (if index == 0 then [] else [rows[0]]) + RemoveAt(rows[1..], index - 1)
  }

  /** Removing the row just appended undoes the append. */
  lemma RemoveAppended<T>(rows: seq<T>, row: T)
    ensures RemoveAt(rows + [row], |rows|) == rows
  {
    assert (rows + [row])[..|rows|] == rows;
  }

  /** The position of the first `x` in `xs`, or `|xs|` when there is none. */
  function IndexOf<T(==)>(xs: seq<T>, x: T): (k: nat)
    ensures k <= |xs|
    ensures k < |xs| <==> x in xs
    ensures k < |xs| ==> xs[k] == x
    ensures forall j :: 0 <= j < k ==> xs[j] != x
  {
    if |xs| == 0 || xs[0] == x then 0 else 1 + IndexOf(xs[1..], x)
  }

  /** Filtering by the same predicate a second time removes nothing more. */
  lemma FilterIdempotent<T>(rows: seq<T>, keep: T -> bool)
    ensures Filter(Filter(rows, keep), keep) == Filter(rows, keep)
  {
    var once := Filter(rows, keep);
    assert forall i :: 0 <= i < |once| ==> keep(once[i]);
  }

  /** Filtering distributes over concatenation. */
  lemma {:induction false} FilterAppend<T>(a: seq<T>, b: seq<T>, keep: T -> bool)
    ensures Filter(a + b, keep) == Filter(a, keep) + Filter(b, keep)
    decreases |a|
  {
    if |a| > 0 {
      assert (a + b)[1..] == a[1..] + b;
      FilterAppend(a[1..], b, keep);
    } else {
      assert a + b == b;
    }
  }

  /** A subsequence that misses an element of `b` is shorter than `b`. */
  lemma {:induction false} SubsequenceMissingShorter<T>(a: seq<T>, b: seq<T>, x: T)
    requires SubsequenceOf(a, b) && x in b && x !in a
    ensures |a| < |b|
    decreases |b|
  {
    if |a| == 0 {
    } else if a[0] == b[0] && SubsequenceOf(a[1..], b[1..]) {
      assert x != b[0] by { assert a[0] in a; }
      assert x in b[1..];
      assert forall k :: 0 <= k < |a[1..]| ==> a[1..][k] == a[k + 1];
      SubsequenceMissingShorter(a[1..], b[1..], x);
    } else {
      if x == b[0] {
        SubsequenceLength(a, b[1..]);
      } else {
        assert x in b[1..];
        SubsequenceMissingShorter(a, b[1..], x);
      }
    }
  }

  /** A subsequence is no longer than the sequence it comes from. */
  lemma {:induction false} SubsequenceLength<T>(a: seq<T>, b: seq<T>)
    requires SubsequenceOf(a, b)
    ensures |a| <= |b|
    decreases |b|
  {
    if |a| > 0 {
      if a[0] == b[0] && SubsequenceOf(a[1..], b[1..]) {
        SubsequenceLength(a[1..], b[1..]);
      } else {
        SubsequenceLength(a, b[1..]);
      }
    }
  }
}
