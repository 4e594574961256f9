/** Keyed, insertion-ordered tables: lookup by first match, distinct keys, sums. */
module Keys {

  ghost predicate Distinct(names: seq<string>) {
    forall i, j :: 0 <= i < j < |names| ==> names[i] != names[j]
  }

  /** Position of the first entry equal to `name`, or `|names|` when there is
      none (the behaviour of `Array.prototype.find` on a name). */
  function IndexOf(names: seq<string>, name: string): (i: nat)
    ensures i <= |names|
    ensures i < |names| ==> names[i] == name
    ensures forall j :: 0 <= j < i ==> names[j] != name
  {
    if names == [] then 0
    else if names[0] == name then 0
    else 1 + IndexOf(names[1..], name)
  }

  /** Appending a name keeps earlier positions and finds the new name at the end. */
  lemma {:induction false} IndexOfAppend(names: seq<string>, extra: string, name: string)
    ensures IndexOf(names + [extra], name)
            == if name in names then IndexOf(names, name) else if name == extra then |names| else |names| + 1
  {
    var s := names + [extra];
    assert forall j :: 0 <= j < |names| ==> s[j] == names[j];
    if name in names {
      assert s[IndexOf(names, name)] == name;
    } else {
      assert s[|names|] == extra;
    }
  }

  /** Appending a name not yet present keeps the names distinct. */
  lemma DistinctAppend(names: seq<string>, extra: string)
    ensures Distinct(names) && extra !in names ==> Distinct(names + [extra])
  {
    if Distinct(names) && extra !in names {
      var s := names + [extra];
      forall i, j | 0 <= i < j < |s| ensures s[i] != s[j] {
        if j == |names| { assert s[i] == names[i]; }
      }
    }
  }

  function Sum(xs: seq<int>): int {
    if xs == [] then 0 else Sum(xs[..|xs| - 1]) + xs[|xs| - 1]
  }

  lemma SumAppend(xs: seq<int>, v: int)
    ensures Sum(xs + [v]) == Sum(xs) + v
  {
    assert (xs + [v])[..|xs|] == xs;
  }

  /** Replacing one entry changes the sum by exactly the difference. */
  lemma {:induction false} SumUpdate(xs: seq<int>, j: nat, v: int)
    requires j < |xs|
    ensures Sum(xs[j := v]) == Sum(xs) - xs[j] + v
  {
    var n := |xs| - 1;
    if j == n {
      assert xs[j := v][..n] == xs[..n];
    } else {
      SumUpdate(xs[..n], j, v);
      assert xs[j := v][..n] == xs[..n][j := v];
    }
  }

  lemma {:induction false} SumNonNegative(xs: seq<int>)
    requires forall i :: 0 <= i < |xs| ==> xs[i] >= 0
    ensures Sum(xs) >= 0
  {
    if xs != [] { SumNonNegative(xs[..|xs| - 1]); }
  }

  /** The sum of two runs is the sum of their sums. */
  lemma {:induction false} SumConcat(xs: seq<int>, ys: seq<int>)
    ensures Sum(xs + ys) == Sum(xs) + Sum(ys)
  {
    if ys == [] {
      assert xs + ys == xs;
    } else {
      var n := |ys| - 1;
      SumConcat(xs, ys[..n]);
      assert (xs + ys)[..|xs| + n] == xs + ys[..n];
    }
  }

  lemma {:induction false} SumZeros(xs: seq<int>)
    requires forall i :: 0 <= i < |xs| ==> xs[i] == 0
    ensures Sum(xs) == 0
  {
    if xs != [] { SumZeros(xs[..|xs| - 1]); }
  }
}
