/**
 * The two array transforms the client applies to its device lists:
 * `xs.map(x => hit(x) ? f(x) : x)` and `xs.filter(x => !hit(x))`.
 */
module Lists {

  /** `xs.map(x => hit(x) ? f(x) : x)`: rewrites the entries `hit` selects, in place. */
  function MapWhere<T>(xs: seq<T>, hit: T -> bool, f: T -> T): (r: seq<T>)
    ensures |r| == |xs|
    ensures forall i | 0 <= i < |xs| :: r[i] == if hit(xs[i]) then f(xs[i]) else xs[i]
  {
    if xs == [] then [] else [if hit(xs[0]) then f(xs[0]) else xs[0]] + MapWhere(xs[1..], hit, f)
  }

  /** `xs.filter(x => !hit(x))`: drops the entries `hit` selects. */
  function Without<T>(xs: seq<T>, hit: T -> bool): (r: seq<T>)
    ensures |r| <= |xs|
    ensures forall i | 0 <= i < |r| :: !hit(r[i])
  {
    if xs == [] then [] else (if hit(xs[0]) then [] else [xs[0]]) + Without(xs[1..], hit)
  }

  /** How many entries `hit` selects. */
  function Count<T>(xs: seq<T>, hit: T -> bool): (n: nat)
    ensures n <= |xs|
  {
    if xs == [] then 0 else (if hit(xs[0]) then 1 else 0) + Count(xs[1..], hit)
  }

  /** Filtering distributes over concatenation, so the kept entries stay in their order. */
  lemma {:induction false} WithoutAppend<T>(xs: seq<T>, ys: seq<T>, hit: T -> bool)
    ensures Without(xs + ys, hit) == Without(xs, hit) + Without(ys, hit)
  {
    if xs == [] {
      assert xs + ys == ys;
    } else {
      assert (xs + ys)[1..] == xs[1..] + ys;
      WithoutAppend(xs[1..], ys, hit);
    }
  }

  /** An entry survives the filter exactly when it was there and is not selected. */
  lemma {:induction false} WithoutMembers<T>(xs: seq<T>, hit: T -> bool, x: T)
    ensures x in Without(xs, hit) <==> x in xs && !hit(x)
  {
    if xs != [] {
      WithoutMembers(xs[1..], hit, x);
      assert xs == [xs[0]] + xs[1..];
    }
  }

  /** The filter removes exactly the selected entries. */
  lemma {:induction false} WithoutLength<T>(xs: seq<T>, hit: T -> bool)
    ensures |Without(xs, hit)| == |xs| - Count(xs, hit)
  {
    if xs != [] {
      WithoutLength(xs[1..], hit);
    }
  }

  /** When nothing is selected, the filter changes nothing. */
  lemma {:induction false} WithoutNothing<T>(xs: seq<T>, hit: T -> bool)
    requires forall i | 0 <= i < |xs| :: !hit(xs[i])
    ensures Without(xs, hit) == xs
  {
    if xs != [] {
      WithoutNothing(xs[1..], hit);
    }
  }

  /** No entry is selected exactly when the count is zero. */
  lemma {:induction false} CountZero<T>(xs: seq<T>, hit: T -> bool)
    ensures Count(xs, hit) == 0 <==> forall i | 0 <= i < |xs| :: !hit(xs[i])
  {
    if xs != [] {
      CountZero(xs[1..], hit);
      if Count(xs, hit) == 0 {
        forall i | 0 <= i < |xs| ensures !hit(xs[i]) {
          if i > 0 { assert xs[i] == xs[1..][i - 1]; }
        }
      }
    }
  }
}
