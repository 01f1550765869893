/**
 * `getTwoRandomImages` of the advertisement strip. The two `Math.random`
 * draws are taken as inputs already scaled and floored: `r1` in [0, n) and
 * `r2` in [0, n - 1), where n is the number of images.
 */
module AdPicker {
  import opened Optional

  /** The conditional increment of `secondIdx`: skips over the first index. */
  function SkipOver(first: nat, r: nat): nat {
    if r >= first then r + 1 else r
  }

  /** The two indices `getTwoRandomImages` reads; with fewer than two images both are 0. */
  function ChosenIndices(n: nat, r1: nat, r2: nat): (r: (nat, nat))
    requires n >= 2 ==> r1 < n && r2 < n - 1
    ensures n < 2 ==> r == (0, 0)
    ensures n >= 2 ==> r.0 == r1 && r.0 < n && r.1 < n && r.0 != r.1
  {
    if n < 2 then (0, 0) else (r1, SkipOver(r1, r2))
  }

  /**
   * The two images shown. With no image both are `undefined` (None); with one
   * image it is shown twice; otherwise two different entries of the list.
   */
  function TwoRandomImages<T>(images: seq<T>, r1: nat, r2: nat): (r: (Option<T>, Option<T>))
    requires |images| >= 2 ==> r1 < |images| && r2 < |images| - 1
    ensures |images| == 0 ==> r == (None, None)
    ensures |images| == 1 ==> r == (Some(images[0]), Some(images[0]))
    ensures |images| >= 2 ==>
      && r.0 == Some(images[r1])
      && exists j :: 0 <= j < |images| && j != r1 && r.1 == Some(images[j])
  {
    var (i, j) := ChosenIndices(|images|, r1, r2);
    if |images| == 0 then (None, None) else (Some(images[i]), Some(images[j]))
  }

  /** The second draw is mapped injectively ... */
  lemma SkipOverInjective(first: nat, a: nat, b: nat)
    ensures SkipOver(first, a) == SkipOver(first, b) ==> a == b
  {
  }

  /** The indices the second draw can produce when the first is `first`. */
  function SecondChoices(n: nat, first: nat): set<nat> {
    set r | 0 <= r < n - 1 :: SkipOver(first, r)
  }

  /**
   * ... and onto every index but the first: the values of `SkipOver(first, r)`
   * for r in [0, n - 1) are exactly [0, n) without `first`, so every other
   * image can be chosen, each by exactly one draw.
   */
  lemma {:induction false} SkipOverOnto(n: nat, first: nat)
    requires first < n
    ensures forall j :: j in SecondChoices(n, first) <==> 0 <= j < n && j != first
  {
    forall j: nat | 0 <= j < n && j != first ensures j in SecondChoices(n, first) {
      var r := if j > first then j - 1 else j;
      assert 0 <= r < n - 1 && SkipOver(first, r) == j;
    }
  }
}
