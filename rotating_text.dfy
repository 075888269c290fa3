/**
 * The rotating headline: a list of texts shown one at a time, the index
 * moving on by one at every timer tick and wrapping round after the last.
 */
module Rotation {

  /** `(prevIndex + 1) % texts.length` for an index in range. */
  function NextIndex(index: nat, count: nat): (next: nat)
    requires index < count
    ensures next < count
    ensures index == count - 1 ==> next == 0
    ensures index < count - 1 ==> next == index + 1
  {
    (index + 1) % count
  }

  /** The index after `ticks` timer ticks. */
  function Advanced(index: nat, count: nat, ticks: nat): (later: nat)
    requires index < count
    ensures later < count
  {
    if ticks == 0 then index else NextIndex(Advanced(index, count, ticks - 1), count)
  }

  /** After `ticks` ticks the index has moved on by `ticks` places, cyclically. */
  lemma {:induction false} AdvancedIsModular(index: nat, count: nat, ticks: nat)
    requires index < count
    ensures Advanced(index, count, ticks) == (index + ticks) % count
  {
    if ticks > 0 {
      AdvancedIsModular(index, count, ticks - 1);
      SuccessorMod(index + ticks - 1, count);
    }
  }

  /** Moving on by one from `a % n` gives `(a + 1) % n`. */
  lemma SuccessorMod(a: nat, n: nat)
    requires n > 0
    ensures ((a % n) + 1) % n == (a + 1) % n
  {
    var q, r := a / n, a % n;
    assert a == q * n + r;
    if r + 1 < n {
      ModOfDecomposition(r + 1, n, 0, r + 1);
      ModOfDecomposition(a + 1, n, q, r + 1);
    } else {
      ModOfDecomposition(r + 1, n, 1, 0);
      assert (q + 1) * n == q * n + n;
      ModOfDecomposition(a + 1, n, q + 1, 0);
    }
  }

  /** The remainder is the unique `r` in `[0, n)` with `x == q * n + r`. */
  lemma ModOfDecomposition(x: nat, n: nat, q: int, r: int)
    requires n > 0 && 0 <= r < n && x == q * n + r
    ensures x % n == r
  {
    var q', r' := x / n, x % n;
    assert x == q' * n + r';
    var d := q - q';
    assert d * n == q * n - q' * n;
    NonzeroMultipleBound(d, n);
  }

  /** A non-zero multiple of `n` is at least `n` away from zero. */
  lemma NonzeroMultipleBound(d: int, n: int)
    requires n >= 0
    ensures d >= 1 ==> d * n >= n
    ensures d <= -1 ==> d * n <= -n
  {
    if d >= 1 {
      assert d * n == n + (d - 1) * n;
    } else if d <= -1 {
      assert d * n == -n - (-d - 1) * n;
    }
  }

  /** A full cycle of `count` ticks brings every index back to itself. */
  lemma FullCycleReturns(index: nat, count: nat)
    requires index < count
    ensures Advanced(index, count, count) == index
  {
    AdvancedIsModular(index, count, count);
    ModOfDecomposition(index + count, count, 1, index);
  }

  /** The component's state: the texts it is given and the index shown. */
  class RotatingText {
    const texts: seq<string>
    var currentIndex: nat

    ghost predicate Valid()
      reads this
    {
      currentIndex < |texts|
    }

    /** `useState(0)`: the first text is shown first. */
    constructor (texts: seq<string>)
      requires |texts| > 0
      ensures Valid()
      ensures this.texts == texts && currentIndex == 0
    {
      this.texts := texts;
      currentIndex := 0;
    }

    /** One timer tick: the updater `(prevIndex + 1) % texts.length`. */
    method Tick()
      requires Valid()
      modifies this
      ensures Valid()
      ensures currentIndex == NextIndex(old(currentIndex), |texts|)
    {
      currentIndex := (currentIndex + 1) % |texts|;
    }

    /** `texts[currentIndex]`: the displayed string is always one of the texts. */
    function Displayed(): (s: string)
      reads this
      requires Valid()
      ensures s in texts
    {
      texts[currentIndex]
    }
  }
}
