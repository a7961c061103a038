/** Bounded retention: keep the longest suffix of a history whose total weight
    fits a budget. The PTY scrollback (weight = bytes, budget = 64 KiB) and the
    chat backlog (weight = 1, budget = 50) are the two instances. */
module Retention {

  function Weight<E>(s: seq<E>, w: E -> nat): nat {
    if s == [] then 0 else w(s[0]) + Weight(s[1..], w)
  }

  /** Index of the first retained element of history `h`. */
  function Start<E>(h: seq<E>, w: E -> nat, budget: nat): (k: nat)
    ensures k <= |h|
  {
    if Weight(h, w) <= budget then 0 else 1 + Start(h[1..], w, budget)
  }

  function Retained<E>(h: seq<E>, w: E -> nat, budget: nat): seq<E> {
    h[Start(h, w, budget)..]
  }

  /** `r` is a suffix of `h` that fits, and no longer suffix does. */
  ghost predicate IsLongestFittingSuffix<E>(r: seq<E>, h: seq<E>, w: E -> nat, budget: nat) {
    && |r| <= |h|
    && r == h[|h| - |r|..]
    && Weight(r, w) <= budget
    && forall k :: 0 <= k < |h| - |r| ==> Weight(h[k..], w) > budget
  }

  lemma {:induction false} WeightAppend<E>(s: seq<E>, e: E, w: E -> nat)
    ensures Weight(s + [e], w) == Weight(s, w) + w(e)
  {
    if s == [] {
      assert s + [e] == [e];
    } else {
      assert (s + [e])[1..] == s[1..] + [e];
      WeightAppend(s[1..], e, w);
    }
  }

  lemma {:induction false} RetainedIsLongest<E>(h: seq<E>, w: E -> nat, budget: nat)
    ensures IsLongestFittingSuffix(Retained(h, w, budget), h, w, budget)
  {
    if Weight(h, w) > budget {
      var t := h[1..];
      RetainedIsLongest(t, w, budget);
      assert Retained(h, w, budget) == Retained(t, w, budget);
      forall k | 0 <= k < |h| - |Retained(h, w, budget)|
        ensures Weight(h[k..], w) > budget
      {
        if k > 0 {
          assert h[k..] == t[k - 1..];
        }
      }
    }
  }

  /** The longest fitting suffix is unique, so the predicate pins the ring down. */
  lemma LongestIsRetained<E>(r: seq<E>, h: seq<E>, w: E -> nat, budget: nat)
    requires IsLongestFittingSuffix(r, h, w, budget)
    ensures r == Retained(h, w, budget)
  {
    RetainedIsLongest(h, w, budget);
    var q := Retained(h, w, budget);
    assert q == h[|h| - |q|..];
    assert |r| >= |q|;
  }

  /** A suffix of `h + [e]` that starts before the trimmed ring does is too heavy. */
  lemma TooHeavyAfterPush<E>(h: seq<E>, e: E, k: nat, w: E -> nat, budget: nat)
    requires k < Start(h, w, budget)
    ensures Weight((h + [e])[k..], w) > budget
  {
    RetainedIsLongest(h, w, budget);
    assert (h + [e])[k..] == h[k..] + [e];
    WeightAppend(h[k..], e, w);
  }

  /** Trimming an already trimmed ring after one more push gives what trimming
      the whole history would give: nothing that still fits was lost. */
  lemma RetainedPush<E>(h: seq<E>, e: E, w: E -> nat, budget: nat)
    ensures Retained(Retained(h, w, budget) + [e], w, budget) == Retained(h + [e], w, budget)
  {
    var d := Start(h, w, budget);
    var all := h + [e];
    var ring := h[d..] + [e];
    assert all[d..] == ring;
    StartAfterDrop(all, d, w, budget) by {
      forall k | 0 <= k < d ensures Weight(all[k..], w) > budget {
        TooHeavyAfterPush(h, e, k, w, budget);
      }
    }
    assert all[d..][Start(ring, w, budget)..] == all[d + Start(ring, w, budget)..];
  }

  /** Elements that are too heavy as a prefix can be skipped before trimming. */
  lemma {:induction false} StartAfterDrop<E>(h: seq<E>, d: nat, w: E -> nat, budget: nat)
    requires d <= |h|
    requires forall k :: 0 <= k < d ==> Weight(h[k..], w) > budget
    ensures Start(h, w, budget) == d + Start(h[d..], w, budget)
  {
    if d > 0 {
      assert h[0..] == h;
      forall k | 0 <= k < d - 1 ensures Weight(h[1..][k..], w) > budget {
        assert h[1..][k..] == h[k + 1..];
      }
      StartAfterDrop(h[1..], d - 1, w, budget);
      assert h[1..][d - 1..] == h[d..];
    } else {
      assert h[0..] == h;
    }
  }

  lemma RetainedIsSuffix<E>(h: seq<E>, w: E -> nat, budget: nat)
    ensures var r := Retained(h, w, budget);
            |r| <= |h| && r == h[|h| - |r|..]
  {
  }

  lemma AlreadyFits<E>(ring: seq<E>, w: E -> nat, budget: nat)
    requires Weight(ring, w) <= budget
    ensures Retained(ring, w, budget) == ring
  {
    assert ring[0..] == ring;
  }

  lemma DropFront<E>(ring: seq<E>, w: E -> nat, budget: nat)
    requires Weight(ring, w) > budget
    ensures ring != [] && Weight(ring, w) == w(ring[0]) + Weight(ring[1..], w)
    ensures Retained(ring[1..], w, budget) == Retained(ring, w, budget)
  {
    var k := Start(ring[1..], w, budget);
    assert ring[1..][k..] == ring[k + 1..];
  }

  /** Once something was dropped, the ring is within one element of full. */
  lemma NearlyFull<E>(h: seq<E>, w: E -> nat, budget: nat, most: nat)
    requires forall i :: 0 <= i < |h| ==> w(h[i]) <= most
    requires |Retained(h, w, budget)| < |h|
    ensures Weight(Retained(h, w, budget), w) + most > budget
  {
    RetainedIsLongest(h, w, budget);
    var k := Start(h, w, budget);
    assert Weight(h[k - 1..], w) > budget;
    assert h[k - 1..][1..] == h[k..];
  }

  lemma {:induction false} UnitWeight<E(!new)>(s: seq<E>, w: E -> nat)
    requires forall e :: w(e) == 1
    ensures Weight(s, w) == |s|
  {
    if s != [] {
      UnitWeight(s[1..], w);
    }
  }

  /** With unit weights the ring is the last min(budget, n) elements. */
  lemma LastN<E(!new)>(h: seq<E>, w: E -> nat, budget: nat)
    requires forall e :: w(e) == 1
    ensures Retained(h, w, budget) == if |h| <= budget then h else h[|h| - budget..]
  {
    var r := if |h| <= budget then h else h[|h| - budget..];
    UnitWeight(r, w);
    forall k | 0 <= k < |h| - |r|
      ensures Weight(h[k..], w) > budget
    {
      UnitWeight(h[k..], w);
    }
    LongestIsRetained(r, h, w, budget);
  }
}
