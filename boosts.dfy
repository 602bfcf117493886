/**
 Cat boosts: each collected cat adds an expiry timestamp; expired ones are dropped every
 frame and the speed multiplier grows linearly with the number still active.
 */
module Boosts {
  import opened World

  /** The boosts still active at `time`, in their original order. */
  function Unexpired(boosts: seq<real>, time: real): (r: seq<real>)
    ensures |r| <= |boosts|
    ensures forall k :: 0 <= k < |r| ==> r[k] > time
    ensures forall k :: 0 <= k < |boosts| && boosts[k] > time ==> boosts[k] in r
    ensures forall e :: e in r ==> e in boosts
  {
    if boosts == [] then []
    else (if boosts[0] > time then [boosts[0]] else []) + Unexpired(boosts[1..], time)
  }

  /** One multiplier step per active boost, on top of the base speed 1. */
  function SpeedMultiplier(active: nat): (m: real)
    ensures m >= 1.0 && (m == 1.0 <==> active == 0)
  {
    1.0 + active as real * CatBoostAmount
  }

  /** Every additional active boost makes the player strictly faster. */
  lemma SpeedMultiplierIncreasing(fewer: nat, more: nat)
    requires fewer < more
    ensures SpeedMultiplier(fewer) < SpeedMultiplier(more)
  {
  }

  /** Filtering never duplicates a boost: each expiry is kept at most as often as it occurred. */
  lemma {:induction false} UnexpiredSubMultiset(boosts: seq<real>, time: real)
    ensures multiset(Unexpired(boosts, time)) <= multiset(boosts)
  {
    if boosts != [] {
      assert boosts == [boosts[0]] + boosts[1..];
      UnexpiredSubMultiset(boosts[1..], time);
    }
  }

  /** Filtering twice at the same time changes nothing. */
  lemma UnexpiredIdempotent(boosts: seq<real>, time: real)
    ensures Unexpired(Unexpired(boosts, time), time) == Unexpired(boosts, time)
  {
    UnexpiredKeepsActive(Unexpired(boosts, time), time);
  }

  /** Filtering keeps everything that has not expired yet. */
  lemma {:induction false} UnexpiredKeepsActive(boosts: seq<real>, time: real)
    requires forall k :: 0 <= k < |boosts| ==> boosts[k] > time
    ensures Unexpired(boosts, time) == boosts
  {
    if boosts != [] {
      UnexpiredKeepsActive(boosts[1..], time);
    }
  }

  /** Filtering distributes over appending, so a pushed boost lands at the end. */
  lemma {:induction false} UnexpiredAppend(a: seq<real>, b: seq<real>, time: real)
    ensures Unexpired(a + b, time) == Unexpired(a, time) + Unexpired(b, time)
  {
    if a != [] {
      assert (a + b)[1..] == a[1..] + b;
      UnexpiredAppend(a[1..], b, time);
    } else {
      assert a + b == b;
    }
  }

  /**
   Three overlapping cats collected at c1 <= c2 <= c3: the multiplier is 1.6 while all
   three are active and drops to 1.4 once the earliest has expired.
   */
  lemma ThreeOverlappingBoosts(c1: real, c2: real, c3: real, t1: real, t2: real)
    requires c1 <= c2 <= c3
    requires t1 < c1 + CatBoostDuration
    requires c1 + CatBoostDuration <= t2 < c2 + CatBoostDuration
    ensures var boosts := [c1 + CatBoostDuration, c2 + CatBoostDuration, c3 + CatBoostDuration];
            SpeedMultiplier(|Unexpired(boosts, t1)|) == 1.6
            && SpeedMultiplier(|Unexpired(boosts, t2)|) == 1.4
  {
    var boosts := [c1 + CatBoostDuration, c2 + CatBoostDuration, c3 + CatBoostDuration];
    UnexpiredKeepsActive(boosts, t1);
    UnexpiredKeepsActive(boosts[1..], t2);
    assert Unexpired(boosts, t2) == Unexpired(boosts[1..], t2);
    assert |Unexpired(boosts, t1)| == 3 && |Unexpired(boosts, t2)| == 2;
  }
}
