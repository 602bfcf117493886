/**
 What one frame's sweep over the falling entities does to each of them.  The sweep visits the
 entities from the last spawned to the first; each falls first and is then tested:
 a lava entity touching the player ends the game and stops the sweep, a cat touching the
 player is collected and removed, and an entity below the despawn height is removed.
 */
module RainSweep {
  import opened World

  /** What the sweep does with one entity once it has fallen. */
  datatype Fate = Hit | Collect | Despawn | Stay

  /** An entity after one frame of falling. */
  function Fall(d: Drop, fall: real): (e: Drop)
    ensures e.kind == d.kind && e.x == d.x
    ensures e.y + fall == d.y
    ensures fall >= 0.0 ==> e.y <= d.y
  {
    d.(y := d.y - fall)
  }

  function FateOf(d: Drop, px: real, py: real, fall: real): (f: Fate)
    ensures f == Hit ==> d.kind == Lava
    ensures f == Collect ==> d.kind == Cat
    ensures (f == Hit || f == Collect) <==> Collides(Fall(d, fall), px, py)
  {
    var e := Fall(d, fall);
    assert e.kind == Lava || e.kind == Cat;
    if e.kind == Lava && Collides(e, px, py) then Hit
    else if e.kind == Cat && Collides(e, px, py) then Collect
    else if e.y < DespawnY then Despawn
    else Stay
  }

  /**
   A lava entity is a hit exactly when it touches the player, a cat is collected exactly when
   it touches the player, and an entity that touches nothing is removed exactly when it has
   fallen below the despawn height.
   */
  lemma FateMeaning(d: Drop, px: real, py: real, fall: real)
    ensures var f := FateOf(d, px, py, fall);
            && (f == Hit <==> d.kind == Lava && Collides(Fall(d, fall), px, py))
            && (f == Collect <==> d.kind == Cat && Collides(Fall(d, fall), px, py))
            && (f == Despawn <==> !Collides(Fall(d, fall), px, py) && d.y - fall < DespawnY)
            && (f == Stay <==> !Collides(Fall(d, fall), px, py) && d.y - fall >= DespawnY)
  {
    assert d.kind == Lava || d.kind == Cat;
  }

  /**
   The classifier a frame's sweep applies to every entity.  The sweep's definitions below
   are stated for any classifier, so that reasoning about the order of the sweep does not
   depend on the geometry of a hit.
   */
  function Fates(px: real, py: real, fall: real): (fate: Drop -> Fate)
    ensures forall d :: fate(d) == FateOf(d, px, py, fall)
  {
    d => FateOf(d, px, py, fall)
  }

  /** The entities a sweep without a lava hit keeps, fallen and in their original order. */
  function Survivors(s: seq<Drop>, fate: Drop -> Fate, fall: real): (r: seq<Drop>)
    ensures |r| <= |s|
  {
    if s == [] then []
    else (if fate(s[0]) == Stay then [Fall(s[0], fall)] else []) + Survivors(s[1..], fate, fall)
  }

  /** Every survivor is the fallen copy of an entity whose fate is to stay. */
  lemma {:induction false} SurvivorsStay(s: seq<Drop>, fate: Drop -> Fate, fall: real, e: Drop)
    requires e in Survivors(s, fate, fall)
    ensures exists k :: 0 <= k < |s| && fate(s[k]) == Stay && e == Fall(s[k], fall)
  {
    if fate(s[0]) == Stay && e == Fall(s[0], fall) {
      assert fate(s[0]) == Stay && e == Fall(s[0], fall);
    } else {
      SurvivorsStay(s[1..], fate, fall, e);
      var k :| 0 <= k < |s[1..]| && fate(s[1..][k]) == Stay && e == Fall(s[1..][k], fall);
      assert s[1..][k] == s[k + 1];
    }
  }

  /** The number of cats a sweep without a lava hit collects. */
  function Collected(s: seq<Drop>, fate: Drop -> Fate): (n: nat)
    ensures n <= |s|
    ensures n > 0 ==> exists k :: 0 <= k < |s| && fate(s[k]) == Collect
  {
    if s == [] then 0
    else (if fate(s[0]) == Collect then 1 else 0) + Collected(s[1..], fate)
  }

  /** The index of the last-spawned lava entity that hits the player, if any. */
  function LastHit(s: seq<Drop>, fate: Drop -> Fate): (r: Option<nat>)
    ensures r.Some? ==>
              && r.value < |s| && fate(s[r.value]) == Hit
              && forall k :: r.value < k < |s| ==> fate(s[k]) != Hit
    ensures r.None? ==> forall k :: 0 <= k < |s| ==> fate(s[k]) != Hit
  {
    if s == [] then None
    else if fate(s[|s| - 1]) == Hit then Some(|s| - 1)
    else LastHit(s[..|s| - 1], fate)
  }

  /** What a whole sweep leaves: the entities, the cats collected and whether lava hit. */
  datatype Swept = Swept(rain: seq<Drop>, cats: nat, hit: bool)

  /**
   The sweep as a function: the last entity is visited first.  A lava hit stops the sweep,
   leaving every earlier entity as it was; otherwise the rest is swept and the last entity
   is kept (fallen) or removed behind it.
   */
  function Sweep(s: seq<Drop>, fate: Drop -> Fate, fall: real): (r: Swept)
    ensures |r.rain| <= |s| && r.cats <= |s|
    ensures r.hit <==> exists k :: 0 <= k < |s| && fate(s[k]) == Hit
  {
    if s == [] then Swept([], 0, false)
    else
      var last := s[|s| - 1];
      if fate(last) == Hit then Swept(s[..|s| - 1] + [Fall(last, fall)], 0, true)
      else
        var r := Sweep(s[..|s| - 1], fate, fall);
        Swept(r.rain + (if fate(last) == Stay then [Fall(last, fall)] else []),
              r.cats + (if fate(last) == Collect then 1 else 0),
              r.hit)
  }

  /**
   The sweep in closed form.  Without a lava hit it keeps exactly the survivors in order
   and collects every touched cat.  With one, it stops at the last-spawned lava entity that
   hits: that entity and all older ones stay (only it has fallen), and the cats collected
   are those among the newer entities.
   */
  lemma SweepByLastHit(s: seq<Drop>, fate: Drop -> Fate, fall: real)
    ensures match LastHit(s, fate)
            case None =>
              Sweep(s, fate, fall) == Swept(Survivors(s, fate, fall), Collected(s, fate), false)
            case Some(j) =>
              Sweep(s, fate, fall)
              == Swept(s[..j] + [Fall(s[j], fall)] + Survivors(s[j + 1..], fate, fall),
                       Collected(s[j + 1..], fate), true)
  {
    match LastHit(s, fate)
    case None => SweepWithoutHit(s, fate, fall);
    case Some(j) => SweepWithHit(s, j, fate, fall);
  }

  lemma {:induction false} SweepWithoutHit(s: seq<Drop>, fate: Drop -> Fate, fall: real)
    requires forall k :: 0 <= k < |s| ==> fate(s[k]) != Hit
    ensures Sweep(s, fate, fall) == Swept(Survivors(s, fate, fall), Collected(s, fate), false)
  {
    if s != [] {
      var init, last := s[..|s| - 1], s[|s| - 1];
      assert s == init + [last];
      assert fate(last) != Hit;
      SweepWithoutHit(init, fate, fall);
      SweptBehind(init, [], last, fate, fall);
      assert init[0..] == init;
    }
  }

  lemma {:induction false} SweepWithHit(s: seq<Drop>, j: nat, fate: Drop -> Fate, fall: real)
    requires j < |s| && fate(s[j]) == Hit
    requires forall k :: j < k < |s| ==> fate(s[k]) != Hit
    ensures Sweep(s, fate, fall)
         == Swept(s[..j] + [Fall(s[j], fall)] + Survivors(s[j + 1..], fate, fall),
                  Collected(s[j + 1..], fate), true)
    decreases |s|
  {
    var init, last := s[..|s| - 1], s[|s| - 1];
    if j == |s| - 1 {
      assert s[j + 1..] == [];
      var front := s[..j] + [Fall(s[j], fall)];
      assert front + [] == front;
    } else {
      var keep := if fate(last) == Stay then [Fall(last, fall)] else [];
      var r := Sweep(init, fate, fall);
      assert Sweep(s, fate, fall)
          == Swept(r.rain + keep, r.cats + (if fate(last) == Collect then 1 else 0), r.hit);
      SweepWithHit(init, j, fate, fall);
      DropLast(s, j);
      var front := init[..j] + [Fall(s[j], fall)];
      var behind := Survivors(init[j + 1..], fate, fall);
      assert r.rain == front + behind;
      SweptBehind(init, init[..j + 1], last, fate, fall);
      assert Survivors(s[j + 1..], fate, fall) == behind + keep;
      AppendAssoc(front, behind, keep);
      assert r.rain + keep == s[..j] + [Fall(s[j], fall)] + Survivors(s[j + 1..], fate, fall);
    }
  }

  /** How the slices around index `j` of `s` relate to those of `s` without its last element. */
  lemma DropLast<T>(s: seq<T>, j: nat)
    requires j < |s| - 1
    ensures s[..|s| - 1][..j] == s[..j] && s[..|s| - 1][j] == s[j]
    ensures s[j + 1..] == s[..|s| - 1][j + 1..] + [s[|s| - 1]]
  {
  }

  lemma AppendAssoc<T>(a: seq<T>, b: seq<T>, c: seq<T>)
    ensures (a + b) + c == a + (b + c)
  {
  }

  /**
   Sweeping `init + [last]` where `last` is not a hit: the entities after the first
   `|p|` ones of `init` gain the survivor that `last` leaves, and the cats it yields.
   */
  lemma SweptBehind(init: seq<Drop>, p: seq<Drop>, last: Drop, fate: Drop -> Fate, fall: real)
    requires |p| <= |init| && p == init[..|p|]
    ensures (init + [last])[|p|..] == init[|p|..] + [last]
    ensures Survivors(init[|p|..] + [last], fate, fall)
         == Survivors(init[|p|..], fate, fall) + (if fate(last) == Stay then [Fall(last, fall)] else [])
    ensures Collected(init[|p|..] + [last], fate)
         == Collected(init[|p|..], fate) + (if fate(last) == Collect then 1 else 0)
  {
    assert (init + [last])[|p|..] == init[|p|..] + [last];
    assert [last][1..] == [];
    SurvivorsAppend(init[|p|..], [last], fate, fall);
    CollectedAppend(init[|p|..], [last], fate);
  }

  /** No survivor of a frame's sweep touches the player, and every one is at or above the despawn height. */
  lemma {:induction false} SurvivorsClear(s: seq<Drop>, px: real, py: real, fall: real)
    ensures var r := Survivors(s, Fates(px, py, fall), fall);
            forall k :: 0 <= k < |r| ==> r[k].y >= DespawnY && !Collides(r[k], px, py)
  {
    if s != [] {
      var fate := Fates(px, py, fall);
      var head := if fate(s[0]) == Stay then [Fall(s[0], fall)] else [];
      assert Survivors(s, fate, fall) == head + Survivors(s[1..], fate, fall);
      FateMeaning(s[0], px, py, fall);
      SurvivorsClear(s[1..], px, py, fall);
    }
  }

  /** Keeping is decided entity by entity, so it distributes over concatenation. */
  lemma {:induction false} SurvivorsAppend(a: seq<Drop>, b: seq<Drop>, fate: Drop -> Fate, fall: real)
    ensures Survivors(a + b, fate, fall) == Survivors(a, fate, fall) + Survivors(b, fate, fall)
  {
    if a != [] {
      assert (a + b)[0] == a[0];
      assert (a + b)[1..] == a[1..] + b;
      SurvivorsAppend(a[1..], b, fate, fall);
    } else {
      assert a + b == b;
    }
  }

  lemma {:induction false} CollectedAppend(a: seq<Drop>, b: seq<Drop>, fate: Drop -> Fate)
    ensures Collected(a + b, fate) == Collected(a, fate) + Collected(b, fate)
  {
    if a != [] {
      assert (a + b)[0] == a[0];
      assert (a + b)[1..] == a[1..] + b;
      CollectedAppend(a[1..], b, fate);
    } else {
      assert a + b == b;
    }
  }

  /**
   Each entity keeps its place: a kept entity stays between the survivors of the entities
   before it and those after it, and a removed one leaves exactly those two parts.
   */
  lemma SurvivorAt(s: seq<Drop>, k: nat, fate: Drop -> Fate, fall: real)
    requires k < |s|
    ensures Survivors(s, fate, fall)
         == Survivors(s[..k], fate, fall)
            + (if fate(s[k]) == Stay then [Fall(s[k], fall)] else [])
            + Survivors(s[k + 1..], fate, fall)
  {
    assert s == s[..k] + s[k..];
    SurvivorsAppend(s[..k], s[k..], fate, fall);
    assert s[k..][1..] == s[k + 1..];
  }

  /** A lava entity that misses the player is removed only if it fell below the despawn height. */
  lemma LavaMissKept(s: seq<Drop>, k: nat, px: real, py: real, fall: real)
    requires k < |s| && s[k].kind == Lava
    requires !Collides(Fall(s[k], fall), px, py) && s[k].y - fall >= DespawnY
    ensures var fate := Fates(px, py, fall);
            Survivors(s, fate, fall)
            == Survivors(s[..k], fate, fall) + [Fall(s[k], fall)] + Survivors(s[k + 1..], fate, fall)
  {
    SurvivorAt(s, k, Fates(px, py, fall), fall);
  }

  /** Entities that fall and stay within the playfield's column stay there. */
  predicate InColumn(d: Drop)
  {
    WorldMinX <= d.x < WorldMaxX && d.y <= SpawnHeight
  }

  lemma {:induction false} SurvivorsInColumn(s: seq<Drop>, fate: Drop -> Fate, fall: real)
    requires fall >= 0.0
    requires forall k :: 0 <= k < |s| ==> InColumn(s[k])
    ensures forall k :: 0 <= k < |Survivors(s, fate, fall)| ==> InColumn(Survivors(s, fate, fall)[k])
  {
    if s != [] {
      SurvivorsInColumn(s[1..], fate, fall);
    }
  }
}
