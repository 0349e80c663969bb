// The finite grid of scores, and its enumeration into one class a key.

module ScoreGrid {
  import opened Lines
  import opened Settlement
  import opened Coordinates
  import opened Classes

  // A representative: a full-time score, and what else the selections need.
  datatype Point = Point(full: Score, first: Option<Score>, corners: Option<Score>, cards: Option<Score>)

  const ORIGIN := Score(0, 0)

  // A goal point whose first half lies within two bounds.
  predicate HasFirst(p: Point, full: Score, maxHome: int, maxAway: int) {
    && p.first.Some? && p == Point(full, p.first, None, None)
    && 0 <= p.first.value.home <= maxHome && 0 <= p.first.value.away <= maxAway
  }

  // A full-time score, with a first half inside it when one is needed.
  predicate InGoalSquare(full: nat, needsHalf: bool, first: nat, p: Point) {
    && InSquare(p.full, full)
    && if !needsHalf then p == Point(p.full, None, None, None)
       else HasFirst(p, p.full, Min(p.full.home, first), Min(p.full.away, first))
  }

  function CountPoint(corners: bool, counts: Score): Point {
    if corners then Point(ORIGIN, None, Some(counts), None) else Point(ORIGIN, None, None, Some(counts))
  }

  function CountsOf(corners: bool, p: Point): Option<Score> {
    if corners then p.corners else p.cards
  }

  // A count point whose counts lie within two bounds.
  predicate HasCounts(corners: bool, p: Point, maxHome: int, maxAway: int) {
    var counts := CountsOf(corners, p);
    && counts.Some? && p == CountPoint(corners, counts.value)
    && 0 <= counts.value.home <= maxHome && 0 <= counts.value.away <= maxAway
  }

  predicate InCountSquare(corners: bool, limit: nat, p: Point) {
    HasCounts(corners, p, limit, limit)
  }

  // ---------------------------------------------------------------- enumerating the grids

  // One row of the first-half scores below.
  method AddFirstRow<K(==)>(key: Point -> K, classes: seq<Point>, keys: set<K>, full: Score, home: nat, maxAway: nat)
    returns (more: seq<Point>, moreKeys: set<K>)
    requires OnePerKey(key, classes, keys)
    requires forall p :: HasFirst(p, full, home - 1, maxAway) ==> key(p) in keys
    ensures OnePerKey(key, more, moreKeys) && keys <= moreKeys
    ensures forall p :: p in more ==> p in classes || HasFirst(p, full, home, maxAway)
    ensures forall p :: HasFirst(p, full, home, maxAway) ==> key(p) in moreKeys
  {
    more, moreKeys := classes, keys;
    for away := 0 to maxAway + 1
      invariant OnePerKey(key, more, moreKeys) && keys <= moreKeys
      invariant forall p :: p in more ==> p in classes || HasFirst(p, full, home, maxAway)
      invariant forall p :: HasFirst(p, full, home, away - 1) ==> key(p) in moreKeys
    {
      var p := Point(full, Some(Score(home, away)), None, None);
      more, moreKeys := Add(key, more, moreKeys, p);
      forall q | HasFirst(q, full, home, away) ensures key(q) in moreKeys {
        assert q == p || HasFirst(q, full, home - 1, maxAway) || HasFirst(q, full, home, away - 1);
      }
    }
  }

  // Every first-half score inside a full-time score.
  method AddFirstHalves<K(==)>(key: Point -> K, classes: seq<Point>, keys: set<K>, full: Score, maxHome: nat, maxAway: nat)
    returns (more: seq<Point>, moreKeys: set<K>)
    requires OnePerKey(key, classes, keys)
    ensures OnePerKey(key, more, moreKeys) && keys <= moreKeys
    ensures forall p :: p in more ==> p in classes || HasFirst(p, full, maxHome, maxAway)
    ensures forall p :: HasFirst(p, full, maxHome, maxAway) ==> key(p) in moreKeys
  {
    more, moreKeys := classes, keys;
    for home := 0 to maxHome + 1
      invariant OnePerKey(key, more, moreKeys) && keys <= moreKeys
      invariant forall p :: p in more ==> p in classes || HasFirst(p, full, maxHome, maxAway)
      invariant forall p :: HasFirst(p, full, home - 1, maxAway) ==> key(p) in moreKeys
    {
      more, moreKeys := AddFirstRow(key, more, moreKeys, full, home, maxAway);
    }
  }

  method EnumerateGoals<K(==)>(key: Point -> K, limit: nat, needsHalf: bool, first: nat)
    returns (classes: seq<Point>, keys: set<K>)
    ensures OnePerKey(key, classes, keys)
    ensures forall p :: p in classes ==> InGoalSquare(limit, needsHalf, first, p)
    ensures forall p :: InGoalSquare(limit, needsHalf, first, p) ==> key(p) in keys
  {
    classes, keys := [], {};
    for home := 0 to limit + 1
      invariant OnePerKey(key, classes, keys)
      invariant forall p :: p in classes ==> InGoalSquare(limit, needsHalf, first, p)
      invariant forall p :: InGoalSquare(limit, needsHalf, first, p) && p.full.home < home ==> key(p) in keys
    {
      for away := 0 to limit + 1
        invariant OnePerKey(key, classes, keys)
        invariant forall p :: p in classes ==> InGoalSquare(limit, needsHalf, first, p)
        invariant forall p :: InGoalSquare(limit, needsHalf, first, p) && p.full.home < home ==> key(p) in keys
        invariant forall p :: InGoalSquare(limit, needsHalf, first, p) && p.full.home == home && p.full.away < away
                    ==> key(p) in keys
      {
        if !needsHalf {
          classes, keys := Add(key, classes, keys, Point(Score(home, away), None, None, None));
        } else {
          classes, keys := AddFirstHalves(key, classes, keys, Score(home, away), Min(home, first), Min(away, first));
        }
      }
    }
  }

  method EnumerateCounts<K(==)>(key: Point -> K, corners: bool, limit: nat)
    returns (classes: seq<Point>, keys: set<K>)
    ensures OnePerKey(key, classes, keys)
    ensures forall p :: p in classes ==> InCountSquare(corners, limit, p)
    ensures forall p :: InCountSquare(corners, limit, p) ==> key(p) in keys
  {
    classes, keys := [], {};
    for home := 0 to limit + 1
      invariant OnePerKey(key, classes, keys)
      invariant forall p :: p in classes ==> HasCounts(corners, p, limit, limit)
      invariant forall p :: HasCounts(corners, p, home - 1, limit) ==> key(p) in keys
    {
      for away := 0 to limit + 1
        invariant OnePerKey(key, classes, keys)
        invariant forall p :: p in classes ==> HasCounts(corners, p, limit, limit)
        invariant forall p :: HasCounts(corners, p, home - 1, limit) ==> key(p) in keys
        invariant forall p :: HasCounts(corners, p, home, away - 1) ==> key(p) in keys
      {
        var p := CountPoint(corners, Score(home, away));
        classes, keys := Add(key, classes, keys, p);
        forall q | HasCounts(corners, q, home, away) ensures key(q) in keys {
          assert q == p || HasCounts(corners, q, home - 1, limit) || HasCounts(corners, q, home, away - 1);
        }
      }
    }
  }
}
