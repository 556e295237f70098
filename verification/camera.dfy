/**
  `BallTracker`: a registry of tracked centroids keyed by integer ids. Each
  update matches the tracked objects greedily to the new centroids (nearest
  first), ages the objects that found no match, evicts those missed more than
  `max_disappeared` times in a row, and registers every unmatched centroid
  under a fresh id.

  Distances are squared integer distances: the square root the source takes
  does not change which distance is smaller. The order in which numpy's
  `argsort` lists the rows is an input of the update (`order`, as object
  ids): any order sorted by each row's minimum distance, ties in any order.
  So is the order in which the loop over the set of unused columns visits
  them: any order that visits each member once.
*/
module Centroids {
  import opened Wrappers

  /** `max_disappeared` when the caller gives none. */
  const DefaultMaxDisappeared := 50

  datatype Point = Point(x: int, y: int)

  /** Squared Euclidean distance. */
  function Dist2(a: Point, b: Point): nat {
    (a.x - b.x) * (a.x - b.x) + (a.y - b.y) * (a.y - b.y)
  }

  /** The first index among `inputs[..n]` at minimal distance from `p` (numpy's `argmin` over a row). */
  function FirstNearest(p: Point, inputs: seq<Point>, n: nat): (c: nat)
    requires 0 < n <= |inputs|
    ensures c < n
    ensures forall j {:trigger Dist2(p, inputs[j])} :: 0 <= j < n ==> Dist2(p, inputs[c]) <= Dist2(p, inputs[j])
    ensures forall j {:trigger Dist2(p, inputs[j])} :: 0 <= j < c ==> Dist2(p, inputs[j]) > Dist2(p, inputs[c])
  {
    if n == 1 then 0
    else
      var k := FirstNearest(p, inputs, n - 1);
      if Dist2(p, inputs[n - 1]) < Dist2(p, inputs[k]) then n - 1 else k
  }

  /** The column a row tries: the first input nearest to the object. */
  function Column(p: Point, inputs: seq<Point>): nat
    requires |inputs| > 0
  {
    FirstNearest(p, inputs, |inputs|)
  }

  /** A row's minimum distance, the key `argsort` sorts the rows by. */
  function MinDist(p: Point, inputs: seq<Point>): nat
    requires |inputs| > 0
  {
    Dist2(p, inputs[Column(p, inputs)])
  }

  /** The registry's state: id -> centroid, id -> consecutive misses, and the next id to hand out. */
  datatype Registry = Registry(objects: map<nat, Point>, disappeared: map<nat, nat>, nextId: nat)

  /** Both dictionaries have the same ids, all of them handed out already, starting from 1. */
  ghost predicate ValidRegistry(r: Registry) {
    && r.objects.Keys == r.disappeared.Keys
    && r.nextId >= 1
    && (forall id :: id in r.objects ==> 1 <= id < r.nextId)
  }

  /** Every row in `order` is a tracked object. */
  predicate RowsOf(order: seq<nat>, objects: map<nat, Point>) {
    forall k :: 0 <= k < |order| ==> order[k] in objects
  }

  /** `order` is a possible result of `argsort` on the rows' minimum distances: every object once, nearest first. */
  ghost predicate IsRowOrder(order: seq<nat>, objects: map<nat, Point>, inputs: seq<Point>) {
    && |inputs| > 0
    && |order| == |objects|
    && RowsOf(order, objects)
    && (forall i, j :: 0 <= i < j < |order| ==> order[i] != order[j])
    && (forall i, j :: 0 <= i < j < |order| ==>
          MinDist(objects[order[i]], inputs) <= MinDist(objects[order[j]], inputs))
  }

  /** `register`: the centroid under the next id, with no misses. */
  function Registered(r: Registry, centroid: Point): Registry {
    Registry(r.objects[r.nextId := centroid], r.disappeared[r.nextId := 0], r.nextId + 1)
  }

  /** Registering the inputs at the columns `cols`, one after the other, in that order. */
  function RegisteredAt(r: Registry, inputs: seq<Point>, cols: seq<nat>): Registry
    requires forall i :: 0 <= i < |cols| ==> cols[i] < |inputs|
    decreases |cols|
  {
    if cols == [] then r
    else Registered(RegisteredAt(r, inputs, cols[..|cols| - 1]), inputs[cols[|cols| - 1]])
  }

  /** Whether `id` is still tracked after the ids in `ids` have each missed once more. */
  predicate Keeps(r: Registry, ids: set<nat>, maxDisappeared: int, id: nat) {
    id !in ids || (id in r.disappeared && r.disappeared[id] + 1 <= maxDisappeared)
  }

  /** Every id in `ids` misses once more; those now past `maxDisappeared` are deregistered. */
  function Age(r: Registry, ids: set<nat>, maxDisappeared: int): Registry {
    Registry(
      map id | id in r.objects && Keeps(r, ids, maxDisappeared, id) :: r.objects[id],
      map id | id in r.disappeared && Keeps(r, ids, maxDisappeared, id) ::
        if id in ids then r.disappeared[id] + 1 else r.disappeared[id],
      r.nextId)
  }

  /** `m.Values` gains exactly the new value when a new key is added. */
  lemma ValuesOfAdd(m: map<nat, nat>, k: nat, v: nat)
    requires k !in m
    ensures m[k := v].Values == m.Values + {v}
  {
    forall u | u in m.Values ensures u in m[k := v].Values {
      var j :| j in m && m[j] == u;
      assert m[k := v][j] == u;
    }
    assert m[k := v][k] == v;
  }

  /** Each row's nearest column, computed before any object moves (`distances.argmin(axis=1)`). */
  function Columns(objects: map<nat, Point>, inputs: seq<Point>): (cols: map<nat, nat>)
    requires |inputs| > 0
    ensures cols.Keys == objects.Keys
    ensures forall id :: id in cols ==> cols[id] < |inputs|
  {
    map id | id in objects :: Column(objects[id], inputs)
  }

  /**
    The pairs the greedy loop accepts over the first `i` rows of `order`, as
    id -> column: each row tries only its nearest column `cols[id]`, and is
    skipped when the row or that column is already used. No row and no column
    is used twice.
  */
  function MatchUpTo(order: seq<nat>, cols: map<nat, nat>, i: nat): map<nat, nat>
    requires i <= |order|
    requires forall k :: 0 <= k < |order| ==> order[k] in cols
  {
    if i == 0 then map[]
    else
      var prev := MatchUpTo(order, cols, i - 1);
      var id := order[i - 1];
      if id in prev || cols[id] in prev.Values then prev
      else prev[id := cols[id]]
  }

  /** Each accepted pair is a row with the column it tried. */
  lemma {:induction false} MatchFollowsCols(order: seq<nat>, cols: map<nat, nat>, i: nat)
    requires i <= |order|
    requires forall k :: 0 <= k < |order| ==> order[k] in cols
    ensures forall id :: id in MatchUpTo(order, cols, i) ==> id in cols && MatchUpTo(order, cols, i)[id] == cols[id]
  {
    if i > 0 {
      MatchFollowsCols(order, cols, i - 1);
    }
  }

  /** Only rows among the first `i` of `order` are matched, and no two of them share a column. */
  lemma {:induction false} MatchOneToOne(order: seq<nat>, cols: map<nat, nat>, i: nat)
    requires i <= |order|
    requires forall k :: 0 <= k < |order| ==> order[k] in cols
    ensures forall id :: id in MatchUpTo(order, cols, i) ==> exists k :: 0 <= k < i && order[k] == id
    ensures forall a, b :: a in MatchUpTo(order, cols, i) && b in MatchUpTo(order, cols, i) && a != b ==>
      MatchUpTo(order, cols, i)[a] != MatchUpTo(order, cols, i)[b]
  {
    if i > 0 {
      MatchOneToOne(order, cols, i - 1);
      var prev := MatchUpTo(order, cols, i - 1);
      var id := order[i - 1];
      if !(id in prev || cols[id] in prev.Values) {
        var m := MatchUpTo(order, cols, i);
        assert m == prev[id := cols[id]];
        forall a, b | a in m && b in m && a != b
          ensures m[a] != m[b]
        {
          if a == id {
            assert b in prev && m[b] == prev[b] && prev[b] in prev.Values;
          } else if b == id {
            assert a in prev && m[a] == prev[a] && prev[a] in prev.Values;
          } else {
            assert a in prev && b in prev;
          }
        }
      }
    }
  }

  /** Adding a key with a value not yet used keeps a one-to-one map one-to-one. */
  lemma AddKeepsOneToOne(m: map<nat, nat>, k: nat, v: nat)
    requires k !in m && v !in m.Values && |m.Keys| == |m.Values|
    ensures |m[k := v].Keys| == |m[k := v].Values|
  {
    ValuesOfAdd(m, k, v);
    assert m[k := v].Keys == m.Keys + {k};
  }

  /** As many columns are used as rows: the accepted pairs form a one-to-one map. */
  lemma {:induction false} MatchCard(order: seq<nat>, cols: map<nat, nat>, i: nat)
    requires i <= |order|
    requires forall k :: 0 <= k < |order| ==> order[k] in cols
    ensures |MatchUpTo(order, cols, i).Keys| == |MatchUpTo(order, cols, i).Values|
  {
    if i > 0 {
      MatchCard(order, cols, i - 1);
      var prev := MatchUpTo(order, cols, i - 1);
      var id := order[i - 1];
      if !(id in prev || cols[id] in prev.Values) {
        AddKeepsOneToOne(prev, id, cols[id]);
      }
    } else {
      assert MatchUpTo(order, cols, i).Values == {};
    }
  }

  /** The pairs the greedy loop accepts over all the rows. */
  function Match(order: seq<nat>, cols: map<nat, nat>): map<nat, nat>
    requires forall k :: 0 <= k < |order| ==> order[k] in cols
  {
    MatchUpTo(order, cols, |order|)
  }

  /** Pairs accepted over the first `i` rows stay accepted over the first `j`. */
  lemma {:induction false} MatchPrefix(order: seq<nat>, cols: map<nat, nat>, i: nat, j: nat)
    requires forall k :: 0 <= k < |order| ==> order[k] in cols
    requires i <= j <= |order|
    ensures forall id :: id in MatchUpTo(order, cols, i) ==>
      id in MatchUpTo(order, cols, j) && MatchUpTo(order, cols, j)[id] == MatchUpTo(order, cols, i)[id]
    decreases j
  {
    if i < j {
      var mi := MatchUpTo(order, cols, i);
      var prev := MatchUpTo(order, cols, j - 1);
      var m := MatchUpTo(order, cols, j);
      MatchPrefix(order, cols, i, j - 1);
      MatchStep(order, cols, j);
      forall id | id in mi
        ensures id in m && m[id] == mi[id]
      {
        assert id in prev && prev[id] == mi[id];
      }
    }
  }

  /** One more row only adds a pair. */
  lemma MatchStep(order: seq<nat>, cols: map<nat, nat>, j: nat)
    requires forall k :: 0 <= k < |order| ==> order[k] in cols
    requires 0 < j <= |order|
    ensures var prev := MatchUpTo(order, cols, j - 1);
      var m := MatchUpTo(order, cols, j);
      forall id :: id in prev ==> id in m && m[id] == prev[id]
  {
  }

  /**
    Greedy outcome: every row in `order` is either matched or finds its column
    already taken by one of the rows visited before it.
  */
  lemma MatchIsGreedy(order: seq<nat>, cols: map<nat, nat>, k: nat)
    requires forall i :: 0 <= i < |order| ==> order[i] in cols
    requires k < |order|
    ensures order[k] in Match(order, cols) || cols[order[k]] in MatchUpTo(order, cols, k).Values
  {
    MatchPrefix(order, cols, k + 1, |order|);
  }

  /** Each matched object moves to its input and its miss count goes back to 0. */
  function Assign(r: Registry, m: map<nat, nat>, inputs: seq<Point>): Registry
    requires forall id :: id in m ==> m[id] < |inputs|
  {
    Registry(
      map id | id in r.objects :: if id in m then inputs[m[id]] else r.objects[id],
      map id | id in r.disappeared :: if id in m then 0 else r.disappeared[id],
      r.nextId)
  }

  /**
    The columns below `n` outside `used`, ascending: the order in which the
    inputs are registered when nothing is tracked, which visits them in list order.
  */
  function UnusedCols(used: set<nat>, n: nat): (cols: seq<nat>)
    ensures forall i :: 0 <= i < |cols| ==> cols[i] < n && cols[i] !in used
  {
    if n == 0 then [] else UnusedCols(used, n - 1) + (if n - 1 in used then [] else [n - 1])
  }

  /** With nothing used, the unused columns below `n` are `0, 1, ..., n-1`. */
  lemma {:induction false} EveryColumnUnused(n: nat)
    ensures |UnusedCols({}, n)| == n
    ensures forall i :: 0 <= i < n ==> UnusedCols({}, n)[i] == i
  {
    if n > 0 {
      EveryColumnUnused(n - 1);
    }
  }

  /** The columns below `n` outside `used`: `set(range(0, n)) - used`. */
  function UnusedSet(used: set<nat>, n: nat): (s: set<nat>)
    ensures forall c: nat :: c in s <==> c < n && c !in used
  {
    set c: nat | c < n && c !in used
  }

  /**
    `visits` is an order in which a Python `for` loop may visit the set `s`:
    every member once, and nothing else. Which order CPython picks depends on
    the set's hash table, so the model leaves it open.
  */
  predicate Enumerates(visits: seq<nat>, s: set<nat>) {
    && (forall i, j :: 0 <= i < j < |visits| ==> visits[i] != visits[j])
    && (forall i :: 0 <= i < |visits| ==> visits[i] in s)
    && (forall c :: c in s ==> c in visits)
  }

  /** A loop over a set runs once per member. */
  lemma {:induction false} EnumerationLength(visits: seq<nat>, s: set<nat>)
    requires Enumerates(visits, s)
    ensures |visits| == |s|
    decreases |visits|
  {
    if visits != [] {
      var n := |visits| - 1;
      var last := visits[n];
      assert Enumerates(visits[..n], s - {last}) by {
        forall c ensures c in visits[..n] <==> c in s - {last} {
          if c in visits[..n] {
            var i :| 0 <= i < n && visits[..n][i] == c;
            assert visits[i] != visits[n];
          }
          if c in s - {last} {
            assert c in visits;
            var i :| 0 <= i < |visits| && visits[i] == c;
            assert i != n;
            assert visits[..n][i] == c;
          }
        }
      }
      EnumerationLength(visits[..n], s - {last});
    }
  }

  /** Visiting one more member, after the others, iterates the larger set. */
  lemma AppendEnumerates(visits: seq<nat>, s: set<nat>, x: nat)
    requires Enumerates(visits, s) && x !in s
    ensures Enumerates(visits + [x], s + {x})
  {
    var u := visits + [x];
    forall c | c in s + {x} ensures c in u {
      if c == x {
        assert u[|visits|] == x;
      } else {
        var i :| 0 <= i < |visits| && visits[i] == c;
        assert u[i] == c;
      }
    }
  }

  /** The unused columns below `n + 1`: those below `n`, and `n` itself unless it is used. */
  lemma UnusedSetStep(used: set<nat>, n: nat)
    ensures n !in UnusedSet(used, n)
    ensures UnusedSet(used, n + 1) == if n in used then UnusedSet(used, n) else UnusedSet(used, n) + {n}
  {
  }

  /** The ascending list of unused columns is one way to iterate their set. */
  lemma {:induction false} UnusedColsEnumerate(used: set<nat>, n: nat)
    ensures Enumerates(UnusedCols(used, n), UnusedSet(used, n))
  {
    if n > 0 {
      UnusedColsEnumerate(used, n - 1);
      UnusedSetStep(used, n - 1);
      if n - 1 !in used {
        AppendEnumerates(UnusedCols(used, n - 1), UnusedSet(used, n - 1), n - 1);
      }
    }
  }

  /** A loop over unused columns below `n` only visits columns below `n`. */
  lemma EnumeratedColumnsBelow(visits: seq<nat>, used: set<nat>, n: nat)
    requires Enumerates(visits, UnusedSet(used, n))
    ensures forall i :: 0 <= i < |visits| ==> visits[i] < n && visits[i] !in used
  {
  }

  /**
    Ten inputs, the columns `{0, ..., 6, 8}` taken: CPython visits the unused
    set as `[9, 7]` (9 lands before 7 in an eight-slot table), which the model
    admits as well as the ascending `[7, 9]`.
  */
  lemma HashOrderAdmitted()
    ensures Enumerates([9, 7], UnusedSet({0, 1, 2, 3, 4, 5, 6, 8}, 10))
    ensures Enumerates([7, 9], UnusedSet({0, 1, 2, 3, 4, 5, 6, 8}, 10))
  {
    var s := UnusedSet({0, 1, 2, 3, 4, 5, 6, 8}, 10);
    assert s == {7, 9} by {
      forall c ensures c in s <==> c == 7 || c == 9 {
      }
    }
  }

  /**
    `cols` gives each tracked object a column below `n`: the shape of the
    `argmin` result, which `Columns` computes.
  */
  predicate ColumnsFor(cols: map<nat, nat>, objects: map<nat, Point>, n: nat) {
    cols.Keys == objects.Keys && forall id :: id in cols ==> cols[id] < n
  }

  /** The pairs an update accepts: the greedy matching of each row to its column in `cols`. */
  function Matching(r: Registry, inputs: seq<Point>, order: seq<nat>, cols: map<nat, nat>): (m: map<nat, nat>)
    requires RowsOf(order, r.objects) && ColumnsFor(cols, r.objects, |inputs|)
    ensures forall id :: id in m ==> m[id] < |inputs|
  {
    MatchFollowsCols(order, cols, |order|);
    Match(order, cols)
  }

  /** The columns no object took (`unused_cols`). */
  function UnusedInputs(r: Registry, inputs: seq<Point>, order: seq<nat>, cols: map<nat, nat>): set<nat>
    requires RowsOf(order, r.objects) && ColumnsFor(cols, r.objects, |inputs|)
  {
    UnusedSet(Matching(r, inputs, order, cols).Values, |inputs|)
  }

  /**
    What an update with both inputs and objects is given: `order` lists the
    objects, `cols` gives each one an input, and `unusedOrder` is the order in which
    the loop visits the unused columns.
  */
  predicate UpdateArgs(r: Registry, inputs: seq<Point>, order: seq<nat>, cols: map<nat, nat>, unusedOrder: seq<nat>) {
    |inputs| > 0 && |r.objects| > 0 ==>
      && RowsOf(order, r.objects) && ColumnsFor(cols, r.objects, |inputs|)
      && Enumerates(unusedOrder, UnusedInputs(r, inputs, order, cols))
  }

  /** The registry once the matched objects have moved and the unmatched ones have aged. */
  function Survivors(r: Registry, inputs: seq<Point>, order: seq<nat>, cols: map<nat, nat>, maxDisappeared: int): Registry
    requires RowsOf(order, r.objects) && ColumnsFor(cols, r.objects, |inputs|)
  {
    var m := Matching(r, inputs, order, cols);
    Age(Assign(r, m, inputs), r.objects.Keys - m.Keys, maxDisappeared)
  }

  /**
    `update`: the registry after one call with `inputs`, the rows visited in
    `order`, each row trying its column in `cols` (`Columns` when the call is
    made by `BallTracker.Update`), and the unused columns registered in the
    order `unusedOrder`.
  */
  function UpdateSpec(r: Registry, inputs: seq<Point>, order: seq<nat>, cols: map<nat, nat>, unusedOrder: seq<nat>,
                      maxDisappeared: int): Registry
    requires UpdateArgs(r, inputs, order, cols, unusedOrder)
  {
    if |inputs| == 0 then Age(r, r.disappeared.Keys, maxDisappeared)
    else if |r.objects| == 0 then RegisteredAt(r, inputs, UnusedCols({}, |inputs|))
    else RegisteredAt(Survivors(r, inputs, order, cols, maxDisappeared), inputs, unusedOrder)
  }

  /** Registering keeps the registry valid and adds exactly the ids `nextId ..< nextId + |cols|`. */
  lemma {:induction false} RegisteringKeepsValid(r: Registry, inputs: seq<Point>, cols: seq<nat>)
    requires ValidRegistry(r)
    requires forall i :: 0 <= i < |cols| ==> cols[i] < |inputs|
    ensures var s := RegisteredAt(r, inputs, cols);
      && ValidRegistry(s)
      && s.nextId == r.nextId + |cols|
      && (forall id :: id in s.objects <==> id in r.objects || r.nextId <= id < s.nextId)
      && |s.objects| == |r.objects| + |cols|
    decreases |cols|
  {
    if cols != [] {
      var n := |cols| - 1;
      RegisteringKeepsValid(r, inputs, cols[..n]);
      RegisterOneKeepsValid(RegisteredAt(r, inputs, cols[..n]), inputs[cols[n]]);
    }
  }

  /** `register` keeps the registry valid and adds exactly the id `nextId`. */
  lemma RegisterOneKeepsValid(r: Registry, centroid: Point)
    requires ValidRegistry(r)
    ensures var s := Registered(r, centroid);
      && ValidRegistry(s)
      && s.nextId == r.nextId + 1
      && (forall id :: id in s.objects <==> id in r.objects || id == r.nextId)
      && |s.objects| == |r.objects| + 1
  {
    assert r.nextId !in r.objects;
  }

  /** Registering leaves every existing entry as it was. */
  lemma {:induction false} RegisteringKeepsOld(r: Registry, inputs: seq<Point>, cols: seq<nat>)
    requires ValidRegistry(r)
    requires forall i :: 0 <= i < |cols| ==> cols[i] < |inputs|
    ensures var s := RegisteredAt(r, inputs, cols);
      forall id :: id in r.objects ==>
        && id in s.objects && s.objects[id] == r.objects[id]
        && id in s.disappeared && s.disappeared[id] == r.disappeared[id]
    decreases |cols|
  {
    if cols != [] {
      var n := |cols| - 1;
      RegisteringKeepsOld(r, inputs, cols[..n]);
      RegisteringKeepsValid(r, inputs, cols[..n]);
    }
  }

  /** Registering from next id `base` puts the input at `cols[i]` under `base + i`, with no misses. */
  lemma {:induction false} RegisteringPlacesNew(r: Registry, base: nat, inputs: seq<Point>, cols: seq<nat>)
    requires r.nextId == base
    requires forall i :: 0 <= i < |cols| ==> cols[i] < |inputs|
    ensures var s := RegisteredAt(r, inputs, cols);
      && s.nextId == base + |cols|
      && forall id :: base <= id < base + |cols| ==>
        && id in s.objects && s.objects[id] == inputs[cols[id - base]]
        && id in s.disappeared && s.disappeared[id] == 0
    decreases |cols|
  {
    if cols != [] {
      var n := |cols| - 1;
      RegisteringPlacesNew(r, base, inputs, cols[..n]);
      var s := RegisteredAt(r, inputs, cols);
      forall id | base <= id < base + |cols|
        ensures id in s.objects && s.objects[id] == inputs[cols[id - base]]
        ensures id in s.disappeared && s.disappeared[id] == 0
      {
        if id - base < n {
          assert cols[..n][id - base] == cols[id - base];
        }
      }
    }
  }

  /** Matching moves objects and clears their misses, but adds and removes no id. */
  lemma AssignKeepsValid(r: Registry, m: map<nat, nat>, inputs: seq<Point>)
    requires ValidRegistry(r)
    requires forall id :: id in m ==> m[id] < |inputs|
    ensures var a := Assign(r, m, inputs);
      ValidRegistry(a) && a.objects.Keys == r.objects.Keys && a.nextId == r.nextId
  {
  }

  /** The miss counts stay consistent: ageing keeps the registry valid and hands out no id. */
  lemma AgeKeepsValid(r: Registry, ids: set<nat>, maxDisappeared: int)
    requires ValidRegistry(r)
    ensures var a := Age(r, ids, maxDisappeared);
      && ValidRegistry(a)
      && a.nextId == r.nextId
      && (forall id :: id in a.objects <==> id in r.objects && Keeps(r, ids, maxDisappeared, id))
  {
  }

  /** The registry stays valid and ids only come from `nextId` upwards: an id once dropped never comes back. */
  lemma UpdateKeepsValid(r: Registry, inputs: seq<Point>, order: seq<nat>, cols: map<nat, nat>, unusedOrder: seq<nat>,
                          maxDisappeared: int)
    requires ValidRegistry(r)
    requires UpdateArgs(r, inputs, order, cols, unusedOrder)
    ensures var s := UpdateSpec(r, inputs, order, cols, unusedOrder, maxDisappeared);
      && ValidRegistry(s)
      && s.nextId >= r.nextId
      && (forall id :: id in s.objects ==> id in r.objects || r.nextId <= id < s.nextId)
      && (forall id :: id < r.nextId && id !in r.objects ==> id !in s.objects)
  {
    if |inputs| == 0 {
      AgeKeepsValid(r, r.disappeared.Keys, maxDisappeared);
    } else if |r.objects| == 0 {
      RegisteringKeepsValid(r, inputs, UnusedCols({}, |inputs|));
    } else {
      SurvivorsKeepValid(r, inputs, order, cols, maxDisappeared);
      RegisteringKeepsValid(Survivors(r, inputs, order, cols, maxDisappeared), inputs, unusedOrder);
    }
  }

  /**
    With no input every object misses once more: objects past `maxDisappeared`
    are dropped, the others keep their centroid, and no id is created.
  */
  lemma EmptyInputOnlyAges(r: Registry, order: seq<nat>, maxDisappeared: int)
    requires ValidRegistry(r)
    ensures var s := UpdateSpec(r, [], order, map[], [], maxDisappeared);
      && s.nextId == r.nextId
      && (forall id :: id in s.objects <==> id in r.objects && r.disappeared[id] + 1 <= maxDisappeared)
      && (forall id :: id in s.objects ==>
            s.objects[id] == r.objects[id] && s.disappeared[id] == r.disappeared[id] + 1)
  {
  }

  /** `k` updates in a row with no input. */
  function Misses(r: Registry, k: nat, maxDisappeared: int): Registry
  {
    if k == 0 then r else UpdateSpec(Misses(r, k - 1, maxDisappeared), [], [], map[], [], maxDisappeared)
  }

  /** An object with `d` misses is still there, unmoved, after `k` more as long as `d + k <= maxDisappeared`. */
  lemma {:induction false} MissesCount(r: Registry, id: nat, k: nat, maxDisappeared: int)
    requires ValidRegistry(r) && id in r.objects
    requires r.disappeared[id] + k <= maxDisappeared
    ensures var s := Misses(r, k, maxDisappeared);
      && ValidRegistry(s)
      && id in s.objects
      && s.objects[id] == r.objects[id]
      && s.disappeared[id] == r.disappeared[id] + k
  {
    if k > 0 {
      MissesCount(r, id, k - 1, maxDisappeared);
      var prev := Misses(r, k - 1, maxDisappeared);
      EmptyInputOnlyAges(prev, [], maxDisappeared);
      AgeKeepsValid(prev, prev.disappeared.Keys, maxDisappeared);
    }
  }

  /**
    A freshly matched object (no misses) survives exactly `maxDisappeared`
    updates without input and is gone after the next one.
  */
  lemma SurvivesExactlyMaxMisses(r: Registry, id: nat, maxDisappeared: nat)
    requires ValidRegistry(r) && id in r.objects && r.disappeared[id] == 0
    ensures id in Misses(r, maxDisappeared, maxDisappeared).objects
    ensures id !in Misses(r, maxDisappeared + 1, maxDisappeared).objects
  {
    MissesCount(r, id, maxDisappeared, maxDisappeared);
    EmptyInputOnlyAges(Misses(r, maxDisappeared, maxDisappeared), [], maxDisappeared);
  }

  /** From an empty registry the n inputs get the ids `nextId .. nextId+n-1`, in input order, with no misses. */
  lemma FreshRegistryNumbering(r: Registry, inputs: seq<Point>, order: seq<nat>, cols: map<nat, nat>, unusedOrder: seq<nat>,
                                maxDisappeared: int)
    requires ValidRegistry(r) && |r.objects| == 0 && |inputs| > 0
    ensures var s := UpdateSpec(r, inputs, order, cols, unusedOrder, maxDisappeared);
      && ValidRegistry(s)
      && s.nextId == r.nextId + |inputs|
      && (forall id :: id in s.objects <==> r.nextId <= id < r.nextId + |inputs|)
      && (forall id :: r.nextId <= id < r.nextId + |inputs| ==>
            s.objects[id] == inputs[id - r.nextId] && s.disappeared[id] == 0)
  {
    FreshIds(r, inputs);
    FreshPlaces(r, inputs);
  }

  /** Registering every input into an empty registry keeps it valid and hands out exactly the next n ids. */
  lemma FreshIds(r: Registry, inputs: seq<Point>)
    requires ValidRegistry(r) && |r.objects| == 0
    ensures var s := RegisteredAt(r, inputs, UnusedCols({}, |inputs|));
      && ValidRegistry(s)
      && s.nextId == r.nextId + |inputs|
      && (forall id :: id in s.objects <==> r.nextId <= id < r.nextId + |inputs|)
  {
    EveryColumnUnused(|inputs|);
    RegisteringKeepsValid(r, inputs, UnusedCols({}, |inputs|));
    assert r.objects == map[];
  }

  /** Registering every input in order puts input i under `nextId + i`, with no misses. */
  lemma FreshPlaces(r: Registry, inputs: seq<Point>)
    ensures var s := RegisteredAt(r, inputs, UnusedCols({}, |inputs|));
      forall id :: r.nextId <= id < r.nextId + |inputs| ==>
        && id in s.objects && s.objects[id] == inputs[id - r.nextId]
        && id in s.disappeared && s.disappeared[id] == 0
  {
    FreshPlacesUpTo(r, inputs, |inputs|);
  }

  lemma {:induction false} FreshPlacesUpTo(r: Registry, inputs: seq<Point>, n: nat)
    requires n <= |inputs|
    ensures RegisteredAt(r, inputs, UnusedCols({}, n)).nextId == r.nextId + n
    ensures forall id :: r.nextId <= id < r.nextId + n ==>
        && id in RegisteredAt(r, inputs, UnusedCols({}, n)).objects
        && RegisteredAt(r, inputs, UnusedCols({}, n)).objects[id] == inputs[id - r.nextId]
        && id in RegisteredAt(r, inputs, UnusedCols({}, n)).disappeared
        && RegisteredAt(r, inputs, UnusedCols({}, n)).disappeared[id] == 0
  {
    if n > 0 {
      FreshPlacesUpTo(r, inputs, n - 1);
      var u := UnusedCols({}, n);
      assert u == UnusedCols({}, n - 1) + [n - 1];
      assert u[..|u| - 1] == UnusedCols({}, n - 1);
    }
  }


  /**
    A skipped row lost its column to a row visited earlier, which is at least
    as near to the contested input: the nearest pairs win.
  */
  lemma SkippedRowLostToNearerRow(order: seq<nat>, objects: map<nat, Point>, inputs: seq<Point>, k: nat)
    requires IsRowOrder(order, objects, inputs)
    requires k < |order| && order[k] !in Match(order, Columns(objects, inputs))
    ensures var m := Match(order, Columns(objects, inputs));
      var col := Column(objects[order[k]], inputs);
      exists j :: 0 <= j < k && order[j] in m && m[order[j]] == col
        && Dist2(objects[order[j]], inputs[col]) <= Dist2(objects[order[k]], inputs[col])
  {
    var cols := Columns(objects, inputs);
    MatchIsGreedy(order, cols, k);
    MatchFollowsCols(order, cols, k);
    MatchOneToOne(order, cols, k);
    var before := MatchUpTo(order, cols, k);
    var winner :| winner in before && before[winner] == cols[order[k]];
    var j :| 0 <= j < k && order[j] == winner;
    MatchPrefix(order, cols, k, |order|);
    assert MinDist(objects[order[j]], inputs) <= MinDist(objects[order[k]], inputs);
  }

  /** The intermediate registry is valid and has handed out no id. */
  lemma SurvivorsKeepValid(r: Registry, inputs: seq<Point>, order: seq<nat>, cols: map<nat, nat>, maxDisappeared: int)
    requires ValidRegistry(r) && RowsOf(order, r.objects) && ColumnsFor(cols, r.objects, |inputs|)
    ensures var a := Survivors(r, inputs, order, cols, maxDisappeared);
      && ValidRegistry(a)
      && a.nextId == r.nextId
      && (forall id :: id in a.objects ==> id in r.objects)
  {
    var m := Matching(r, inputs, order, cols);
    AssignKeepsValid(r, m, inputs);
    AgeKeepsValid(Assign(r, m, inputs), r.objects.Keys - m.Keys, maxDisappeared);
  }

  /** A matched object moves to its input and has no misses. */
  lemma MatchedObjectsMove(r: Registry, inputs: seq<Point>, order: seq<nat>, cols: map<nat, nat>, unusedOrder: seq<nat>,
                           maxDisappeared: int)
    requires ValidRegistry(r) && |r.objects| > 0 && |inputs| > 0
    requires UpdateArgs(r, inputs, order, cols, unusedOrder)
    ensures var m := Matching(r, inputs, order, cols);
      var s := UpdateSpec(r, inputs, order, cols, unusedOrder, maxDisappeared);
      forall id :: id in m ==> id in s.objects && s.objects[id] == inputs[m[id]] && id in s.disappeared && s.disappeared[id] == 0
  {
    var m := Matching(r, inputs, order, cols);
    var aged := Survivors(r, inputs, order, cols, maxDisappeared);
    MatchFollowsCols(order, cols, |order|);
    assert forall id :: id in m ==> id in aged.objects && aged.objects[id] == inputs[m[id]] && aged.disappeared[id] == 0;
    SurvivorsKeepValid(r, inputs, order, cols, maxDisappeared);
    RegisteringKeepsOld(aged, inputs, unusedOrder);
  }

  /**
    An object left unmatched misses once more: it stays, unmoved, while its
    misses do not exceed `maxDisappeared`, and is dropped otherwise.
  */
  lemma UnmatchedObjectsAge(r: Registry, inputs: seq<Point>, order: seq<nat>, cols: map<nat, nat>, unusedOrder: seq<nat>,
                            maxDisappeared: int)
    requires ValidRegistry(r) && |r.objects| > 0 && |inputs| > 0
    requires UpdateArgs(r, inputs, order, cols, unusedOrder)
    ensures var m := Matching(r, inputs, order, cols);
      var s := UpdateSpec(r, inputs, order, cols, unusedOrder, maxDisappeared);
      forall id :: id in r.objects && id !in m ==>
        && (id in s.objects <==> r.disappeared[id] + 1 <= maxDisappeared)
        && (id in s.objects ==> s.objects[id] == r.objects[id] && id in s.disappeared && s.disappeared[id] == r.disappeared[id] + 1)
  {
    var m := Matching(r, inputs, order, cols);
    var aged := Survivors(r, inputs, order, cols, maxDisappeared);
    AssignKeepsValid(r, m, inputs);
    AgeKeepsValid(Assign(r, m, inputs), r.objects.Keys - m.Keys, maxDisappeared);
    RegisteringKeepsValid(aged, inputs, unusedOrder);
    RegisteringKeepsOld(aged, inputs, unusedOrder);
  }

  /**
    The inputs no object took are registered, each once, in the order the loop
    visits their set, under the ids that follow.
  */
  lemma UnusedInputsRegistered(r: Registry, inputs: seq<Point>, order: seq<nat>, cols: map<nat, nat>, unusedOrder: seq<nat>,
                               maxDisappeared: int)
    requires ValidRegistry(r) && |r.objects| > 0 && |inputs| > 0
    requires UpdateArgs(r, inputs, order, cols, unusedOrder)
    ensures var s := UpdateSpec(r, inputs, order, cols, unusedOrder, maxDisappeared);
      && |unusedOrder| == |UnusedInputs(r, inputs, order, cols)|
      && (forall i :: 0 <= i < |unusedOrder| ==> unusedOrder[i] < |inputs|)
      && s.nextId == r.nextId + |unusedOrder|
      && (forall id :: r.nextId <= id < r.nextId + |unusedOrder| ==>
            && id in s.objects && s.objects[id] == inputs[unusedOrder[id - r.nextId]]
            && id in s.disappeared && s.disappeared[id] == 0)
  {
    var a := Survivors(r, inputs, order, cols, maxDisappeared);
    assert a.nextId == r.nextId;
    EnumerationLength(unusedOrder, UnusedInputs(r, inputs, order, cols));
    EnumeratedColumnsBelow(unusedOrder, Matching(r, inputs, order, cols).Values, |inputs|);
    RegisteringPlacesNew(a, r.nextId, inputs, unusedOrder);
  }

  /** The used columns below `n`. */
  function UsedBelow(used: set<nat>, n: nat): set<nat> {
    set c | c in used && c < n
  }

  /** The unused columns below `n` and the used ones add up to `n`. */
  lemma {:induction false} UnusedColsCount(used: set<nat>, n: nat)
    ensures |UnusedCols(used, n)| + |UsedBelow(used, n)| == n
  {
    if n > 0 {
      UnusedColsCount(used, n - 1);
      if n - 1 in used {
        assert UsedBelow(used, n) == UsedBelow(used, n - 1) + {n - 1};
      } else {
        assert UsedBelow(used, n) == UsedBelow(used, n - 1);
      }
    }
  }

  /**
    After a non-empty update every input is held by its own object, matched or
    new, so there are at least as many objects as inputs.
  */
  lemma RegistryCoversInputs(r: Registry, inputs: seq<Point>, order: seq<nat>, cols: map<nat, nat>, unusedOrder: seq<nat>,
                             maxDisappeared: int)
    requires ValidRegistry(r) && |inputs| > 0
    requires UpdateArgs(r, inputs, order, cols, unusedOrder)
    ensures |UpdateSpec(r, inputs, order, cols, unusedOrder, maxDisappeared).objects| >= |inputs|
  {
    if |r.objects| == 0 {
      RegisteringKeepsValid(r, inputs, UnusedCols({}, |inputs|));
      EveryColumnUnused(|inputs|);
    } else {
      var m := Matching(r, inputs, order, cols);
      var aged := Survivors(r, inputs, order, cols, maxDisappeared);
      SurvivorsKeepValid(r, inputs, order, cols, maxDisappeared);
      MatchedSurvive(r, inputs, order, cols, maxDisappeared);
      RegisteringKeepsValid(aged, inputs, unusedOrder);
      EnumerationLength(unusedOrder, UnusedInputs(r, inputs, order, cols));
      UnusedColsEnumerate(m.Values, |inputs|);
      EnumerationLength(UnusedCols(m.Values, |inputs|), UnusedSet(m.Values, |inputs|));
      UnusedColsCount(m.Values, |inputs|);
      assert UsedBelow(m.Values, |inputs|) == m.Values;
      MatchCard(order, cols, |order|);
      SubsetCard(m.Keys, aged.objects.Keys);
    }
  }

  /** Every matched object is still there before the unused inputs are registered. */
  lemma MatchedSurvive(r: Registry, inputs: seq<Point>, order: seq<nat>, cols: map<nat, nat>, maxDisappeared: int)
    requires RowsOf(order, r.objects) && ColumnsFor(cols, r.objects, |inputs|)
    requires r.objects.Keys == r.disappeared.Keys
    ensures Matching(r, inputs, order, cols).Keys <= Survivors(r, inputs, order, cols, maxDisappeared).objects.Keys
  {
    MatchFollowsCols(order, cols, |order|);
  }

  /** A subset is no larger than its superset. */
  lemma {:induction false} SubsetCard(a: set<nat>, b: set<nat>)
    requires a <= b
    ensures |a| <= |b|
    decreases |b|
  {
    if b != {} {
      var x :| x in b;
      SubsetCard(a - {x}, b - {x});
    }
  }

  /** With a single input every row's nearest column is that input. */
  lemma SingleInputColumns(objects: map<nat, Point>, q: Point)
    ensures Columns(objects, [q]) == map id | id in objects :: 0
  {
  }

  /** One object and one input: the object keeps its id and moves to the input; nothing is created. */
  lemma SingleObjectFollowsInput(r: Registry, id: nat, p: Point, q: Point, maxDisappeared: int)
    requires ValidRegistry(r) && r.objects == map[id := p]
    ensures var s := UpdateSpec(r, [q], [id], map[id := 0], [], maxDisappeared);
      s.objects == map[id := q] && s.disappeared == map[id := 0] && s.nextId == r.nextId
  {
    var cols := map[id := 0];
    var m := Matching(r, [q], [id], cols);
    assert MatchUpTo([id], cols, 0) == map[];
    assert m == map[id := 0];
    assert m.Values == {0};
    var moved := Assign(r, m, [q]);
    assert moved.objects == map[id := q];
    assert moved.disappeared == map[id := 0];
    assert r.objects.Keys - m.Keys == {};
    assert UnusedCols({0}, 1) == [];
  }


  /** Registering over one more column: what the registration loop body does. */
  lemma RegisterNextColumn(r: Registry, inputs: seq<Point>, used: set<nat>, c: nat)
    requires c < |inputs|
    ensures RegisteredAt(r, inputs, UnusedCols(used, c + 1)) ==
      if c in used then RegisteredAt(r, inputs, UnusedCols(used, c))
      else Registered(RegisteredAt(r, inputs, UnusedCols(used, c)), inputs[c])
  {
    var done := UnusedCols(used, c);
    if c !in used {
      assert UnusedCols(used, c + 1) == done + [c];
      assert (done + [c])[..|done|] == done && (done + [c])[|done|] == c;
    } else {
      assert UnusedCols(used, c + 1) == done;
    }
  }

  /** Ageing one more id: what the loop body does to a single id. */
  lemma AgeStep(a0: Registry, done: set<nat>, id: nat, maxDisappeared: int)
    requires a0.objects.Keys == a0.disappeared.Keys
    requires id in a0.disappeared && id !in done
    ensures var a := Age(a0, done, maxDisappeared);
      && id in a.objects && id in a.disappeared && a.disappeared[id] == a0.disappeared[id]
      && Age(a0, done + {id}, maxDisappeared) ==
           var c := a.disappeared[id] + 1;
           if c > maxDisappeared then Registry(a.objects - {id}, a.disappeared[id := c] - {id}, a.nextId)
           else Registry(a.objects, a.disappeared[id := c], a.nextId)
  {
    var a := Age(a0, done, maxDisappeared);
    var b := Age(a0, done + {id}, maxDisappeared);
    var c := a.disappeared[id] + 1;
    if c > maxDisappeared {
      assert b.objects == a.objects - {id};
      assert b.disappeared == a.disappeared[id := c] - {id};
    } else {
      assert b.objects == a.objects;
      assert b.disappeared == a.disappeared[id := c];
    }
  }

  /** Visiting one more row: it is skipped, or its pair is added to the accepted ones. */
  lemma MatchNextRow(order: seq<nat>, cols: map<nat, nat>, i: nat)
    requires i < |order|
    requires forall k :: 0 <= k < |order| ==> order[k] in cols
    ensures var prev := MatchUpTo(order, cols, i);
      var id := order[i];
      var next := MatchUpTo(order, cols, i + 1);
      if id in prev.Keys || cols[id] in prev.Values then next == prev
      else
        && next == prev[id := cols[id]]
        && next.Keys == prev.Keys + {id}
        && next.Values == prev.Values + {cols[id]}
  {
    var prev := MatchUpTo(order, cols, i);
    var id := order[i];
    if !(id in prev.Keys || cols[id] in prev.Values) {
      ValuesOfAdd(prev, id, cols[id]);
    }
  }

  /** Accepting one more pair: what the matching loop body does. */
  lemma AssignStep(r: Registry, m: map<nat, nat>, inputs: seq<Point>, id: nat, col: nat)
    requires forall k :: k in m ==> m[k] < |inputs|
    requires id in r.objects && id in r.disappeared && id !in m && col < |inputs|
    ensures var a := Assign(r, m, inputs);
      Assign(r, m[id := col], inputs) == Registry(a.objects[id := inputs[col]], a.disappeared[id := 0], a.nextId)
  {
    var a := Assign(r, m, inputs);
    var b := Assign(r, m[id := col], inputs);
    assert b.objects == a.objects[id := inputs[col]];
    assert b.disappeared == a.disappeared[id := 0];
  }

  class BallTracker {
    var nextObjectId: nat
    var objects: map<nat, Point>
    var disappeared: map<nat, nat>
    const maxDisappeared: int

    function State(): Registry
      reads this
    {
      Registry(objects, disappeared, nextObjectId)
    }

    ghost predicate Valid()
      reads this
    {
      ValidRegistry(State())
    }

    /** `__init__`: no objects, ids start at 1; `max_disappeared` defaults to 50. */
    constructor(maxDisappeared: Option<int>)
      ensures Valid()
      ensures State() == Registry(map[], map[], 1)
      ensures this.maxDisappeared == if maxDisappeared.Some? then maxDisappeared.value else DefaultMaxDisappeared
    {
      nextObjectId := 1;
      objects := map[];
      disappeared := map[];
      this.maxDisappeared := if maxDisappeared.Some? then maxDisappeared.value else DefaultMaxDisappeared;
    }

    /** `register`: store the centroid under the next id with no misses. */
    method Register(centroid: Point)
      modifies this
      ensures State() == Registered(old(State()), centroid)
    {
      objects := objects[nextObjectId := centroid];
      disappeared := disappeared[nextObjectId := 0];
      nextObjectId := nextObjectId + 1;
    }

    /** `deregister`: drop the id from both dictionaries (a missing id raises `KeyError` in the source). */
    method Deregister(id: nat)
      requires id in objects && id in disappeared
      modifies this
      ensures State() == Registry(old(objects) - {id}, old(disappeared) - {id}, old(nextObjectId))
    {
      objects := objects - {id};
      disappeared := disappeared - {id};
    }

    /** One more miss for each id in `ids`, deregistering those past `maxDisappeared`. */
    method AgeIds(ids: set<nat>)
      requires objects.Keys == disappeared.Keys && ids <= disappeared.Keys
      modifies this
      ensures State() == Age(old(State()), ids, maxDisappeared)
    {
      ghost var start := State();
      var remaining := ids;
      assert ids - remaining == {};
      assert Age(start, {}, maxDisappeared) == start;
      while remaining != {}
        invariant remaining <= ids
        invariant State() == Age(start, ids - remaining, maxDisappeared)
        decreases remaining
      {
        var id :| id in remaining;
        AgeStep(start, ids - remaining, id, maxDisappeared);
        assert (ids - remaining) + {id} == ids - (remaining - {id});
        disappeared := disappeared[id := disappeared[id] + 1];
        if disappeared[id] > maxDisappeared {
          Deregister(id);
        }
        remaining := remaining - {id};
      }
    }

    /** The registration loop of `update` when nothing is tracked: `register` each input, in list order. */
    method RegisterAll(inputs: seq<Point>)
      modifies this
      ensures State() == RegisteredAt(old(State()), inputs, UnusedCols({}, |inputs|))
    {
      ghost var start := State();
      var c := 0;
      while c < |inputs|
        invariant 0 <= c <= |inputs|
        invariant State() == RegisteredAt(start, inputs, UnusedCols({}, c))
      {
        RegisterNextColumn(start, inputs, {}, c);
        Register(inputs[c]);
        c := c + 1;
      }
    }

    /** The last loop of `update`: `register` the input at each column of `unusedOrder`, in that order. */
    method RegisterColumns(inputs: seq<Point>, unusedOrder: seq<nat>)
      requires forall i :: 0 <= i < |unusedOrder| ==> unusedOrder[i] < |inputs|
      modifies this
      ensures State() == RegisteredAt(old(State()), inputs, unusedOrder)
    {
      ghost var start := State();
      for k := 0 to |unusedOrder|
        invariant State() == RegisteredAt(start, inputs, unusedOrder[..k])
      {
        assert unusedOrder[..k + 1][..k] == unusedOrder[..k];
        Register(inputs[unusedOrder[k]]);
      }
      assert unusedOrder[..|unusedOrder|] == unusedOrder;
    }

    /**
      The matching loop of `update`: visit the rows in `order`, each trying its
      nearest column `cols[id]`, skipping a row or column already used.
    */
    method MatchRows(inputs: seq<Point>, order: seq<nat>, cols: map<nat, nat>) returns (usedRows: set<nat>, usedCols: set<nat>)
      requires forall k :: 0 <= k < |order| ==> order[k] in cols
      requires forall id :: id in cols ==> cols[id] < |inputs|
      requires forall k :: 0 <= k < |order| ==> order[k] in objects && order[k] in disappeared
      modifies this
      ensures usedRows == MatchUpTo(order, cols, |order|).Keys
      ensures usedCols == MatchUpTo(order, cols, |order|).Values
      ensures forall id :: id in MatchUpTo(order, cols, |order|) ==> id in cols && MatchUpTo(order, cols, |order|)[id] == cols[id]
      ensures State() == Assign(old(State()), MatchUpTo(order, cols, |order|), inputs)
    {
      ghost var start := State();
      usedRows, usedCols := {}, {};
      var i := 0;
      assert Assign(start, map[], inputs) == start;
      while i < |order|
        invariant 0 <= i <= |order|
        invariant usedRows == MatchUpTo(order, cols, i).Keys
        invariant usedCols == MatchUpTo(order, cols, i).Values
        invariant forall id :: id in MatchUpTo(order, cols, i) ==> MatchUpTo(order, cols, i)[id] < |inputs|
        invariant State() == Assign(start, MatchUpTo(order, cols, i), inputs)
      {
        ghost var prev := MatchUpTo(order, cols, i);
        MatchFollowsCols(order, cols, i + 1);
        MatchNextRow(order, cols, i);
        var id := order[i];
        var col := cols[id];
        if id !in usedRows && col !in usedCols {
          AssignStep(start, prev, inputs, id, col);
          objects := objects[id := inputs[col]];
          disappeared := disappeared[id := 0];
          usedRows := usedRows + {id};
          usedCols := usedCols + {col};
          assert State() == Assign(start, prev[id := col], inputs);
        }
        i := i + 1;
      }
      MatchFollowsCols(order, cols, |order|);
    }

    /**
      `update`: `order` is the row order `argsort` produced (as object ids); it
      only matters when there are both inputs and objects. `iterate` gives the
      order in which a `for` loop visits a set of columns.
    */
    method Update(inputs: seq<Point>, order: seq<nat>, iterate: set<nat> -> seq<nat>) returns (result: map<nat, Point>)
      requires Valid()
      requires |inputs| > 0 && |objects| > 0 ==> IsRowOrder(order, objects, inputs)
      requires forall s :: Enumerates(iterate(s), s)
      modifies this
      ensures Valid()
      ensures |inputs| == 0 || |old(objects)| == 0 ==>
        State() == UpdateSpec(old(State()), inputs, order, map[], [], maxDisappeared)
      ensures |inputs| > 0 && |old(objects)| > 0 ==>
        State() == UpdateSpec(old(State()), inputs, order, Columns(old(objects), inputs),
                              iterate(UnusedInputs(old(State()), inputs, order, Columns(old(objects), inputs))),
                              maxDisappeared)
      ensures result == objects
    {
      ghost var start := State();
      if |inputs| == 0 {
        UpdateKeepsValid(start, inputs, order, map[], [], maxDisappeared);
        AgeIds(disappeared.Keys);
        return objects;
      }
      if |objects| == 0 {
        UpdateKeepsValid(start, inputs, order, map[], [], maxDisappeared);
        RegisterAll(inputs);
      } else {
        var cols := Columns(objects, inputs);
        var usedRows, usedCols := MatchRows(inputs, order, cols);
        AgeIds(cols.Keys - usedRows);
        var unused := UnusedSet(usedCols, |inputs|);
        assert unused == UnusedInputs(start, inputs, order, cols);
        var unusedOrder := iterate(unused);
        UpdateKeepsValid(start, inputs, order, cols, unusedOrder, maxDisappeared);
        RegisterColumns(inputs, unusedOrder);
      }
      result := objects;
    }
  }
}
