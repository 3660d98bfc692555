/**
 * Course generation for the AgileForce obstacle course
 * (`generateObstacles` in src/app/agileforce/page.tsx): the obstacle pool,
 * the "one of each special obstacle, execute obstacles for the rest" fill and
 * the in-place Fisher-Yates shuffle. `Math.random` is an oracle: `random(k)`
 * is the value of the k-th call, a real in [0, 1).
 */
module AgileForceCourse {

  datatype ObstacleType = Execute | Wait | Multi

  datatype Obstacle = Obstacle(name: string, instruction: string, subLabel: string, kind: ObstacleType)

  const ObstaclePool: seq<Obstacle> := [
    Obstacle("DUCK", "EXECUTE", "Get low. Stay low.", Execute),
    Obstacle("JUMP", "EXECUTE", "Clear the obstacle.", Execute),
    Obstacle("LOW CRAWL", "EXECUTE", "Elbows. Use your elbows.", Execute),
    Obstacle("PIVOT", "EXECUTE", "Change direction. Immediately.", Execute),
    Obstacle("CIRCLE BACK", "EXECUTE", "Return to previous position.", Execute),
    Obstacle("LEVERAGE SYNERGIES", "CLICK × 3 RAPIDLY", "Corporate muscle memory.", Multi),
    Obstacle("TAKE IT OFFLINE", "DO NOTHING", "The correct answer is inaction. Wait for it to pass.", Wait)
  ]

  /** `Math.random()` returns a value in [0, 1). */
  predicate IsRandom(r: real)
  {
    0.0 <= r < 1.0
  }

  ghost predicate IsRandomSource(random: nat -> real)
  {
    forall k: nat :: IsRandom(random(k))
  }

  /** `Math.floor(r * n)`: an index below `n`. */
  function Pick(r: real, n: nat): (j: nat)
    requires IsRandom(r) && n > 0
    ensures j < n
  {
    assert 0.0 <= r * n as real by {
      assert 0.0 <= r && 0.0 <= n as real;
    }
    assert r * n as real < n as real by {
      assert (1.0 - r) * n as real > 0.0;
    }
    (r * n as real).Floor
  }

  /** `pool.filter(o => (o.type === "execute") == executes)`. */
  function Filter(pool: seq<Obstacle>, executes: bool): (r: seq<Obstacle>)
    ensures |r| <= |pool|
    ensures forall k :: 0 <= k < |r| ==> (r[k].kind == Execute) == executes && r[k] in pool
  {
    if pool == [] then []
    else
      var tail := Filter(pool[1..], executes);
      if (pool[0].kind == Execute) == executes then [pool[0]] + tail else tail
  }

  /** Number of obstacles of type `t` in `s`. */
  function CountKind(s: seq<Obstacle>, t: ObstacleType): nat
  {
    if s == [] then 0 else (if s[0].kind == t then 1 else 0) + CountKind(s[1..], t)
  }

  lemma {:induction false} CountKindAppend(a: seq<Obstacle>, b: seq<Obstacle>, t: ObstacleType)
    ensures CountKind(a + b, t) == CountKind(a, t) + CountKind(b, t)
    decreases |a|
  {
    if a == [] {
      assert a + b == b;
    } else {
      assert (a + b)[0] == a[0];
      assert (a + b)[1..] == a[1..] + b;
      CountKindAppend(a[1..], b, t);
    }
  }

  /** Counting by type sees only the multiset of obstacles, not their order. */
  lemma {:induction false} CountKindPermutation(s: seq<Obstacle>, u: seq<Obstacle>, t: ObstacleType)
    requires multiset(s) == multiset(u)
    ensures CountKind(s, t) == CountKind(u, t)
    decreases |s|
  {
    if s == [] {
      assert |multiset(u)| == 0;
    } else {
      var x := s[0];
      assert x in multiset(u);
      var i :| 0 <= i < |u| && u[i] == x;
      var rest := u[..i] + u[i + 1..];
      MultisetRemoveFirst(s, u, i);
      CountKindPermutation(s[1..], rest, t);
      CountKindRemove(u, i, t);
    }
  }

  /** Removing the first element of `s` and the same element of `u` keeps the multisets equal. */
  lemma MultisetRemoveFirst<T>(s: seq<T>, u: seq<T>, i: nat)
    requires multiset(s) == multiset(u) && s != [] && i < |u| && u[i] == s[0]
    ensures multiset(s[1..]) == multiset(u[..i] + u[i + 1..])
  {
    assert u == u[..i] + [s[0]] + u[i + 1..];
    assert s == [s[0]] + s[1..];
    calc {
      multiset(s[1..]);
      multiset(s) - multiset{s[0]};
      multiset(u) - multiset{s[0]};
      multiset(u[..i]) + multiset(u[i + 1..]);
      multiset(u[..i] + u[i + 1..]);
    }
  }

  /** Taking out the element at `i` lowers the count of its type by one. */
  lemma CountKindRemove(u: seq<Obstacle>, i: nat, t: ObstacleType)
    requires i < |u|
    ensures CountKind(u, t) == (if u[i].kind == t then 1 else 0) + CountKind(u[..i] + u[i + 1..], t)
  {
    assert u == u[..i] + ([u[i]] + u[i + 1..]);
    CountKindAppend(u[..i], [u[i]] + u[i + 1..], t);
    CountKindAppend(u[..i], u[i + 1..], t);
    assert ([u[i]] + u[i + 1..])[1..] == u[i + 1..];
  }

  /** In a sequence of one type only, that type counts everything and the others nothing. */
  lemma {:induction false} CountKindUniform(s: seq<Obstacle>, t: ObstacleType, other: ObstacleType)
    requires forall k :: 0 <= k < |s| ==> s[k].kind == t
    requires other != t
    ensures CountKind(s, t) == |s| && CountKind(s, other) == 0
  {
    if s != [] {
      assert s[0].kind == t;
      CountKindUniform(s[1..], t, other);
    }
  }

  /** The execute fillers: draw `k` picks `execute[Math.floor(random(k) * |execute|)]`. */
  function Fill(execute: seq<Obstacle>, random: nat -> real, n: nat): (r: seq<Obstacle>)
    requires |execute| > 0 && IsRandomSource(random)
    ensures |r| == n
    ensures forall k :: 0 <= k < n ==> r[k] in execute
  {
    if n == 0 then []
    else Fill(execute, random, n - 1) + [execute[Pick(random(n - 1), |execute|)]]
  }

  /** `[all[i], all[j]] = [all[j], all[i]]`. */
  function Swap<T>(s: seq<T>, i: nat, j: nat): (r: seq<T>)
    requires i < |s| && j < |s|
    ensures |r| == |s|
  {
    s[i := s[j]][j := s[i]]
  }

  lemma SwapPermutes<T>(s: seq<T>, i: nat, j: nat)
    requires i < |s| && j < |s|
    ensures multiset(Swap(s, i, j)) == multiset(s)
  {
  }

  /**
   * The Fisher-Yates loop from index `i` down to 1: step `i` swaps `s[i]` with
   * `s[j]`, `j = Math.floor(r * (i + 1))`, where `r` is the shuffle's
   * `(|s| - 1 - i)`-th draw, `random(base + |s| - 1 - i)`.
   */
  function ShuffleDown<T>(s: seq<T>, random: nat -> real, base: nat, i: nat): seq<T>
    requires i < |s| && IsRandomSource(random)
    decreases i
  {
    if i == 0 then s
    else ShuffleDown(Swap(s, i, Pick(random(base + |s| - 1 - i), i + 1)), random, base, i - 1)
  }

  function Shuffled<T>(s: seq<T>, random: nat -> real, base: nat): seq<T>
    requires IsRandomSource(random)
  {
    if s == [] then s else ShuffleDown(s, random, base, |s| - 1)
  }

  /** The shuffle only swaps, so it returns a permutation of its input. */
  lemma {:induction false} ShuffleDownPermutes<T>(s: seq<T>, random: nat -> real, base: nat, i: nat)
    requires i < |s| && IsRandomSource(random)
    ensures |ShuffleDown(s, random, base, i)| == |s|
    ensures multiset(ShuffleDown(s, random, base, i)) == multiset(s)
    decreases i
  {
    if i > 0 {
      var t := Swap(s, i, Pick(random(base + |s| - 1 - i), i + 1));
      SwapPermutes(s, i, Pick(random(base + |s| - 1 - i), i + 1));
      ShuffleDownPermutes(t, random, base, i - 1);
    }
  }

  lemma ShuffledPermutes<T>(s: seq<T>, random: nat -> real, base: nat)
    requires IsRandomSource(random)
    ensures |Shuffled(s, random, base)| == |s|
    ensures multiset(Shuffled(s, random, base)) == multiset(s)
  {
    if s != [] {
      ShuffleDownPermutes(s, random, base, |s| - 1);
    }
  }

  /** One step of the loop: swapping at `i` and carrying on from `i - 1` is the shuffle from `i`. */
  lemma ShuffleStep<T>(before: seq<T>, after: seq<T>, random: nat -> real, base: nat, i: nat)
    requires 0 < i < |before| && IsRandomSource(random)
    requires after == Swap(before, i, Pick(random(base + |before| - 1 - i), i + 1))
    ensures ShuffleDown(after, random, base, i - 1) == ShuffleDown(before, random, base, i)
  {
  }

  /** The Fisher-Yates shuffle of `all`, in place. */
  method Shuffle<T>(a: array<T>, random: nat -> real, base: nat)
    requires IsRandomSource(random)
    modifies a
    ensures a[..] == Shuffled(old(a[..]), random, base)
  {
    if a.Length == 0 {
      return;
    }
    ghost var target := Shuffled(a[..], random, base);
    var i := a.Length - 1;
    while i > 0
      invariant 0 <= i < a.Length
      invariant ShuffleDown(a[..], random, base, i) == target
    {
      var j := Pick(random(base + a.Length - 1 - i), i + 1);
      ghost var before := a[..];
      a[i], a[j] := a[j], a[i];
      assert ShuffleDown(a[..], random, base, i - 1) == target by {
        assert a[..] == Swap(before, i, j);
        ShuffleStep(before, a[..], random, base, i);
      }
      i := i - 1;
    }
  }

  /** A pool the course can be built from: one Wait, one Multi, and some Execute obstacles. */
  predicate ValidPool(pool: seq<Obstacle>)
  {
    CountKind(pool, Wait) == 1 && CountKind(pool, Multi) == 1 && CountKind(pool, Execute) > 0
  }

  /** The page's pool is such a pool. */
  lemma ObstaclePoolValid()
    ensures ValidPool(ObstaclePool)
  {
  }

  /** Splitting the pool by `type === "execute"` keeps every obstacle on exactly one side. */
  lemma {:induction false} FilterCounts(pool: seq<Obstacle>)
    ensures |Filter(pool, true)| == CountKind(pool, Execute)
    ensures |Filter(pool, false)| == CountKind(pool, Wait) + CountKind(pool, Multi)
    ensures CountKind(Filter(pool, false), Wait) == CountKind(pool, Wait)
    ensures CountKind(Filter(pool, false), Multi) == CountKind(pool, Multi)
    ensures CountKind(Filter(pool, false), Execute) == 0
  {
    if pool != [] {
      FilterCounts(pool[1..]);
      var x := pool[0];
      var tail := Filter(pool[1..], false);
      if x.kind != Execute {
        assert ([x] + tail)[1..] == tail;
      }
    }
  }

  /** Execute fillers needed after the `required` specials: `Math.max(0, count - required.length)`. */
  function FillCount(count: int, required: nat): nat
  {
    if count - required > 0 then count - required else 0
  }

  /** Length of a generated course: `count`, but never fewer than the two specials. */
  function CourseLength(count: int): (n: nat)
    ensures count >= 2 ==> n == count
    ensures count < 2 ==> n == 2
  {
    2 + FillCount(count, 2)
  }

  /** The course before shuffling: the specials in pool order, then the execute fillers. */
  function Unshuffled(pool: seq<Obstacle>, count: int, random: nat -> real): (r: seq<Obstacle>)
    requires ValidPool(pool) && IsRandomSource(random)
  {
    FilterCounts(pool);
    var required := Filter(pool, false);
    required + Fill(Filter(pool, true), random, FillCount(count, |required|))
  }

  /** The generated course: the unshuffled course, shuffled with the draws after the fill draws. */
  function Course(pool: seq<Obstacle>, count: int, random: nat -> real): seq<Obstacle>
    requires ValidPool(pool) && IsRandomSource(random)
  {
    Shuffled(Unshuffled(pool, count, random), random, FillCount(count, |Filter(pool, false)|))
  }

  /**
   * What a generated course promises whatever the random draws: `count`
   * obstacles (at least two), exactly one Wait and one Multi, every other
   * obstacle an Execute one, all taken from the pool, and a permutation of
   * the unshuffled course.
   */
  lemma CourseShape(pool: seq<Obstacle>, count: int, random: nat -> real)
    requires ValidPool(pool) && IsRandomSource(random)
    ensures |Course(pool, count, random)| == CourseLength(count)
    ensures multiset(Course(pool, count, random)) == multiset(Unshuffled(pool, count, random))
    ensures CountKind(Course(pool, count, random), Wait) == 1
    ensures CountKind(Course(pool, count, random), Multi) == 1
    ensures CountKind(Course(pool, count, random), Execute) == CourseLength(count) - 2
    ensures forall k :: 0 <= k < |Course(pool, count, random)| ==> Course(pool, count, random)[k] in pool
  {
    var joined := Unshuffled(pool, count, random);
    var course := Course(pool, count, random);
    FilterCounts(pool);
    ShuffledPermutes(joined, random, FillCount(count, |Filter(pool, false)|));
    UnshuffledShape(pool, count, random);
    CountKindPermutation(course, joined, Wait);
    CountKindPermutation(course, joined, Multi);
    CountKindPermutation(course, joined, Execute);
    forall k | 0 <= k < |course| ensures course[k] in pool {
      assert course[k] in multiset(joined);
    }
  }

  lemma UnshuffledShape(pool: seq<Obstacle>, count: int, random: nat -> real)
    requires ValidPool(pool) && IsRandomSource(random)
    ensures |Unshuffled(pool, count, random)| == CourseLength(count)
    ensures CountKind(Unshuffled(pool, count, random), Wait) == 1
    ensures CountKind(Unshuffled(pool, count, random), Multi) == 1
    ensures CountKind(Unshuffled(pool, count, random), Execute) == CourseLength(count) - 2
    ensures forall o :: o in Unshuffled(pool, count, random) ==> o in pool
  {
    FilterCounts(pool);
    var special := Filter(pool, false);
    var fill := Fill(Filter(pool, true), random, FillCount(count, |special|));
    assert Unshuffled(pool, count, random) == special + fill;
    assert forall k :: 0 <= k < |fill| ==> fill[k].kind == Execute;
    CountKindUniform(fill, Execute, Wait);
    CountKindUniform(fill, Execute, Multi);
    CountKindAppend(special, fill, Wait);
    CountKindAppend(special, fill, Multi);
    CountKindAppend(special, fill, Execute);
  }

  /**
   * `generateObstacles(count)` over `pool` (the page passes its obstacle
   * pool): the specials, `Math.max(0, count - required.length)` execute
   * fillers drawn from the random source, shuffled in place with the draws
   * that follow.
   */
  method GenerateObstacles(pool: seq<Obstacle>, count: int, random: nat -> real) returns (course: seq<Obstacle>)
    requires ValidPool(pool) && IsRandomSource(random)
    ensures course == Course(pool, count, random)
  {
    FilterCounts(pool);
    var execute := Filter(pool, true);
    var special := Filter(pool, false);
    var required := special;
    var remaining := if count - |required| > 0 then count - |required| else 0;
    var fill: seq<Obstacle> := [];
    for i := 0 to remaining
      invariant fill == Fill(execute, random, i)
    {
      fill := fill + [execute[Pick(random(i), |execute|)]];
    }
    var joined := required + fill;
    assert joined == Unshuffled(pool, count, random);
    var all := new Obstacle[|joined|](k requires 0 <= k < |joined| => joined[k]);
    assert all[..] == joined;
    Shuffle(all, random, remaining);
    course := all[..];
  }
}
