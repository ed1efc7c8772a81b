/** The order in which the teleport helper tries positions, and the "first
    safe position in that order" that every scan returns. A ring scan walks
    in steps of r blocks along x; a disk scan tries the centre and then the
    rings of radius 0 to the width; a column scan runs disk scans on the levels
    0, +1, -1, +2, -2, ... up to the height. */
module ScanOrder {
  import opened Voxels
  import opened Safety

  /** The first position of `s` that is safe to stand at, if any. */
  function FirstSafe(w: World, s: seq<Pos>): (r: Option<Pos>)
  {
    if s == [] then None
    else if IsSafeLocation(w, s[0]) then Some(s[0])
    else FirstSafe(w, s[1..])
  }

  /** What the search finds is a safe position of `s`; it finds nothing
      exactly when no position of `s` is safe. */
  lemma {:induction false} FirstSafeSpec(w: World, s: seq<Pos>)
    ensures FirstSafe(w, s).Some? ==> FirstSafe(w, s).value in s && IsSafeLocation(w, FirstSafe(w, s).value)
    ensures FirstSafe(w, s).None? <==> forall i :: 0 <= i < |s| ==> !IsSafeLocation(w, s[i])
  {
    if s != [] {
      FirstSafeSpec(w, s[1..]);
      if !IsSafeLocation(w, s[0]) && FirstSafe(w, s[1..]).None? {
        forall i | 0 <= i < |s| ensures !IsSafeLocation(w, s[i]) {
          if i > 0 { assert s[i] == s[1..][i - 1]; }
        }
      }
    }
  }

  /** The first safe position is the one at the first index whose position is
      safe. */
  lemma {:induction false} FirstSafeAt(w: World, s: seq<Pos>, k: nat)
    requires k < |s| && IsSafeLocation(w, s[k])
    requires forall j :: 0 <= j < k ==> !IsSafeLocation(w, s[j])
    ensures FirstSafe(w, s) == Some(s[k])
  {
    if k > 0 {
      FirstSafeAt(w, s[1..], k - 1);
    }
  }

  /** Searching a concatenation searches the first part, then the second. */
  lemma {:induction false} FirstSafeAppend(w: World, a: seq<Pos>, b: seq<Pos>)
    ensures FirstSafe(w, a + b) == if FirstSafe(w, a).Some? then FirstSafe(w, a) else FirstSafe(w, b)
  {
    if a == [] {
      assert a + b == b;
    } else {
      assert (a + b)[1..] == a[1..] + b;
      FirstSafeAppend(w, a[1..], b);
    }
  }

  // ---------------------------------------------------------------- rings

  /** `n` positions on the level of `from`, starting at `from` and each
      `step` blocks east of the one before. */
  function Walk(from: Pos, step: int, n: nat): (s: seq<Pos>)
    ensures |s| == n
    decreases n
  {
    if n == 0 then [] else [from] + Walk(Pos(from.x + step, from.y, from.z), step, n - 1)
  }

  /** The first safe position of a walk, searched step by step. */
  function FirstSafeOnWalk(w: World, from: Pos, step: int, n: nat): Option<Pos>
    decreases n
  {
    if n == 0 then None
    else if IsSafeLocation(w, from) then Some(from)
    else FirstSafeOnWalk(w, Pos(from.x + step, from.y, from.z), step, n - 1)
  }

  /** Searching a walk step by step finds its first safe position. */
  lemma {:induction false} FirstSafeOnWalkIsFirstSafe(w: World, from: Pos, step: int, n: nat)
    ensures FirstSafeOnWalk(w, from, step, n) == FirstSafe(w, Walk(from, step, n))
    decreases n
  {
    if n > 0 {
      var next := Pos(from.x + step, from.y, from.z);
      assert Walk(from, step, n)[1..] == Walk(next, step, n - 1);
      FirstSafeOnWalkIsFirstSafe(w, next, step, n - 1);
    }
  }

  /** The k-th position of a walk lies k steps east of its start. */
  lemma {:induction false} WalkAt(from: Pos, step: int, n: nat, k: nat)
    requires k < n
    ensures Walk(from, step, n)[k] == Pos(from.x + k * step, from.y, from.z)
    decreases n
  {
    if k > 0 {
      WalkAt(Pos(from.x + step, from.y, from.z), step, n - 1, k - 1);
      assert from.x + step + (k - 1) * step == from.x + k * step;
    }
  }

  /** A walk with a non-negative step stays on its level and row, east of
      its start. */
  lemma {:induction false} InWalk(from: Pos, step: int, n: nat, p: Pos)
    requires step >= 0 && p in Walk(from, step, n)
    ensures p.y == from.y && p.z == from.z && from.x <= p.x
    decreases n
  {
    var next := Pos(from.x + step, from.y, from.z);
    if p != from {
      assert p in Walk(next, step, n - 1);
      InWalk(next, step, n - 1, p);
    }
  }

  /** The number of positions a ring scan of this radius tries. */
  function RingLength(radius: nat): nat {
    if radius == 0 then 1 else 8 * radius
  }

  /** The positions a ring scan of `radius` around `c` tries, in order: a walk
      in steps of `radius` starting `radius` blocks east of `c`. */
  function RingOrder(c: Pos, radius: nat): (s: seq<Pos>)
    ensures |s| == RingLength(radius)
  {
    Walk(Pos(c.x + radius, c.y, c.z), radius, RingLength(radius))
  }

  /** The ring scan tries, in order, the positions k·radius blocks east of
      `c` for k = 1 to 8·radius; radius 0 tries `c` alone. */
  lemma RingOrderAt(c: Pos, radius: nat, k: nat)
    requires k < RingLength(radius)
    ensures RingOrder(c, radius)[k] == Pos(c.x + (k + 1) * radius, c.y, c.z)
    ensures radius == 0 ==> RingOrder(c, radius) == [c]
  {
    WalkAt(Pos(c.x + radius, c.y, c.z), radius, RingLength(radius), k);
    assert c.x + radius + k * radius == c.x + (k + 1) * radius;
  }

  /** The rings of radius `from` to `from + count - 1`, one after the other. */
  function Rings(c: Pos, from: nat, count: nat): seq<Pos>
    decreases count
  {
    if count == 0 then [] else RingOrder(c, from) + Rings(c, from + 1, count - 1)
  }

  /** Searching consecutive rings finds what the smallest ring with a safe
      position finds. */
  lemma {:induction false} RingsFirst(w: World, c: Pos, from: nat, count: nat, r: nat)
    requires from <= r < from + count
    requires forall q :: from <= q < r ==> FirstSafe(w, RingOrder(c, q)).None?
    requires FirstSafe(w, RingOrder(c, r)).Some?
    ensures FirstSafe(w, Rings(c, from, count)) == FirstSafe(w, RingOrder(c, r))
    decreases count
  {
    FirstSafeAppend(w, RingOrder(c, from), Rings(c, from + 1, count - 1));
    if from < r {
      RingsFirst(w, c, from + 1, count - 1, r);
    }
  }

  /** Searching consecutive rings finds nothing exactly when no ring does. */
  lemma {:induction false} RingsNone(w: World, c: Pos, from: nat, count: nat)
    ensures FirstSafe(w, Rings(c, from, count)).None? <==>
      forall q :: from <= q < from + count ==> FirstSafe(w, RingOrder(c, q)).None?
    decreases count
  {
    if count > 0 {
      FirstSafeAppend(w, RingOrder(c, from), Rings(c, from + 1, count - 1));
      RingsNone(w, c, from + 1, count - 1);
    }
  }

  /** Every position of consecutive rings is on the level and row of `c`,
      east of `c` or at `c`. */
  lemma {:induction false} InRings(c: Pos, from: nat, count: nat, p: Pos)
    requires p in Rings(c, from, count)
    ensures p.y == c.y && p.z == c.z && c.x <= p.x
    decreases count
  {
    if p in RingOrder(c, from) {
      InWalk(Pos(c.x + from, c.y, c.z), from, RingLength(from), p);
    } else {
      InRings(c, from + 1, count - 1, p);
    }
  }

  // ----------------------------------------------------------------- disks

  /** The number of rings a disk scan of this width tries: radii 0 to width. */
  function RadiusCount(width: int): nat {
    if width < 0 then 0 else width + 1
  }

  /** The positions a disk scan tries, in order: the centre, then the rings
      of radius 0 to width. */
  function DiskOrder(c: Pos, width: int): seq<Pos> {
    [c] + Rings(c, 0, RadiusCount(width))
  }

  /** A safe centre is found first. */
  lemma DiskCentreFirst(w: World, c: Pos, width: int)
    requires IsSafeLocation(w, c)
    ensures FirstSafe(w, DiskOrder(c, width)) == Some(c)
  {
  }

  /** Past an unsafe centre, the disk scan finds what the smallest radius
      whose ring scan succeeds finds. */
  lemma DiskSmallestRadius(w: World, c: Pos, width: int, r: nat)
    requires !IsSafeLocation(w, c) && r <= width
    requires forall q :: 0 <= q < r ==> FirstSafe(w, RingOrder(c, q)).None?
    requires FirstSafe(w, RingOrder(c, r)).Some?
    ensures FirstSafe(w, DiskOrder(c, width)) == FirstSafe(w, RingOrder(c, r))
  {
    FirstSafeAppend(w, [c], Rings(c, 0, RadiusCount(width)));
    RingsFirst(w, c, 0, RadiusCount(width), r);
  }

  /** The disk scan finds nothing exactly when the centre is unsafe and every
      ring scan of radius 0 to width finds nothing. */
  lemma DiskNone(w: World, c: Pos, width: int)
    ensures FirstSafe(w, DiskOrder(c, width)).None? <==>
      && !IsSafeLocation(w, c)
      && forall q :: 0 <= q <= width ==> FirstSafe(w, RingOrder(c, q)).None?
  {
    FirstSafeAppend(w, [c], Rings(c, 0, RadiusCount(width)));
    RingsNone(w, c, 0, RadiusCount(width));
  }

  /** Every position a disk scan tries is on the level and row of its
      centre, east of it or at it. */
  lemma InDisk(c: Pos, width: int, p: Pos)
    requires p in DiskOrder(c, width)
    ensures p.y == c.y && p.z == c.z && c.x <= p.x
  {
    if p != c {
      InRings(c, 0, RadiusCount(width), p);
    }
  }

  // ---------------------------------------------------------------- levels

  /** The number of levels a column scan tries: 0 and ±1 to ±height. */
  function LevelCount(height: int): nat {
    if height < 0 then 1 else 2 * height + 1
  }

  /** The vertical offset of the i-th level tried: 0, +1, -1, +2, -2, ... */
  function LevelOffset(i: nat): int {
    if i == 0 then 0
    else if i % 2 == 1 then (i + 1) / 2
    else -(i / 2)
  }

  /** The level `level` blocks up is tried at index 2·level - 1, the level
      `level` blocks down right after it. */
  lemma LevelOffsetOfLevel(level: int)
    requires level >= 1
    ensures LevelOffset(2 * level - 1) == level
    ensures LevelOffset(2 * level) == -level
  {
  }

  /** The disk scans of the levels with indices `from` to `from + count - 1`,
      one after the other. */
  function Levels(c: Pos, width: int, from: nat, count: nat): seq<Pos>
    decreases count
  {
    if count == 0 then []
    else DiskOrder(c.Lift(LevelOffset(from)), width) + Levels(c, width, from + 1, count - 1)
  }

  /** Every position tried on the levels with indices below `from + count` is
      on the row of `c`, east of it or at it, and at most (from + count) / 2
      levels above or below it. */
  lemma {:induction false} InLevels(c: Pos, width: int, from: nat, count: nat, p: Pos)
    requires p in Levels(c, width, from, count)
    ensures p.z == c.z && c.x <= p.x
    ensures -((from + count) / 2) <= p.y - c.y <= (from + count) / 2
    decreases count
  {
    var level := c.Lift(LevelOffset(from));
    if p in DiskOrder(level, width) {
      InDisk(level, width, p);
    } else {
      InLevels(c, width, from + 1, count - 1, p);
    }
  }

  /** Searching consecutive levels finds what the first level whose disk scan
      succeeds finds. */
  lemma {:induction false} LevelsFirst(w: World, c: Pos, width: int, from: nat, count: nat, i: nat)
    requires from <= i < from + count
    requires forall j :: from <= j < i ==> FirstSafe(w, DiskOrder(c.Lift(LevelOffset(j)), width)).None?
    requires FirstSafe(w, DiskOrder(c.Lift(LevelOffset(i)), width)).Some?
    ensures FirstSafe(w, Levels(c, width, from, count)) == FirstSafe(w, DiskOrder(c.Lift(LevelOffset(i)), width))
    decreases count
  {
    FirstSafeAppend(w, DiskOrder(c.Lift(LevelOffset(from)), width), Levels(c, width, from + 1, count - 1));
    if from < i {
      LevelsFirst(w, c, width, from + 1, count - 1, i);
    }
  }

  /** Searching consecutive levels finds nothing exactly when no level's disk
      scan does. */
  lemma {:induction false} LevelsNone(w: World, c: Pos, width: int, from: nat, count: nat)
    ensures FirstSafe(w, Levels(c, width, from, count)).None? <==>
      forall j :: from <= j < from + count ==> FirstSafe(w, DiskOrder(c.Lift(LevelOffset(j)), width)).None?
    decreases count
  {
    if count > 0 {
      FirstSafeAppend(w, DiskOrder(c.Lift(LevelOffset(from)), width), Levels(c, width, from + 1, count - 1));
      LevelsNone(w, c, width, from + 1, count - 1);
    }
  }

  /** How many levels up and down a column scan reaches. */
  function Reach(height: int): int {
    if height < 0 then 0 else height
  }

  /** The levels tried lie within the reach of the column scan. */
  lemma LevelOffsetInReach(height: int, i: nat)
    requires i < LevelCount(height)
    ensures -Reach(height) <= LevelOffset(i) <= Reach(height)
  {
  }

  /** Where in the level order the level `d` blocks up (down for negative `d`)
      is tried. */
  function LevelIndex(d: int): (i: nat)
    ensures LevelOffset(i) == d
  {
    if d == 0 then 0 else if d > 0 then 2 * d - 1 else -2 * d
  }

  // ---------------------------------------------------------------- search

  /** All positions the helper tries around `c`, in order. */
  function SearchOrder(c: Pos, height: int, width: int): seq<Pos> {
    Levels(c, width, 0, LevelCount(height))
  }

  /** The search finds what the disk scan of the first level that succeeds
      finds, levels taken in the order 0, +1, -1, +2, -2, ... */
  lemma SearchFirstLevel(w: World, c: Pos, height: int, width: int, i: nat)
    requires i < LevelCount(height)
    requires forall j :: 0 <= j < i ==> FirstSafe(w, DiskOrder(c.Lift(LevelOffset(j)), width)).None?
    requires FirstSafe(w, DiskOrder(c.Lift(LevelOffset(i)), width)).Some?
    ensures FirstSafe(w, SearchOrder(c, height, width)) == FirstSafe(w, DiskOrder(c.Lift(LevelOffset(i)), width))
  {
    LevelsFirst(w, c, width, 0, LevelCount(height), i);
  }

  /** The search finds nothing exactly when the disk scan of every level from
      `Reach(height)` below to `Reach(height)` above finds nothing. */
  lemma SearchNone(w: World, c: Pos, height: int, width: int)
    ensures FirstSafe(w, SearchOrder(c, height, width)).None? <==>
      forall d :: -Reach(height) <= d <= Reach(height) ==> FirstSafe(w, DiskOrder(c.Lift(d), width)).None?
  {
    var count := LevelCount(height);
    LevelsNone(w, c, width, 0, count);
    if FirstSafe(w, SearchOrder(c, height, width)).None? {
      forall d | -Reach(height) <= d <= Reach(height)
        ensures FirstSafe(w, DiskOrder(c.Lift(d), width)).None?
      {
        assert LevelIndex(d) < count;
      }
    } else {
      var j :| 0 <= j < count && FirstSafe(w, DiskOrder(c.Lift(LevelOffset(j)), width)).Some?;
      LevelOffsetInReach(height, j);
    }
  }

  /** Every position the search tries is on the row of `c`, east of it or at
      it, and within `Reach(height)` levels of it. */
  lemma InSearchOrder(c: Pos, height: int, width: int, p: Pos)
    requires p in SearchOrder(c, height, width)
    ensures p.z == c.z && c.x <= p.x
    ensures -Reach(height) <= p.y - c.y <= Reach(height)
  {
    InLevels(c, width, 0, LevelCount(height), p);
  }

  /** A position the search finds is safe to stand at, lies within the
      dimension with room for the block above and below, on the row of `c`,
      east of it or at it, and within `Reach(height)` levels of it. */
  lemma SearchFound(w: World, c: Pos, height: int, width: int)
    requires FirstSafe(w, SearchOrder(c, height, width)).Some?
    ensures var p := FirstSafe(w, SearchOrder(c, height, width)).value;
      && IsSafeLocation(w, p)
      && 1 <= p.y && p.y + 1 < w.height
      && p.z == c.z && c.x <= p.x
      && -Reach(height) <= p.y - c.y <= Reach(height)
  {
    var p := FirstSafe(w, SearchOrder(c, height, width)).value;
    FirstSafeSpec(w, SearchOrder(c, height, width));
    SafeLocationSound(w, p);
    InSearchOrder(c, height, width, p);
  }
}
