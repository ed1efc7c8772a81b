/** The teleport helper's searches and its entry points. Each scan tries
    positions one at a time and returns the first safe one; each is proved to
    return the first safe position of its order in ScanOrder. */
module TeleportHelper {
  import opened Voxels
  import opened Safety
  import opened ScanOrder

  /** The height radius the one-argument entry point searches. */
  const DefaultHeight: int := 3
  /** The width radius the one-argument entry point searches. */
  const DefaultWidth: int := 9
  /** The horizontal offset that centres a position in its block. */
  const BlockCenter: real := 0.5

  /** The ring scan: from the block `c`, step `radius` blocks east at a
      time, first once, then radius, 2·radius, 2·radius, 2·radius and
      radius - 1 times, and return the first safe position reached. */
  method CheckAroundSpecificDiameter(world: World, c: Pos, radius: nat) returns (res: Option<Pos>)
    ensures res == FirstSafe(world, RingOrder(c, radius))
  {
    ghost var found := FirstSafe(world, RingOrder(c, radius));
    // `rest` counts the positions of the ring not tried yet.
    ghost var rest: nat := RingLength(radius) - 1;
    var blockPos := Pos(c.x + radius, c.y, c.z);
    FirstSafeOnWalkIsFirstSafe(world, blockPos, radius, RingLength(radius));
    if IsSafeLocation(world, blockPos) {
      return Some(blockPos);
    }

    var i;
    // Up to the first corner.
    i := 0;
    while i < radius
      invariant 0 <= i && i <= radius && rest == RingLength(radius) - 1 - i
      invariant found == FirstSafeOnWalk(world, Pos(blockPos.x + radius, blockPos.y, blockPos.z), radius, rest)
    {
      blockPos := Pos(blockPos.x + radius, blockPos.y, blockPos.z);
      if IsSafeLocation(world, blockPos) {
        return Some(blockPos);
      }
      rest, i := rest - 1, i + 1;
    }

    // To the second corner.
    i := 0;
    while i < radius * 2
      invariant 0 <= i && i <= 2 * radius && rest == RingLength(radius) - 1 - radius - i
      invariant found == FirstSafeOnWalk(world, Pos(blockPos.x + radius, blockPos.y, blockPos.z), radius, rest)
    {
      blockPos := Pos(blockPos.x + radius, blockPos.y, blockPos.z);
      if IsSafeLocation(world, blockPos) {
        return Some(blockPos);
      }
      rest, i := rest - 1, i + 1;
    }

    // To the third corner.
    i := 0;
    while i < radius * 2
      invariant 0 <= i && i <= 2 * radius && rest == RingLength(radius) - 1 - 3 * radius - i
      invariant found == FirstSafeOnWalk(world, Pos(blockPos.x + radius, blockPos.y, blockPos.z), radius, rest)
    {
      blockPos := Pos(blockPos.x + radius, blockPos.y, blockPos.z);
      if IsSafeLocation(world, blockPos) {
        return Some(blockPos);
      }
      rest, i := rest - 1, i + 1;
    }

    // To the last corner.
    i := 0;
    while i < radius * 2
      invariant 0 <= i && i <= 2 * radius && rest == RingLength(radius) - 1 - 5 * radius - i
      invariant found == FirstSafeOnWalk(world, Pos(blockPos.x + radius, blockPos.y, blockPos.z), radius, rest)
    {
      blockPos := Pos(blockPos.x + radius, blockPos.y, blockPos.z);
      if IsSafeLocation(world, blockPos) {
        return Some(blockPos);
      }
      rest, i := rest - 1, i + 1;
    }

    // Back to just before the start.
    i := 0;
    while i < radius - 1
      invariant 0 <= i && (if radius > 0 then i <= radius - 1 else i == 0) && rest == RingLength(radius) - 1 - 7 * radius - i
      invariant found == FirstSafeOnWalk(world, Pos(blockPos.x + radius, blockPos.y, blockPos.z), radius, rest)
    {
      blockPos := Pos(blockPos.x + radius, blockPos.y, blockPos.z);
      if IsSafeLocation(world, blockPos) {
        return Some(blockPos);
      }
      rest, i := rest - 1, i + 1;
    }
    return None;
  }

  /** The disk scan: the block `blockPos` itself, then the ring scans of
      radius 0 to `radius`, smallest first. */
  method CheckAroundLocation(world: World, blockPos: Pos, radius: int) returns (res: Option<Pos>)
    ensures res == FirstSafe(world, DiskOrder(blockPos, radius))
  {
    if IsSafeLocation(world, blockPos) {
      return Some(blockPos);
    }

    var currentRadius := 0;
    while currentRadius <= radius
      invariant 0 <= currentRadius <= RadiusCount(radius)
      invariant FirstSafe(world, DiskOrder(blockPos, radius))
             == FirstSafe(world, Rings(blockPos, currentRadius, RadiusCount(radius) - currentRadius))
    {
      var safePosition := CheckAroundSpecificDiameter(world, blockPos, currentRadius);
      FirstSafeAppend(world, RingOrder(blockPos, currentRadius),
                      Rings(blockPos, currentRadius + 1, RadiusCount(radius) - currentRadius - 1));
      if safePosition.Some? {
        return safePosition;
      }
      currentRadius := currentRadius + 1;
    }
    return None;
  }

  /** The column scan: the disk scan on the level of `location`, then on the
      levels 1 above, 1 below, 2 above, 2 below, ... up to `height`. */
  method CheckAboveAndBelowLocation(world: World, location: Pos, height: int, width: int) returns (res: Option<Pos>)
    ensures res == FirstSafe(world, SearchOrder(location, height, width))
  {
    var count := LevelCount(height);
    var safe := CheckAroundLocation(world, location, width);
    FirstSafeAppend(world, DiskOrder(location, width), Levels(location, width, 1, count - 1));
    if safe.Some? {
      return safe;
    }

    var currentLevel := 1;
    while currentLevel <= height
      invariant 1 <= currentLevel && 2 * currentLevel - 1 <= count
      invariant FirstSafe(world, SearchOrder(location, height, width))
             == FirstSafe(world, Levels(location, width, 2 * currentLevel - 1, count - (2 * currentLevel - 1)))
    {
      LevelOffsetOfLevel(currentLevel);
      safe := CheckAroundLocation(world, location.Lift(currentLevel), width);
      FirstSafeAppend(world, DiskOrder(location.Lift(currentLevel), width),
                      Levels(location, width, 2 * currentLevel, count - 2 * currentLevel));
      if safe.Some? {
        return safe;
      }

      safe := CheckAroundLocation(world, location.Lift(-currentLevel), width);
      FirstSafeAppend(world, DiskOrder(location.Lift(-currentLevel), width),
                      Levels(location, width, 2 * currentLevel + 1, count - 2 * currentLevel - 1));
      if safe.Some? {
        return safe;
      }
      currentLevel := currentLevel + 1;
    }
    return None;
  }

  /** The location in the middle of the block of `location`, horizontally:
      x and z half a block past the block's lower corner, y at its floor. */
  function GetBlockCenteredCoordinates(location: Location): (centred: Location)
    ensures centred.world == location.world
    ensures BlockPosition(centred.pos) == BlockPosition(location.pos)
    ensures centred.pos.x - centred.pos.x.Floor as real == BlockCenter
    ensures centred.pos.z - centred.pos.z.Floor as real == BlockCenter
    ensures centred.pos.y == centred.pos.y.Floor as real
  {
    var block := BlockPosition(location.pos);
    Location(location.world, Vec3d(block.x as real + BlockCenter, block.y as real, block.z as real + BlockCenter))
  }

  /** What the general entry point returns: the centred location of the first
      safe position of the search around the block of `location`, or a null
      reference when there is none. */
  function SafeLocation(location: Location, height: int, width: int): NullableOptional<Location> {
    match FirstSafe(location.world, SearchOrder(BlockPosition(location.pos), height, width))
    case None => Null
    case Some(p) => Present(GetBlockCenteredCoordinates(Location(location.world, Corner(p))))
  }

  /** The general entry point: search `height` levels up and down and
      `width` rings out around the block of `location`. */
  method GetSafeLocationWithin(location: Location, height: int, width: int) returns (res: NullableOptional<Location>)
    ensures res == SafeLocation(location, height, width)
  {
    var safe := CheckAboveAndBelowLocation(location.world, BlockPosition(location.pos), height, width);
    if safe.Some? {
      return Present(GetBlockCenteredCoordinates(Location(location.world, Corner(safe.value))));
    } else {
      return Null;
    }
  }

  /** The one-argument entry point: the general one with the default height
      and width. */
  method GetSafeLocation(location: Location) returns (res: NullableOptional<Location>)
    ensures res == SafeLocation(location, DefaultHeight, DefaultWidth)
  {
    res := GetSafeLocationWithin(location, DefaultHeight, DefaultWidth);
  }

  /** The entry point never returns an absent Optional. What it returns is
      in the same world, centred in its block, and that block is safe to
      stand at, lies within the dimension with room above and below, on the
      row of the start block, east of it or at it, and within `Reach(height)`
      levels of it. */
  lemma SafeLocationFound(location: Location, height: int, width: int)
    ensures !SafeLocation(location, height, width).Absent?
    ensures SafeLocation(location, height, width).Present? ==>
      var found := SafeLocation(location, height, width).value;
      var start, p := BlockPosition(location.pos), BlockPosition(found.pos);
      && found.world == location.world
      && found.pos.x - found.pos.x.Floor as real == BlockCenter
      && found.pos.z - found.pos.z.Floor as real == BlockCenter
      && found.pos.y == found.pos.y.Floor as real
      && IsSafeLocation(location.world, p)
      && 1 <= p.y && p.y + 1 < location.world.height
      && p.z == start.z && start.x <= p.x
      && -Reach(height) <= p.y - start.y <= Reach(height)
  {
    var start := BlockPosition(location.pos);
    if FirstSafe(location.world, SearchOrder(start, height, width)).Some? {
      SearchFound(location.world, start, height, width);
    }
  }

  /** The entry point returns a null reference exactly when no level from
      `Reach(height)` below to `Reach(height)` above the start has a disk scan
      that succeeds. */
  lemma SafeLocationNull(location: Location, height: int, width: int)
    ensures SafeLocation(location, height, width).Null? <==>
      forall d :: -Reach(height) <= d <= Reach(height) ==>
        FirstSafe(location.world, DiskOrder(BlockPosition(location.pos).Lift(d), width)).None?
  {
    SearchNone(location.world, BlockPosition(location.pos), height, width);
  }

  /** A safe start block is returned, centred, without looking further. */
  lemma SafeLocationCentreFirst(location: Location, height: int, width: int)
    requires IsSafeLocation(location.world, BlockPosition(location.pos))
    ensures SafeLocation(location, height, width) ==
      Present(GetBlockCenteredCoordinates(Location(location.world, Corner(BlockPosition(location.pos)))))
  {
    var start := BlockPosition(location.pos);
    assert start.Lift(LevelOffset(0)) == start;
    DiskCentreFirst(location.world, start, width);
    SearchFirstLevel(location.world, start, height, width, 0);
  }

  /** When the start level has no safe position and the level one above has
      one, the result comes from the level above, whatever lies below. */
  lemma SafeLocationPrefersAbove(location: Location, height: int, width: int)
    requires height >= 1
    requires FirstSafe(location.world, DiskOrder(BlockPosition(location.pos), width)).None?
    requires FirstSafe(location.world, DiskOrder(BlockPosition(location.pos).Lift(1), width)).Some?
    ensures SafeLocation(location, height, width) ==
      var p := FirstSafe(location.world, DiskOrder(BlockPosition(location.pos).Lift(1), width)).value;
      Present(GetBlockCenteredCoordinates(Location(location.world, Corner(p))))
  {
    var start := BlockPosition(location.pos);
    assert start.Lift(LevelOffset(0)) == start;
    assert LevelOffset(1) == 1;
    SearchFirstLevel(location.world, start, height, width, 1);
  }
}
