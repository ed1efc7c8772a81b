# Safe-location search of the Sponge teleport helper

This project models `SpongeTeleportHelper`, the Forge-side implementation of
Sponge's `TeleportHelper`. Given a location, the helper looks for a nearby
block where an entity can stand safely. The model has four modules:

- `Voxels`: integer block positions, the block types the helper tells apart,
  a read-only world, fractional positions and locations, and the two option
  types. `Option` stands for Guava's `Optional`. `NullableOptional` stands for a
  reference to an `Optional` that may also be `null`.
- `Safety`: the safety predicates `isBlockSafe`, `areBlocksBelowSafe` and
  `isSafeLocation`, written as functions, plus lemmas that spell out what they
  accept and reject.
- `ScanOrder`: the order in which the scans try positions, defined
  recursively as rings, disks and levels. `FirstSafe(w, s)` is the first
  safe position of an order `s`. The lemmas cover centre first, smallest
  radius first, the level priority 0, +1, -1, +2, -2, ..., when nothing is
  found, and where the tried positions lie.
- `TeleportHelper`: the three scans as methods whose loops follow the
  source. Each is proved to return `FirstSafe` of its order. The module also
  holds the block-centring function, the two `getSafeLocation` entry points
  and the lemmas about what the entry points return.

The model follows the code as written, including behaviour that differs from
what its comments describe:

- The ring scan of radius `r` steps `r` blocks east each time, `8·r` times.
  It never moves along z, so every position tried lies on the row of the
  start block, at or east of it (`ScanOrder.RingOrderAt`,
  `TeleportHelper.SafeLocationFound`).
- The radius loop starts at 0. A ring of radius 0 tests the centre a second
  time.
- `isSafeLocation` passes the block under the feet to `areBlocksBelowSafe`.
  The drop check therefore reads the blocks two, three and four below the
  position, so lava two blocks down is accepted
  (`Safety.LavaTwoBelowIsAccepted`).
- When nothing is found, `getSafeLocation` returns a null reference. It never
  returns an absent `Optional` (`TeleportHelper.SafeLocationFound`).
- `isBlockSafe` is also applied to the block under the feet, and it rejects
  a solid cube. So the helper never returns a position standing directly on a
  full block. It returns positions over a block that is not a solid cube, or
  over air with ground two to four blocks down
  (`Safety.SolidFloorIsRejected`).
- Still lava and fire make a block unsafe to occupy. Flowing lava does not.
  Only the drop check looks for flowing lava.

## Model

| member | source | states |
|---|---|---|
| `Voxels.BlockPosition` | src/main/java/org/spongepowered/mod/world/SpongeTeleportHelper.java:106 | the block of a fractional position is the one whose unit cube contains it, on each axis |
| `Voxels.Corner` | src/main/java/org/spongepowered/mod/world/SpongeTeleportHelper.java:108 | a location built from a block position lies in that block |
| `Voxels.BlockPositionShift` | src/main/java/org/spongepowered/mod/world/SpongeTeleportHelper.java:89-95 | moving a location up or down by whole blocks moves its block by the same amount, so the scans can work on block positions |
| `Safety.IsBlockSafe` | src/main/java/org/spongepowered/mod/world/SpongeTeleportHelper.java:193-218 | a block may be occupied exactly when it is not a solid cube, lies in 0 <= y < dimension height, and is neither lava nor fire |
| `Safety.LandingDepth` | src/main/java/org/spongepowered/mod/world/SpongeTeleportHelper.java:222-227 | the first non-air block within three below a position lies at the returned depth, with only air above it; 4 means all three are air |
| `Safety.AreBlocksBelowSafe` | src/main/java/org/spongepowered/mod/world/SpongeTeleportHelper.java:220-241 | the drop check passes exactly when something other than air lies within three blocks down, and, unless it is directly below, it is not still or flowing lava |
| `Safety.BlocksBelowUnsafeCases` | src/main/java/org/spongepowered/mod/world/SpongeTeleportHelper.java:229-238 | the drop check fails in exactly the three cases: three blocks of air, air then lava, air, air then lava |
| `Safety.IsSafeLocation` | src/main/java/org/spongepowered/mod/world/SpongeTeleportHelper.java:174-191 | a safe position lies at least one block above the bottom of the dimension and two below its top, because the blocks below and above must be safe to occupy |
| `Safety.SafeLocationSound` | src/main/java/org/spongepowered/mod/world/SpongeTeleportHelper.java:174-191 | a safe position has the block there, above and below safe to occupy, lies at 1 <= y < height - 1, and over air has non-lava ground two to four blocks down, or any ground two down |
| `Safety.SafeLocationCases` | src/main/java/org/spongepowered/mod/world/SpongeTeleportHelper.java:179-190 | over a non-air block the position is safe exactly when the three blocks are; over air the drop check run from the block below must also pass |
| `Safety.SolidFloorIsRejected` | src/main/java/org/spongepowered/mod/world/SpongeTeleportHelper.java:179 | a solid cube directly under the feet makes a position unsafe |
| `Safety.FallIsAvoided` | src/main/java/org/spongepowered/mod/world/SpongeTeleportHelper.java:184-188 | four blocks of air below the feet make a position unsafe |
| `Safety.LavaDropIsAvoided` | src/main/java/org/spongepowered/mod/world/SpongeTeleportHelper.java:234-237 | air down to lava three or four blocks below the feet makes a position unsafe |
| `Safety.GroundMakesSafe` | src/main/java/org/spongepowered/mod/world/SpongeTeleportHelper.java:220-241 | over air, one non-lava block two, three or four below the feet with air elsewhere makes an otherwise acceptable position safe |
| `Safety.LavaTwoBelowIsAccepted` | src/main/java/org/spongepowered/mod/world/SpongeTeleportHelper.java:186 | because the drop check starts at the block under the feet, lava two blocks below the feet does not make a position unsafe |
| `ScanOrder.FirstSafeSpec` | src/main/java/org/spongepowered/mod/world/SpongeTeleportHelper.java:128-136 | what a scan returns is a safe position of its order; it returns nothing exactly when no position of the order is safe |
| `ScanOrder.FirstSafeAt` | src/main/java/org/spongepowered/mod/world/SpongeTeleportHelper.java:128-136 | a scan returns the safe position with the lowest index in its order |
| `ScanOrder.FirstSafeAppend` | src/main/java/org/spongepowered/mod/world/SpongeTeleportHelper.java:112-118 | running one scan after another finds what the first finds, else what the second finds |
| `ScanOrder.Walk` | src/main/java/org/spongepowered/mod/world/SpongeTeleportHelper.java:133-138 | a walk of n steps tries n positions |
| `ScanOrder.FirstSafeOnWalkIsFirstSafe` | src/main/java/org/spongepowered/mod/world/SpongeTeleportHelper.java:133-138 | testing positions step by step along a walk finds its first safe position |
| `ScanOrder.WalkAt` | src/main/java/org/spongepowered/mod/world/SpongeTeleportHelper.java:134 | the k-th position of a walk lies k steps east of its start |
| `ScanOrder.InWalk` | src/main/java/org/spongepowered/mod/world/SpongeTeleportHelper.java:134 | a walk east never leaves the level and the row of its start |
| `ScanOrder.RingOrder` | src/main/java/org/spongepowered/mod/world/SpongeTeleportHelper.java:127-170 | a ring scan tries 8·radius positions, one for radius 0 |
| `ScanOrder.RingOrderAt` | src/main/java/org/spongepowered/mod/world/SpongeTeleportHelper.java:127-170 | the k-th position of the ring scan is (k+1)·radius blocks east of the centre; radius 0 tries only the centre |
| `ScanOrder.RingsFirst` | src/main/java/org/spongepowered/mod/world/SpongeTeleportHelper.java:112-118 | over consecutive radii, the smallest radius whose ring scan succeeds decides the result |
| `ScanOrder.RingsNone` | src/main/java/org/spongepowered/mod/world/SpongeTeleportHelper.java:112-120 | consecutive ring scans find nothing exactly when each one does |
| `ScanOrder.InRings` | src/main/java/org/spongepowered/mod/world/SpongeTeleportHelper.java:127-170 | every position of a ring scan lies on the centre's level and row, at or east of it |
| `ScanOrder.DiskCentreFirst` | src/main/java/org/spongepowered/mod/world/SpongeTeleportHelper.java:105-109 | a safe centre is returned before any ring is tried |
| `ScanOrder.DiskSmallestRadius` | src/main/java/org/spongepowered/mod/world/SpongeTeleportHelper.java:111-118 | past an unsafe centre, the disk scan returns what the smallest succeeding ring scan returns |
| `ScanOrder.DiskNone` | src/main/java/org/spongepowered/mod/world/SpongeTeleportHelper.java:104-121 | the disk scan finds nothing exactly when the centre is unsafe and every ring scan of radius 0 to the width finds nothing |
| `ScanOrder.InDisk` | src/main/java/org/spongepowered/mod/world/SpongeTeleportHelper.java:104-121 | every position a disk scan tries is on the centre's level and row, at or east of it |
| `ScanOrder.LevelOffsetOfLevel` | src/main/java/org/spongepowered/mod/world/SpongeTeleportHelper.java:87-98 | level L above is tried at step 2L-1, level L below directly after it |
| `ScanOrder.InLevels` | src/main/java/org/spongepowered/mod/world/SpongeTeleportHelper.java:87-98 | the positions of the first n levels lie on the start's row, at or east of it, within n/2 levels of it |
| `ScanOrder.LevelsFirst` | src/main/java/org/spongepowered/mod/world/SpongeTeleportHelper.java:87-98 | over consecutive levels, the first level whose disk scan succeeds decides the result |
| `ScanOrder.LevelsNone` | src/main/java/org/spongepowered/mod/world/SpongeTeleportHelper.java:87-101 | consecutive levels find nothing exactly when each level's disk scan finds nothing |
| `ScanOrder.LevelOffsetInReach` | src/main/java/org/spongepowered/mod/world/SpongeTeleportHelper.java:87 | every level tried lies within the height; only the start level is tried for a negative height |
| `ScanOrder.LevelIndex` | src/main/java/org/spongepowered/mod/world/SpongeTeleportHelper.java:87-98 | every level up or down has its step in the level order |
| `ScanOrder.SearchFirstLevel` | src/main/java/org/spongepowered/mod/world/SpongeTeleportHelper.java:75-99 | the column scan returns what the first succeeding level returns, levels in the order 0, +1, -1, +2, -2, ... |
| `ScanOrder.SearchNone` | src/main/java/org/spongepowered/mod/world/SpongeTeleportHelper.java:75-102 | the column scan finds nothing exactly when the disk scan of every level within the height finds nothing |
| `ScanOrder.InSearchOrder` | src/main/java/org/spongepowered/mod/world/SpongeTeleportHelper.java:75-102 | every position the column scan tries is on the start's row, at or east of it, within the height |
| `ScanOrder.SearchFound` | src/main/java/org/spongepowered/mod/world/SpongeTeleportHelper.java:75-102 | what the column scan returns is safe, lies at 1 <= y < height - 1, on the start's row, at or east of it, and within the height |
| `TeleportHelper.CheckAroundSpecificDiameter` | src/main/java/org/spongepowered/mod/world/SpongeTeleportHelper.java:123-172 | the ring scan returns the first safe position of the ring order |
| `TeleportHelper.CheckAroundLocation` | src/main/java/org/spongepowered/mod/world/SpongeTeleportHelper.java:104-121 | the disk scan returns the first safe position of the centre followed by the rings of radius 0 to the width |
| `TeleportHelper.CheckAboveAndBelowLocation` | src/main/java/org/spongepowered/mod/world/SpongeTeleportHelper.java:75-102 | the column scan returns the first safe position of the disk scans of the levels 0, +1, -1, ... up to the height |
| `TeleportHelper.GetBlockCenteredCoordinates` | src/main/java/org/spongepowered/mod/world/SpongeTeleportHelper.java:68-73 | the centred location is in the same world and block, half a block into it on x and z and at its floor on y |
| `TeleportHelper.GetSafeLocationWithin` | src/main/java/org/spongepowered/mod/world/SpongeTeleportHelper.java:50-66 | the entry point returns the centred first safe position of the column scan, or null |
| `TeleportHelper.GetSafeLocation` | src/main/java/org/spongepowered/mod/world/SpongeTeleportHelper.java:39-47 | the one-argument entry point searches 3 levels up and down and 9 rings out |
| `TeleportHelper.SafeLocationFound` | src/main/java/org/spongepowered/mod/world/SpongeTeleportHelper.java:53-64 | the entry point never returns an absent Optional; a present result is in the same world, centred, safe, at 1 <= y < height - 1, on the start's row at or east of it, within the height |
| `TeleportHelper.SafeLocationNull` | src/main/java/org/spongepowered/mod/world/SpongeTeleportHelper.java:62-65 | the entry point returns null exactly when every level within the height has a failing disk scan |
| `TeleportHelper.SafeLocationCentreFirst` | src/main/java/org/spongepowered/mod/world/SpongeTeleportHelper.java:80-84 | a safe start block is returned, centred |
| `TeleportHelper.SafeLocationPrefersAbove` | src/main/java/org/spongepowered/mod/world/SpongeTeleportHelper.java:87-92 | when the start level fails and the level above succeeds, the level above wins, whatever lies below |

## Left out

- Logging and console output are left out. They do not affect results.
- The Sponge and Forge API surface is left out: the `TeleportHelper` interface, `Extent`, `Dimension`, the block registry and `IMixinServerConfigurationManager`. The world is a function from block positions to block types plus the dimension height. Block types other than air, lava, flowing lava and fire are `Other`, with an identity and a solid-cube flag. The model takes air, lava, flowing lava and fire never to be solid cubes, whereas the source asks every block type whether it is one.
- The cast of a location's extent to a `World` is left out. A `Location` of the model always holds a world, so the `ClassCastException` the source throws for any other extent cannot happen.
- Chunk loading and world access are left out. Looking up a block has no side effects in the model, and the world does not change during a search.
- Double precision is left out. Coordinates are exact reals, so adding `0.5` and rounding down to a block are exact.
- 32-bit int overflow is left out. The model's integers are unbounded, so a position or radius near `Integer.MAX_VALUE` does not wrap around as it would in Java.
- The scan methods take and return block positions rather than `Location`s. A level shift of the fractional location moves its block by the same amount (`Voxels.BlockPositionShift`). The scans' `Location` results are built from block positions, so only the block matters to the centring.
- Concurrency is left out.
