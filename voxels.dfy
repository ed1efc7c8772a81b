/** The world as the teleport helper sees it: integer block positions, the
    block types it tells apart, and a read-only world that answers block
    lookups and the dimension height. Also the option types the helper
    returns: Guava's Optional, and a nullable Optional for the one place that
    hands back a null reference instead. */
module Voxels {

  /** An integer block position (x, y, z); y is the vertical axis. */
  datatype Pos = Pos(x: int, y: int, z: int) {
    /** The block `dy` levels higher (lower for negative `dy`). */
    function Lift(dy: int): (p: Pos)
      ensures p.x == x && p.y == y + dy && p.z == z
    {
      Pos(x, y + dy, z)
    }

    /** The block `depth` levels lower. */
    function Below(depth: int): (p: Pos)
      ensures p == Lift(-depth)
    {
      Pos(x, y - depth, z)
    }

    /** The block directly above. */
    function Up(): Pos { Lift(1) }

    /** The block directly below. */
    function Down(): Pos { Below(1) }
  }

  /** The block types the helper distinguishes. Every other block of the
      registry is `Other`, with its identity and whether it is a solid cube. */
  datatype BlockType =
    | Air
    | Lava
    | FlowingLava
    | Fire
    | Other(id: nat, solidCube: bool)
  {
    /** A block that fills its whole voxel. Air, lava, flowing lava and fire
        never do. */
    predicate IsSolidCube() {
      Other? && solidCube
    }

    /** Still or flowing lava, the two hazards of the drop check. */
    predicate IsLavaLike() {
      this == Lava || this == FlowingLava
    }
  }

  /** A world: its block at every position, and the height of its dimension
      (the exclusive upper bound of valid y). The helper never changes it. */
  datatype World = World(blockAt: Pos -> BlockType, height: int)

  /** A fractional position. */
  datatype Vec3d = Vec3d(x: real, y: real, z: real)

  /** A position in a world. */
  datatype Location = Location(world: World, pos: Vec3d)

  /** The block that contains a fractional position: each coordinate rounded
      down. */
  function BlockPosition(v: Vec3d): (p: Pos)
    ensures p.x as real <= v.x < p.x as real + 1.0
    ensures p.y as real <= v.y < p.y as real + 1.0
    ensures p.z as real <= v.z < p.z as real + 1.0
  {
    Pos(v.x.Floor, v.y.Floor, v.z.Floor)
  }

  /** The fractional position of a block's lower corner. */
  function Corner(p: Pos): (v: Vec3d)
    ensures BlockPosition(v) == p
  {
    Vec3d(p.x as real, p.y as real, p.z as real)
  }

  /** Moving a fractional position vertically by whole blocks moves its block
      by the same amount. */
  lemma BlockPositionShift(v: Vec3d, dy: int)
    ensures BlockPosition(Vec3d(v.x, v.y + dy as real, v.z)) == BlockPosition(v).Lift(dy)
  {
  }

  datatype Option<T> = None | Some(value: T)

  /** A Java reference to a Guava Optional: null, an absent Optional, or a
      present one. */
  datatype NullableOptional<T> = Null | Absent | Present(value: T)
}
