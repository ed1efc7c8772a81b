/** The safety tests of the teleport helper: whether one block may be
    occupied, whether a drop below a position ends on solid ground within three
    blocks and not in lava, and whether a position is a safe place to stand. */
module Safety {
  import opened Voxels

  /** A block may be occupied: it is not a solid cube, lies within the
      dimension's vertical range, and is neither still lava nor fire. Flowing
      lava is not rejected here. */
  function IsBlockSafe(w: World, p: Pos): (safe: bool)
    ensures safe <==>
      && !w.blockAt(p).IsSolidCube()
      && 0 <= p.y < w.height
      && w.blockAt(p) != Lava
      && w.blockAt(p) != Fire
  {
    var block := w.blockAt(p);
    if block.IsSolidCube() then false
    else if p.y < 0 then false
    else if p.y >= w.height then false
    else if block == Lava then false
    else if block == Fire then false
    else true
  }

  /** How many blocks below `q` the first non-air block lies, looking at most
      three blocks down; 4 when all three are air. */
  function LandingDepth(w: World, q: Pos): (d: nat)
    ensures 1 <= d <= 4
    ensures forall k :: 1 <= k < d ==> w.blockAt(q.Below(k)) == Air
    ensures d <= 3 ==> w.blockAt(q.Below(d)) != Air
  {
    if w.blockAt(q.Below(1)) != Air then 1
    else if w.blockAt(q.Below(2)) != Air then 2
    else if w.blockAt(q.Below(3)) != Air then 3
    else 4
  }

  /** The drop check below `q`: it fails when the three blocks under `q` are
      all air, or when air under `q` leads down into lava two or three blocks
      below `q`. Equivalently: something other than air lies within three
      blocks below `q`, and unless it is the block right under `q`, it is not
      lava. */
  function AreBlocksBelowSafe(w: World, q: Pos): (safe: bool)
    ensures safe <==>
      var d := LandingDepth(w, q);
      d <= 3 && (d == 1 || !w.blockAt(q.Below(d)).IsLavaLike())
  {
    var below := w.blockAt(q.Below(1));
    var below2 := w.blockAt(q.Below(2));
    var below3 := w.blockAt(q.Below(3));
    if below == Air && below2 == Air && below3 == Air then
      false
    else if (below == Air && (below2 == Lava || below2 == FlowingLava))
         || (below == Air && below2 == Air && (below3 == Lava || below3 == FlowingLava)) then
      false
    else
      true
  }

  /** A position is safe to stand at: the block there, the block above and the
      block below may all be occupied, and when the block below is air, the
      drop check run from that block (so over the blocks two, three and four
      below the position) passes. */
  function IsSafeLocation(w: World, p: Pos): (safe: bool)
    ensures safe ==> 1 <= p.y && p.y + 1 < w.height
  {
    var down := p.Down();
    if !IsBlockSafe(w, p) || !IsBlockSafe(w, p.Up()) || !IsBlockSafe(w, down) then
      false
    else if w.blockAt(down) == Air then
      AreBlocksBelowSafe(w, down)
    else
      true
  }

  /** A safe position has the block there, the block above and the block
      below all safe to occupy, so it lies at least one block above the bottom
      of the dimension and two below its top; over air, something other than
      air lies two, three or four blocks down, and if it is not two down it is
      not lava. */
  lemma SafeLocationSound(w: World, p: Pos)
    requires IsSafeLocation(w, p)
    ensures IsBlockSafe(w, p) && IsBlockSafe(w, p.Up()) && IsBlockSafe(w, p.Down())
    ensures 1 <= p.y && p.y + 1 < w.height
    ensures w.blockAt(p.Down()) == Air ==>
      var d := LandingDepth(w, p.Down());
      d <= 3 && (d == 1 || !w.blockAt(p.Below(1 + d)).IsLavaLike())
  {
  }

  /** The drop check fails in exactly the three listed cases. */
  lemma BlocksBelowUnsafeCases(w: World, q: Pos)
    ensures !AreBlocksBelowSafe(w, q) <==>
      var b1, b2, b3 := w.blockAt(q.Below(1)), w.blockAt(q.Below(2)), w.blockAt(q.Below(3));
      || (b1 == Air && b2 == Air && b3 == Air)
      || (b1 == Air && b2.IsLavaLike())
      || (b1 == Air && b2 == Air && b3.IsLavaLike())
  {
  }

  /** With solid ground under the feet, the position is safe exactly when the
      three blocks pass; with air under the feet the drop check decides. */
  lemma SafeLocationCases(w: World, p: Pos)
    ensures w.blockAt(p.Down()) != Air ==>
      (IsSafeLocation(w, p) <==>
        IsBlockSafe(w, p) && IsBlockSafe(w, p.Up()) && IsBlockSafe(w, p.Down()))
    ensures w.blockAt(p.Down()) == Air ==>
      (IsSafeLocation(w, p) <==>
        IsBlockSafe(w, p) && IsBlockSafe(w, p.Up()) && IsBlockSafe(w, p.Down())
        && AreBlocksBelowSafe(w, p.Down()))
  {
  }

  /** A solid cube under the feet fails the block check of the block below,
      so no position standing directly on a full block is safe. */
  lemma SolidFloorIsRejected(w: World, p: Pos)
    requires w.blockAt(p.Down()).IsSolidCube()
    ensures !IsSafeLocation(w, p)
  {
  }

  /** Four blocks of air under the feet make any position unsafe. */
  lemma FallIsAvoided(w: World, p: Pos)
    requires forall k :: 1 <= k <= 4 ==> w.blockAt(p.Below(k)) == Air
    ensures !IsSafeLocation(w, p)
  {
    assert w.blockAt(p.Down().Below(1)) == w.blockAt(p.Below(2));
    assert w.blockAt(p.Down().Below(2)) == w.blockAt(p.Below(3));
    assert w.blockAt(p.Down().Below(3)) == w.blockAt(p.Below(4));
  }

  /** Air under the feet leading down into lava three or four blocks below the
      position makes it unsafe. */
  lemma LavaDropIsAvoided(w: World, p: Pos, depth: int)
    requires depth == 3 || depth == 4
    requires forall k :: 1 <= k < depth ==> w.blockAt(p.Below(k)) == Air
    requires w.blockAt(p.Below(depth)).IsLavaLike()
    ensures !IsSafeLocation(w, p)
  {
    assert w.blockAt(p.Down()) == Air;
    assert w.blockAt(p.Down().Below(1)) == w.blockAt(p.Below(2));
    assert w.blockAt(p.Down().Below(2)) == w.blockAt(p.Below(3));
    assert w.blockAt(p.Down().Below(3)) == w.blockAt(p.Below(4));
  }

  /** Over a column of air, one block that is neither air nor lava two, three
      or four blocks below the position, the rest staying air, makes an
      otherwise acceptable position safe. */
  lemma GroundMakesSafe(w: World, p: Pos, depth: int)
    requires 2 <= depth <= 4
    requires IsBlockSafe(w, p) && IsBlockSafe(w, p.Up()) && 0 <= p.y - 1
    requires w.blockAt(p.Down()) == Air
    requires forall k :: 2 <= k <= 4 && k != depth ==> w.blockAt(p.Below(k)) == Air
    requires w.blockAt(p.Below(depth)) != Air && !w.blockAt(p.Below(depth)).IsLavaLike()
    ensures IsSafeLocation(w, p)
  {
    assert w.blockAt(p.Down().Below(1)) == w.blockAt(p.Below(2));
    assert w.blockAt(p.Down().Below(2)) == w.blockAt(p.Below(3));
    assert w.blockAt(p.Down().Below(3)) == w.blockAt(p.Below(4));
  }

  /** Because the drop check starts one block lower, lava two blocks below the
      position, right under the air the entity stands over, is accepted. */
  lemma LavaTwoBelowIsAccepted(w: World, p: Pos)
    requires IsBlockSafe(w, p) && IsBlockSafe(w, p.Up()) && 0 <= p.y - 1
    requires w.blockAt(p.Down()) == Air
    requires w.blockAt(p.Below(2)).IsLavaLike()
    ensures IsSafeLocation(w, p)
  {
    assert w.blockAt(p.Down().Below(1)) == w.blockAt(p.Below(2));
  }
}
