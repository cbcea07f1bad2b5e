/**
 * TeleportManager: which blocks are standable, the downward column scan,
 * the resample loop of the random search, and the branch outcomes of the
 * asynchronous teleport.
 */
module Teleport {
  import opened Wrappers
  import opened JavaInt
  import opened Host
  import opened Settings

  /** Locations below this height are rejected, to keep players out of caves. */
  const CaveFloorY: int := 60

  // ---------------------------------------------------------------------
  // Block rules

  /** The two air materials a player can stand in. */
  predicate IsAirClass(m: Material) {
    m == Air || m == CaveAir
  }

  /** `isSolid`: physically solid, and none of barrier, bedrock, lava or water. */
  function IsSolid(m: Material): (r: bool)
    ensures r <==> m.Other? && m.solid
    ensures r ==> !IsAirClass(m) && m != Water && m != Lava
  {
    PhysicallySolid(m) && m != Barrier && m != Bedrock && m != Lava && m != Water
  }

  /**
   * The reference definition of a safe location: air at the position and
   * above it, standable ground below, and not under the world's floor or
   * the cave floor.
   */
  predicate SafeSpot(w: World, p: Pos) {
    && IsAirClass(w.blockAt(p))
    && IsAirClass(w.blockAt(p.Above()))
    && IsSolid(w.blockAt(p.Below()))
    && p.y >= w.minHeight
    && p.y >= CaveFloorY
  }

  predicate IsFluid(m: Material) {
    m == Water || m == Lava
  }

  /** The water/lava test of `isLocationSafe` never rejects a spot the earlier tests accepted. */
  lemma HazardCheckRedundant(w: World, p: Pos)
    requires IsAirClass(w.blockAt(p)) && IsAirClass(w.blockAt(p.Above())) && IsSolid(w.blockAt(p.Below()))
    ensures !IsFluid(w.blockAt(p)) && !IsFluid(w.blockAt(p.Above())) && !IsFluid(w.blockAt(p.Below()))
  {
  }

  /**
   * `isLocationSafe`: false for a missing location or world; otherwise the
   * chain of block and height tests, including the fluid test.
   */
  function IsLocationSafe(loc: Option<Location>): (r: bool)
    ensures r <==> loc.Some? && loc.value.world.Some? && SafeSpot(loc.value.world.value, loc.value.pos)
  {
    if loc.None? || loc.value.world.None? then false
    else
      var w := loc.value.world.value;
      var p := loc.value.pos;
      var block := w.blockAt(p);
      var below := w.blockAt(p.Below());
      var above := w.blockAt(p.Above());
      if block != Air && block != CaveAir then false
      else if above != Air && above != CaveAir then false
      else if !IsSolid(below) then false
      else if IsFluid(block) || IsFluid(below) || IsFluid(above) then false
      else if p.y < w.minHeight then false
      else if p.y < CaveFloorY then false
      else true
  }

  // ---------------------------------------------------------------------
  // findHighestSafeBlock

  /** Where the scan of column (x, z) starts: `min(max(60, highestY), maxHeight - 1)`. */
  function ScanStart(w: World, x: int, z: int): int {
    Min(Max(CaveFloorY, w.highestY(x, z)), w.maxHeight - 1)
  }

  /** The lowest height the scan visits: `max(60, minHeight)`. */
  function ScanFloor(w: World): int {
    Max(CaveFloorY, w.minHeight)
  }

  /** Block (x, y, z) is standable ground with two air blocks above it. */
  predicate Standable(w: World, x: int, y: int, z: int) {
    && IsSolid(w.blockAt(Pos(x, y, z)))
    && IsAirClass(w.blockAt(Pos(x, y + 1, z)))
    && IsAirClass(w.blockAt(Pos(x, y + 2, z)))
  }

  /** No height in the scanned range of column (x, z) is standable. */
  predicate NoStandable(w: World, x: int, z: int) {
    forall y :: ScanFloor(w) <= y <= ScanStart(w, x, z) ==> !Standable(w, x, y, z)
  }

  /** `y` is the highest standable height in the scanned range of column (x, z). */
  predicate HighestStandable(w: World, x: int, y: int, z: int) {
    && ScanFloor(w) <= y <= ScanStart(w, x, z)
    && Standable(w, x, y, z)
    && forall y' :: y < y' <= ScanStart(w, x, z) ==> !Standable(w, x, y', z)
  }

  /** There is at most one highest standable height in a column. */
  lemma HighestStandableUnique(w: World, x: int, z: int, y1: int, y2: int)
    requires HighestStandable(w, x, y1, z) && HighestStandable(w, x, y2, z)
    ensures y1 == y2
  {
  }

  /**
   * `findHighestSafeBlock`: scans column (x, z) downwards and returns the
   * position just above the first standable block, or nothing.
   */
  method FindHighestSafeBlock(w: World, x: int, z: int) returns (r: Option<Pos>)
    ensures r.None? <==> NoStandable(w, x, z)
    ensures r.Some? ==> r.value.x == x && r.value.z == z && HighestStandable(w, x, r.value.y - 1, z)
  {
    var startY := ScanStart(w, x, z);
    var y := startY;
    while y >= Max(CaveFloorY, w.minHeight)
      invariant y <= startY
      invariant forall y' :: y < y' <= startY ==> !Standable(w, x, y', z)
      decreases y
    {
      var block := w.blockAt(Pos(x, y, z));
      var blockAbove := w.blockAt(Pos(x, y + 1, z));
      if IsSolid(block) && (blockAbove == Air || blockAbove == CaveAir) {
        var blockAbove2 := w.blockAt(Pos(x, y + 2, z));
        if blockAbove2 == Air || blockAbove2 == CaveAir {
          assert Standable(w, x, y, z);
          return Some(Pos(x, y + 1, z));
        }
      }
      y := y - 1;
    }
    return None;
  }

  /**
   * On an unchanging world, every candidate the scan returns passes
   * `isLocationSafe`: the second gate of the search never rejects.
   */
  lemma CandidateIsSafe(w: World, x: int, y: int, z: int)
    requires HighestStandable(w, x, y, z)
    ensures IsLocationSafe(Some(Location(Some(w), Pos(x, y + 1, z))))
  {
    var p := Pos(x, y + 1, z);
    assert p.Below() == Pos(x, y, z) && p.Above() == Pos(x, y + 2, z);
  }

  // ---------------------------------------------------------------------
  // findSafeLocation

  /** The bound passed to `nextInt`: `hi - lo + 1`, in 32-bit arithmetic. */
  function SampleBound(lo: int32, hi: int32): int32 {
    Wrap32(hi - lo + 1)
  }

  /** `nextInt` accepts both bounds; otherwise it throws IllegalArgumentException. */
  predicate BoundsPositive(region: Region) {
    SampleBound(region.minX, region.maxX) > 0 && SampleBound(region.minZ, region.maxZ) > 0
  }

  /** The random draws: each pair is what two `nextInt` calls return, so it lies in [0, bound). */
  predicate RollsInRange(rolls: seq<(int, int)>, region: Region) {
    forall i :: 0 <= i < |rolls| ==>
      && 0 <= rolls[i].0 < SampleBound(region.minX, region.maxX)
      && 0 <= rolls[i].1 < SampleBound(region.minZ, region.maxZ)
  }

  /** `spawn + lo + roll` as a Java `int`. */
  function SampleCoord(spawn: int32, lo: int32, roll: int): int32 {
    Wrap32(spawn + lo + roll)
  }

  /**
   * A sampled coordinate lies inside the box around the spawn column when
   * neither the bound nor the box edges overflow.
   */
  lemma SampleInBox(spawn: int32, lo: int32, hi: int32, roll: int)
    requires lo <= hi && IsInt32(hi - lo + 1)
    requires IsInt32(spawn + lo) && IsInt32(spawn + hi)
    requires 0 <= roll < SampleBound(lo, hi)
    ensures spawn + lo <= SampleCoord(spawn, lo, roll) <= spawn + hi
  {
  }

  /** The column attempt `roll` samples. */
  function SampledX(w: World, region: Region, roll: (int, int)): int32 {
    SampleCoord(w.spawnX, region.minX, roll.0)
  }

  function SampledZ(w: World, region: Region, roll: (int, int)): int32 {
    SampleCoord(w.spawnZ, region.minZ, roll.1)
  }

  /**
   * Outcome of the search. `Found` carries the accepted position and the
   * index of the draw that produced it; `Exhausted` means the supplied draws
   * ran out, where the server would go on sampling.
   */
  datatype Search = NoWorld | Threw | Exhausted | Found(pos: Pos, attempt: nat)

  /**
   * What a search over the draws `rolls` may return: nothing for a missing
   * world, the exception for a non-positive bound, otherwise the highest
   * safe spot of the first sampled column that has one, every earlier column
   * having none; `Exhausted` only when no sampled column has one.
   */
  predicate SearchSpec(world: Option<World>, region: Region, rolls: seq<(int, int)>, r: Search) {
    && (r.NoWorld? <==> world.None?)
    && (r.Threw? <==> world.Some? && !BoundsPositive(region))
    && (r.Found? ==>
          && r.attempt < |rolls|
          && r.pos.x == SampledX(world.value, region, rolls[r.attempt])
          && r.pos.z == SampledZ(world.value, region, rolls[r.attempt])
          && HighestStandable(world.value, r.pos.x, r.pos.y - 1, r.pos.z)
          && IsLocationSafe(Some(Location(world, r.pos))))
    && (r.Found? || r.Exhausted? ==>
          forall j :: 0 <= j < |rolls| && (r.Exhausted? || j < r.attempt) ==>
            NoStandable(world.value, SampledX(world.value, region, rolls[j]), SampledZ(world.value, region, rolls[j])))
  }

  /**
   * A found position lies in the box around the spawn column, on both axes,
   * when neither a bound nor a box edge overflows.
   */
  lemma FoundInBox(world: Option<World>, region: Region, rolls: seq<(int, int)>, r: Search)
    requires RollsInRange(rolls, region) && SearchSpec(world, region, rolls, r) && r.Found?
    requires world.Some?
    requires region.minX <= region.maxX && IsInt32(region.maxX - region.minX + 1)
    requires region.minZ <= region.maxZ && IsInt32(region.maxZ - region.minZ + 1)
    requires IsInt32(world.value.spawnX + region.minX) && IsInt32(world.value.spawnX + region.maxX)
    requires IsInt32(world.value.spawnZ + region.minZ) && IsInt32(world.value.spawnZ + region.maxZ)
    ensures world.value.spawnX + region.minX <= r.pos.x <= world.value.spawnX + region.maxX
    ensures world.value.spawnZ + region.minZ <= r.pos.z <= world.value.spawnZ + region.maxZ
  {
    var w := world.value;
    SampleInBox(w.spawnX, region.minX, region.maxX, rolls[r.attempt].0);
    SampleInBox(w.spawnZ, region.minZ, region.maxZ, rolls[r.attempt].1);
  }

  /** `findSafeLocation`: resample columns until the scan finds a candidate that passes `isLocationSafe`. */
  method FindSafeLocation(world: Option<World>, region: Region, rolls: seq<(int, int)>) returns (r: Search)
    requires RollsInRange(rolls, region)
    ensures SearchSpec(world, region, rolls, r)
  {
    if world.None? {
      return NoWorld;
    }
    var w := world.value;
    if !BoundsPositive(region) {
      return Threw;
    }
    var i := 0;
    while i < |rolls|
      invariant 0 <= i <= |rolls|
      invariant forall j :: 0 <= j < i ==>
        NoStandable(w, SampledX(w, region, rolls[j]), SampledZ(w, region, rolls[j]))
    {
      var x := SampleCoord(w.spawnX, region.minX, rolls[i].0);
      var z := SampleCoord(w.spawnZ, region.minZ, rolls[i].1);
      var candidate := FindHighestSafeBlock(w, x, z);
      if candidate.Some? && IsLocationSafe(Some(Location(world, candidate.value))) {
        return Found(candidate.value, i);
      }
      i := i + 1;
    }
    return Exhausted;
  }

  // ---------------------------------------------------------------------
  // teleportPlayer

  /**
   * What the asynchronous part of `teleportPlayer` observes: whether the
   * chunk load succeeded, and, back on the main thread, whether the player
   * is online, still in the target's world, and whether `teleport` succeeds.
   */
  datatype Rejoin = Rejoin(chunkLoaded: bool, online: bool, sameWorld: bool, teleportSucceeds: bool)

  /** Whether the player was moved, and whether `onComplete` ran. */
  datatype TeleportResult = TeleportResult(moved: bool, completed: bool)

  /**
   * The branch outcomes of `teleportPlayer`: `onComplete` runs on every path,
   * the early-return path and the chunk-load failure path included.
   */
  function TeleportPlayer(player: Option<PlayerRef>, loc: Option<Location>, rejoin: Rejoin): (r: TeleportResult)
    ensures r.completed
    ensures r.moved <==>
      && player.Some? && player.value.online && loc.Some? && loc.value.world.Some?
      && rejoin.online && rejoin.sameWorld && rejoin.teleportSucceeds
  {
    if player.None? || !player.value.online || loc.None? || loc.value.world.None? then
      TeleportResult(false, true)
    else if rejoin.chunkLoaded then
      if rejoin.online && rejoin.sameWorld then
        if rejoin.teleportSucceeds then TeleportResult(true, true)
        else TeleportResult(false, true)
      else TeleportResult(false, true)
    else
      // best effort: try the teleport anyway, then complete
      var moved := rejoin.online && rejoin.sameWorld && rejoin.teleportSucceeds;
      TeleportResult(moved, true)
  }

  /** A failed chunk load leads to the same outcome as a successful one. */
  lemma ChunkLoadIrrelevant(player: Option<PlayerRef>, loc: Option<Location>, rejoin: Rejoin)
    ensures TeleportPlayer(player, loc, rejoin) == TeleportPlayer(player, loc, rejoin.(chunkLoaded := !rejoin.chunkLoaded))
  {
  }
}
