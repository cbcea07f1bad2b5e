/**
 * The parts of the game server the core sees: block materials, a world as a
 * total map from block coordinates to materials, locations and players.
 */
module Host {
  import opened Wrappers
  import opened JavaInt

  /** A player's unique id (a UUID on the server). */
  type PlayerId = nat

  /**
   * Block materials. The six the core names explicitly, and every other
   * material with its physical solidity.
   */
  datatype Material = Air | CaveAir | Water | Lava | Barrier | Bedrock | Other(id: nat, solid: bool)

  /** The server's own `Material.isSolid()`: barriers and bedrock are solid, fluids and air are not. */
  predicate PhysicallySolid(m: Material) {
    match m
    case Barrier => true
    case Bedrock => true
    case Other(_, solid) => solid
    case _ => false
  }

  /** A block coordinate. */
  datatype Pos = Pos(x: int, y: int, z: int) {
    function Below(): Pos { Pos(x, y - 1, z) }
    function Above(): Pos { Pos(x, y + 1, z) }
  }

  /**
   * A world: its name, vertical bounds, spawn column, the server's
   * highest-block oracle and the material of every block.
   */
  datatype World = World(
    name: string,
    minHeight: int,
    maxHeight: int,
    spawnX: int32,
    spawnZ: int32,
    highestY: (int, int) -> int,
    blockAt: Pos -> Material)

  /** A location; its world may be missing, as the server's may be null. */
  datatype Location = Location(world: Option<World>, pos: Pos)

  /** What the core reads of a player at one moment: id, whether online, current world. */
  datatype PlayerRef = PlayerRef(id: PlayerId, online: bool, world: Option<World>)
}
