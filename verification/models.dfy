/** The objects a room holds and the player. Their Java classes (Door, Item,
    Mob, Player under models/) are not part of this model: each variant keeps
    exactly the constructor arguments the loader passes to it, and the
    rendering-only representation is left out. */
module Models {

  /** A grid cell. */
  datatype Pos = Pos(x: int, y: int)

  /** The cell reached from `p` by the delta (dx, dy). */
  function Step(p: Pos, dx: int, dy: int): Pos {
    Pos(p.x + dx, p.y + dy)
  }

  datatype GameObject =
    /** A door at `pos` leading to room `targetRoom` of the level, arriving
        at `target`; `targetRoom` is what `Door.leadsTo()` reports. */
    | Door(pos: Pos, target: Pos, targetRoom: int)
    /** An item that is picked up (removed from its room) when stepped on. */
    | Item(pos: Pos, name: string)
    /** A mob; `behavior` is the behaviour name it was configured with. */
    | Mob(pos: Pos, health: int, power: int, behavior: string)

  /** The player, built from a spawn position. */
  datatype Player = Player(pos: Pos)
}
