/** The records shared by every part of the particle-in-cell engine. */
module Particles {

  datatype Option<+T> = None | Some(value: T)

  /** Capacity of a chunk. */
  const CHUNK_SIZE: nat := 256

  /** The number of scalar fields of a particle, stored one by one into a chunk. */
  const FIELDS: nat := 6

  datatype Particle = Particle(posX: real, posY: real, posZ: real, speedX: real, speedY: real, speedZ: real)

  /** `slot` after field number `k` of `p` has been stored into it. */
  function StoreField(slot: Particle, p: Particle, k: nat): Particle
    requires k < FIELDS
  {
    match k
    case 0 => slot.(posX := p.posX)
    case 1 => slot.(posY := p.posY)
    case 2 => slot.(posZ := p.posZ)
    case 3 => slot.(speedX := p.speedX)
    case 4 => slot.(speedY := p.speedY)
    case _ => slot.(speedZ := p.speedZ)
  }

  /** The first `k` fields of the slot are those of `p`. */
  predicate Agree(slot: Particle, p: Particle, k: nat) {
    && (0 < k ==> slot.posX == p.posX)
    && (1 < k ==> slot.posY == p.posY)
    && (2 < k ==> slot.posZ == p.posZ)
    && (3 < k ==> slot.speedX == p.speedX)
    && (4 < k ==> slot.speedY == p.speedY)
    && (5 < k ==> slot.speedZ == p.speedZ)
  }
}
