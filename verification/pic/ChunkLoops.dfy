/** The vectorised loops over the items of one chunk. */
module ChunkLoops {
  import opened Deposit
  import opened Grid
  import opened Motion
  import opened Particles
  import opened SerialBag
  import opened StepLog

  // ----- the two vectorised loops over a chunk

  method KickChunk(c: Chunk, f: CornerField)
    requires c.alive && c.Shaped() && c.size <= CHUNK_SIZE && f.Shaped()
    modifies c.items
    ensures forall i :: 0 <= i < c.size ==> c.Slot(i) == Kick(old(c.Slot(i)), f)
  {
    hide Interpolate;
    for i := 0 to c.size
      invariant forall k :: 0 <= k < i ==> c.Slot(k) == Kick(old(c.Slot(k)), f)
      invariant forall k :: i <= k < c.size ==> c.Slot(k) == old(c.Slot(k))
    {
      ghost var p := c.Slot(i);
      c.items[3, i] := c.items[3, i] + Interpolate(NB_CORNERS, c.Slot(i), f.x);
      SharesIgnoreSpeed(NB_CORNERS, p, c.Slot(i), f.y);
      c.items[4, i] := c.items[4, i] + Interpolate(NB_CORNERS, c.Slot(i), f.y);
      SharesIgnoreSpeed(NB_CORNERS, p, c.Slot(i), f.z);
      c.items[5, i] := c.items[5, i] + Interpolate(NB_CORNERS, c.Slot(i), f.z);
    }
  }

  /** The interpolation only looks at the position. */
  lemma {:induction false} SharesIgnoreSpeed(n: nat, p: Particle, q: Particle, v: seq<real>)
    requires n <= NB_CORNERS == |v|
    requires p.posX == q.posX && p.posY == q.posY && p.posZ == q.posZ
    ensures Interpolate(n, p, v) == Interpolate(n, q, v)
  {
    if n > 0 {
      SharesIgnoreSpeed(n - 1, p, q, v);
    }
  }

  method DriftChunk(g: Dims, co: Coord, c: Chunk, idCell2: array<int>)
    requires Positive(g) && c.alive && c.Shaped() && c.size <= CHUNK_SIZE == idCell2.Length
    modifies c.items, idCell2
    ensures forall i :: 0 <= i < c.size ==> (idCell2[i], c.Slot(i)) == Land(g, co, old(c.Slot(i)))
  {
    hide Drift, CellOfCoord;
    for i := 0 to c.size
      invariant forall k :: 0 <= k < i ==> (idCell2[k], c.Slot(k)) == Land(g, co, old(c.Slot(k)))
      invariant forall k :: i <= k < c.size ==> c.Slot(k) == old(c.Slot(k))
    {
      var (x2, rX) := Drift(g.x, co.iX, c.items[0, i], c.items[3, i]);
      var (y2, rY) := Drift(g.y, co.iY, c.items[1, i], c.items[4, i]);
      var (z2, rZ) := Drift(g.z, co.iZ, c.items[2, i], c.items[5, i]);
      idCell2[i] := CellOfCoord(g, x2, y2, z2);
      c.items[0, i] := rX;
      c.items[1, i] := rY;
      c.items[2, i] := rZ;
    }
  }

  /** The two loops together move every particle of the chunk in place. */
  method MoveItems(g: Dims, co: Coord, c: Chunk, f: CornerField, idCell2: array<int>)
    requires Positive(g) && f.Shaped() && c.alive && c.Shaped() && c.size <= CHUNK_SIZE == idCell2.Length
    modifies c.items, idCell2
    ensures forall i :: 0 <= i < c.size ==> (idCell2[i], c.Slot(i)) == Move(g, co, old(c.Slot(i)), f)
  {
    hide Kick, Drift, CellOfCoord;
    KickChunk(c, f);
    DriftChunk(g, co, c, idCell2);
  }
}
