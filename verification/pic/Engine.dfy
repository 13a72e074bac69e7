/**
 One step of the simulation: the coloured sweep over blocks of cells, the moves and
 pushes of the particles, the merge of the bags and the charge deposit. The blocks
 of one colour, which run in parallel, are taken here one after the other; module
 ParallelSweep says what their pushes do when they are interleaved.
 */
module Engine {
  import opened BagArray
  import opened ChunkLoops
  import opened Deposit
  import opened Doubles
  import opened Grid
  import opened Motion
  import opened Particles
  import opened Race
  import opened SerialBag
  import opened StepLog

  class Pic {
    constructor (g: Dims, nbThreads: nat, bags: seq<Bag>, field: seq<Vect>, factor: Vect)
      requires Positive(g) && NbCells(g) >= 0
      ensures this.g == g && this.nbCells == NbCells(g) && this.nbThreads == nbThreads && this.bags == bags
      ensures this.field == field && this.factor == factor
      ensures depositThreadCorners.Length0 == nbThreads && depositThreadCorners.Length1 == NbCells(g)
      ensures depositThreadCorners.Length2 == NB_CORNERS
      ensures depositCorners.Length == NbCells(g) * NB_CORNERS && deposit.Length == NbCells(g)
      ensures fresh(depositThreadCorners) && fresh(depositCorners) && fresh(deposit) && depositCorners != deposit
    {
      this.g, this.nbCells, this.nbThreads := g, NbCells(g), nbThreads;
      this.bags, this.field, this.factor := bags, field, factor;
      depositThreadCorners := new real[nbThreads, NbCells(g), NB_CORNERS];
      depositCorners := new real[NbCells(g) * NB_CORNERS];
      deposit := new real[NbCells(g)];
    }

    const g: Dims
    const nbCells: int
    const nbThreads: nat
    const bags: seq<Bag>        // bagsCur[cell], then bagsNexts[MINDEX2(nbCells, 2, cell, kind)]
    const depositThreadCorners: array3<real>
    const depositCorners: array<real>  // row-major (cell, corner)
    const deposit: array<real>
    const field: seq<Vect>      // constant during a step
    const factor: Vect          // particleCharge * stepDuration^2 / particleMass / cell width, per axis

    function Next(c: int, kind: nat): nat
      requires 0 <= c < nbCells && kind < 2
    {
      nbCells + 2 * c + kind
    }

    /** What a step needs: the shapes fixed by allocateStructures, and power-of-two sizes for the masking. */
    ghost predicate Allocated() {
      MaskableGrid(g) && Shaped()
    }

    predicate Shaped() {
      && Positive(g) && nbCells == NbCells(g) && nbCells >= 1 && nbThreads >= 1
      && |bags| == 3 * nbCells
      && depositThreadCorners.Length0 == nbThreads
      && depositThreadCorners.Length1 == nbCells
      && depositThreadCorners.Length2 == NB_CORNERS
      && depositCorners.Length == nbCells * NB_CORNERS
      && deposit.Length == nbCells && |field| == nbCells
      && depositCorners != deposit
    }

    /** The bags own disjoint storage, none of which is a deposit array or the engine. */
    ghost predicate Separated(owner: Owner, open: int)
      reads owner.Keys
    {
      && this !in owner && depositThreadCorners !in owner && depositCorners !in owner && deposit !in owner
      && Separate(bags, owner, open)
    }

    // ----- what the bags and the deposit hold, in terms of the particles moved so far

    ghost predicate BagsHold(log: Log)
      requires |bags| == 3 * nbCells && nbCells >= 0
      reads bags
    {
      HoldsLog(NextHeld(nbCells, Holdings(bags)), log)
    }

    /** The accumulators of one corner of one cell, thread by thread. */
    ghost function Column(c: int, k: int): (column: seq<real>)
      requires Allocated() && 0 <= c < nbCells && 0 <= k < NB_CORNERS
      reads depositThreadCorners
      ensures |column| == nbThreads
      ensures forall t :: 0 <= t < nbThreads ==> column[t] == depositThreadCorners[t, c, k]
    {
      seq(nbThreads, t requires 0 <= t < nbThreads reads depositThreadCorners => depositThreadCorners[t, c, k])
    }

    /** Summed over the threads, the accumulators hold the corner sums of the log. */
    ghost predicate DepositHolds(log: Log)
      requires Allocated()
      reads depositThreadCorners
    {
      forall c, k :: 0 <= c < nbCells && 0 <= k < NB_CORNERS ==> Sum(Column(c, k)) == CornerSum(log, c, k)
    }

    /** What the current bags hold, cell by cell. */
    ghost function CurContents(): (cur: seq<seq<Particle>>)
      requires Shaped()
      reads bags
      ensures |cur| == nbCells
    {
      seq(nbCells, c requires 0 <= c < nbCells reads bags => bags[c].Contents())
    }

    /** What every bag holds, in order. */
    ghost function Snapshot(): (was: seq<seq<Particle>>)
      reads bags
      ensures |was| == |bags| && forall i :: 0 <= i < |bags| ==> was[i] == bags[i].Contents()
    {
      seq(|bags|, i requires 0 <= i < |bags| reads bags => bags[i].Contents())
    }

    // ----- one particle

    /** A push adds its particle to what is held for its destination. */
    method PushMoved(d: int, p: Particle, isNear: bool, ghost owner: Owner, ghost open: int)
      returns (ghost owner': Owner)
      requires Allocated() && Separated(owner, open) && open < nbCells && 0 <= d < nbCells
      modifies NotOf(owner, open)
      ensures Separated(owner', open) && Extends(owner, owner') && fresh(owner'.Keys - owner.Keys)
      ensures var k, h := Next(d, if isNear then PRIVATE else SHARED), old(Holdings(bags));
              Holdings(bags) == h[k := h[k] + multiset{p}]
      ensures forall c :: 0 <= c < nbCells ==> bags[c].parts == old(bags[c].parts)
      ensures unchanged(depositThreadCorners)
    {
      var kind := if isNear then PRIVATE else SHARED;
      owner' := PushAt(bags, Next(d, kind), isNear, p, owner, open);
    }

    /** The corners of one particle, added to the accumulators of the thread that moved it. */
    method DepositMoved(d: int, p: Particle, idThread: nat, ghost log: Log)
      requires Allocated() && 0 <= d < nbCells && idThread < nbThreads && DepositHolds(log)
      modifies depositThreadCorners
      ensures DepositHolds(log + [(d, p)])
    {
      var D := depositThreadCorners;
      for idCorner := 0 to NB_CORNERS
        invariant forall t, c, k :: 0 <= t < nbThreads && 0 <= c < nbCells && 0 <= k < NB_CORNERS ==>
                    D[t, c, k] == old(D[t, c, k])
                      + (if t == idThread && c == d && k < idCorner then CornerCoeff(k, p) else 0.0)
      {
        D[idThread, d, idCorner] := D[idThread, d, idCorner] + CornerCoeff(idCorner, p);
      }
      forall c, k | 0 <= c < nbCells && 0 <= k < NB_CORNERS
        ensures Sum(Column(c, k)) == CornerSum(log + [(d, p)], c, k)
      {
        assert (log + [(d, p)])[..|log|] == log;
        var column := old(Column(c, k));
        var delta := if c == d then CornerCoeff(k, p) else 0.0;
        assert Column(c, k) == column[idThread := column[idThread] + delta];
        SumAfterAdd(column, idThread, delta);
      }
    }

    method PushLogged(d: int, p: Particle, isNear: bool, ghost owner: Owner, ghost open: int, ghost log: Log)
      returns (ghost owner': Owner)
      requires Allocated() && Separated(owner, open) && open < nbCells && 0 <= d < nbCells && BagsHold(log)
      modifies NotOf(owner, open)
      ensures Separated(owner', open) && Extends(owner, owner') && fresh(owner'.Keys - owner.Keys)
      ensures BagsHold(log + [(d, p)])
      ensures var k, h := Next(d, if isNear then PRIVATE else SHARED), old(Holdings(bags));
              Holdings(bags) == h[k := h[k] + multiset{p}]
      ensures forall c :: 0 <= c < nbCells ==> bags[c].parts == old(bags[c].parts)
      ensures unchanged(depositThreadCorners)
    {
      hide Separated, HoldsLog, NextHeld, Holdings, MaskableGrid, Extends, NotOf, NbCells;
      ghost var h := Holdings(bags);
      owner' := PushMoved(d, p, isNear, owner, open);
      HoldsOneMore(nbCells, h, Holdings(bags), log, d, if isNear then PRIVATE else SHARED, p);
    }

    /** The deposit arrays are nobody's storage: writing them leaves the bags as they are. */
    method DepositBeside(d: int, p: Particle, idThread: nat, ghost log: Log, ghost owner: Owner, ghost open: int,
                         ghost pushed: Log)
      requires Allocated() && 0 <= d < nbCells && idThread < nbThreads && DepositHolds(log)
      requires Separated(owner, open) && BagsHold(pushed)
      modifies depositThreadCorners
      ensures DepositHolds(log + [(d, p)]) && Separated(owner, open) && BagsHold(pushed)
              && Holdings(bags) == old(Holdings(bags))
      ensures forall c :: 0 <= c < nbCells ==> bags[c].parts == old(bags[c].parts)
    {
      hide MaskableGrid, NbCells, HoldsLog, NextHeld, CornerSum;
      ghost var h := Holdings(bags);
      DepositMoved(d, p, idThread, log);
      assert forall i :: 0 <= i < |bags| ==> bags[i] in owner;
      forall i | 0 <= i < |bags|
        ensures bags[i].Contents() == old(bags[i].Contents())
      {
        assert Owned(bags, i, owner);
      }
      assert Holdings(bags) == h;
    }

    /** Push one moved particle, to the PRIVATE bag of its cell if the printed test says near and to the SHARED one
        otherwise, and deposit its corners. */
    method Dispatch(d: int, p2: Particle, block: Coord, idThread: nat, ghost owner: Owner, ghost open: nat,
                    ghost log: Log)
      returns (ghost owner': Owner)
      requires Allocated() && Separated(owner, open) && open < nbCells && idThread < nbThreads
      requires BagsHold(log) && DepositHolds(log) && 0 <= d < nbCells
      modifies NotOf(owner, open), depositThreadCorners
      ensures Separated(owner', open) && Extends(owner, owner') && fresh(owner'.Keys - owner.Keys)
      ensures BagsHold(log + [(d, p2)]) && DepositHolds(log + [(d, p2)])
      ensures var k, h := Next(d, if NearAsPrinted(g, block, CoordOfCell(g, d)) then PRIVATE else SHARED),
              old(Holdings(bags));
              Holdings(bags) == h[k := h[k] + multiset{p2}]
      ensures forall k :: 0 <= k < nbCells ==> bags[k].parts == old(bags[k].parts)
    {
      hide DepositHolds, BagsHold, Separated, NearAsPrinted, CoordOfCell, MaskableGrid, Extends, NotOf, NbCells,
          Holdings;
      var co := CoordOfCell(g, d);
      var isDistFromBlockLessThanHalfABlock := NearAsPrinted(g, block, co);
      owner' := PushLogged(d, p2, isDistFromBlockLessThanHalfABlock, owner, open, log);
      DepositBeside(d, p2, idThread, log, owner', open, log + [(d, p2)]);
    }

    // ----- one chunk, one cell

    /** One turn of the third loop over a chunk. */
    method DispatchSlot(c: Chunk, i: nat, idCell2: array<int>, block: Coord, idThread: nat,
                        ghost owner: Owner, ghost open: nat, ghost log: Log, ghost moved: Log)
      returns (ghost owner': Owner)
      requires Allocated() && Separated(owner, open) && open < nbCells && idThread < nbThreads
      requires c.alive && c.Shaped() && i < c.size == |moved| <= CHUNK_SIZE == idCell2.Length
      requires (idCell2[i], c.Slot(i)) == moved[i] && 0 <= idCell2[i] < nbCells
      requires BagsHold(log + moved[..i]) && DepositHolds(log + moved[..i])
      modifies NotOf(owner, open), depositThreadCorners
      ensures Separated(owner', open) && Extends(owner, owner') && fresh(owner'.Keys - owner.Keys)
      ensures BagsHold(log + moved[..i + 1]) && DepositHolds(log + moved[..i + 1])
      ensures forall k :: 0 <= k < nbCells ==> bags[k].parts == old(bags[k].parts)
    {
      hide BagsHold, DepositHolds, Separated, Holdings, NearAsPrinted, CoordOfCell, MaskableGrid, NbCells, NotOf,
          Extends;
      var p2 := c.LoadSlot(i);
      owner' := Dispatch(idCell2[i], p2, block, idThread, owner, open, log + moved[..i]);
      AppendNext(log, moved, i);
    }

    /** The third loop over a chunk: push every particle and deposit its corners. */
    method DispatchChunk(c: Chunk, idCell2: array<int>, block: Coord, idThread: nat,
                         ghost owner: Owner, ghost open: nat, ghost log: Log, ghost moved: Log)
      returns (ghost owner': Owner)
      requires Allocated() && Separated(owner, open) && open < nbCells && idThread < nbThreads
      requires BagsHold(log) && DepositHolds(log)
      requires c in owner && owner[c] == open && c.items in owner && owner[c.items] == open && idCell2 !in owner
      requires c.alive && c.Shaped() && c.size == |moved| <= CHUNK_SIZE == idCell2.Length
      requires InCells(g, moved)
      requires forall i :: 0 <= i < |moved| ==> (idCell2[i], c.Slot(i)) == moved[i]
      requires depositThreadCorners as object != idCell2
      modifies NotOf(owner, open), depositThreadCorners
      ensures Separated(owner', open) && Extends(owner, owner') && fresh(owner'.Keys - owner.Keys)
      ensures BagsHold(log + moved) && DepositHolds(log + moved)
      ensures forall k :: 0 <= k < nbCells ==> bags[k].parts == old(bags[k].parts)
    {
      hide BagsHold, DepositHolds, HoldsLog, Separated;
      owner' := owner;
      assert log + moved[..0] == log;
      for i := 0 to c.size
        invariant Separated(owner', open) && Extends(owner, owner') && fresh(owner'.Keys - owner.Keys)
        invariant BagsHold(log + moved[..i]) && DepositHolds(log + moved[..i])
        invariant forall k :: 0 <= k < nbCells ==> bags[k].parts == old(bags[k].parts)
        invariant unchanged(c, c.items, idCell2)
      {
        owner' := DispatchSlot(c, i, idCell2, block, idThread, owner', open, log, moved);
      }
      assert moved[..|moved|] == moved;
    }

    /** The chain of bag k is intact from chunk i on. */
    ghost predicate ChainFrom(k: nat, i: nat)
      requires k < |bags|
      reads bags[k], bags[k].Repr
    {
      var b := bags[k];
      && |b.parts| == |b.spine|
      && (forall j :: i <= j < |b.spine| ==> b.ChunkOk(j))
      && (forall j, m :: i <= j < m < |b.spine| ==> b.spine[j] != b.spine[m] && b.spine[j].items != b.spine[m].items)
    }

    /** The first two loops over chunk i of the open bag k leave the other bags as they are. */
    method MoveChunk(k: nat, ghost i: nat, c: Chunk, co: Coord, f: CornerField, idCell2: array<int>,
                     ghost ps: seq<Particle>, ghost owner: Owner, ghost log: Log)
      requires Allocated() && f.Shaped() && k < nbCells && Separated(owner, k) && BagsHold(log) && DepositHolds(log)
      requires ChainFrom(k, i) && i < |bags[k].spine| && c == bags[k].spine[i] && ps == bags[k].parts[i]
      requires idCell2 !in owner && idCell2.Length == CHUNK_SIZE
      modifies c.items, idCell2
      ensures Separated(owner, k) && BagsHold(log) && DepositHolds(log)
      ensures ChainFrom(k, i + 1)
      ensures c.size == |ps| <= CHUNK_SIZE && c.alive && c.Shaped()
      ensures forall m :: 0 <= m < c.size ==> (idCell2[m], c.Slot(m)) == Move(g, co, ps[m], f)
    {
      hide Move, CornerSum, HoldsLog, MaskableGrid, NbCells;
      assert bags[k].ChunkOk(i);
      assert Owned(bags, k, owner);
      assert c.items in owner && owner[c.items] == k;
      MoveItems(g, co, c, f, idCell2);
      forall j | i + 1 <= j < |bags[k].spine|
        ensures bags[k].ChunkOk(j)
      {
        assert old(bags[k].ChunkOk(j));
      }
    }

    /** The pushes go to other bags: the chain being drained stays as it is. */
    method DispatchBeside(c: Chunk, idCell2: array<int>, block: Coord, idThread: nat,
                          ghost owner: Owner, ghost k: nat, ghost i: nat, ghost log: Log, ghost moved: Log)
      returns (ghost owner': Owner)
      requires Allocated() && Separated(owner, k) && k < nbCells && idThread < nbThreads
      requires BagsHold(log) && DepositHolds(log)
      requires c in owner && owner[c] == k && c.items in owner && owner[c.items] == k && idCell2 !in owner
      requires c.alive && c.Shaped() && c.size == |moved| <= CHUNK_SIZE == idCell2.Length
      requires InCells(g, moved)
      requires forall m :: 0 <= m < |moved| ==> (idCell2[m], c.Slot(m)) == moved[m]
      requires ChainFrom(k, i)
      modifies NotOf(owner, k), depositThreadCorners
      ensures Separated(owner', k) && Extends(owner, owner') && fresh(owner'.Keys - owner.Keys)
      ensures BagsHold(log + moved) && DepositHolds(log + moved)
      ensures forall n :: 0 <= n < nbCells ==> bags[n].parts == old(bags[n].parts)
      ensures ChainFrom(k, i) && unchanged(bags[k]) && unchanged(c)
    {
      hide BagsHold, DepositHolds, InCells, MaskableGrid, NbCells;
      assert Owned(bags, k, owner);
      owner' := DispatchChunk(c, idCell2, block, idThread, owner, k, log, moved);
    }

    /** chunk_next of the chunk just dealt with: the rest of the chain and the other bags stay as they are. */
    method FreeDrained(k: nat, ghost i: nat, c: Chunk, ghost owner: Owner, ghost log: Log) returns (next: Chunk?)
      requires Allocated() && k < nbCells && Separated(owner, k) && BagsHold(log) && DepositHolds(log)
      requires ChainFrom(k, i + 1) && i < |bags[k].spine| && c == bags[k].spine[i] && c.alive && c in owner
               && owner[c] == k
      requires c.next == if i + 1 < |bags[k].spine| then bags[k].spine[i + 1] else null
      requires forall j :: i + 1 <= j < |bags[k].spine| ==> bags[k].spine[j] != c
      modifies c
      ensures Separated(owner, k) && BagsHold(log) && DepositHolds(log)
      ensures ChainFrom(k, i + 1) && unchanged(bags[k])
      ensures next == if i + 1 < |bags[k].spine| then bags[k].spine[i + 1] else null
      ensures forall n :: 0 <= n < nbCells ==> bags[n].parts == old(bags[n].parts)
    {
      hide MaskableGrid, NbCells, HoldsLog, CornerSum;
      next := ChunkNext(c, true);
      forall j | i + 1 <= j < |bags[k].spine|
        ensures bags[k].ChunkOk(j)
      {
        assert old(bags[k].ChunkOk(j));
      }
    }

    /** One turn of the loop over the chunks of the open bag k. */
    method ProcessChunk(k: nat, ghost i: nat, c: Chunk, co: Coord, f: CornerField, block: Coord, idThread: nat,
                        ghost ps: seq<Particle>, ghost owner: Owner, ghost log: Log)
      returns (next: Chunk?, ghost owner': Owner)
      requires Allocated() && f.Shaped() && k < nbCells && idThread < nbThreads
      requires Separated(owner, k) && BagsHold(log) && DepositHolds(log)
      requires ChainFrom(k, i) && i < |bags[k].spine| && c == bags[k].spine[i] && ps == bags[k].parts[i]
      modifies owner.Keys, depositThreadCorners
      ensures Separated(owner', k) && Extends(owner, owner') && fresh(owner'.Keys - owner.Keys)
      ensures BagsHold(log + Moves(g, co, ps, f)) && DepositHolds(log + Moves(g, co, ps, f))
      ensures ChainFrom(k, i + 1) && unchanged(bags[k])
      ensures next == if i + 1 < |bags[k].spine| then bags[k].spine[i + 1] else null
      ensures forall n :: 0 <= n < nbCells ==> bags[n].parts == old(bags[n].parts)
    {
      hide BagsHold, DepositHolds, MaskableGrid, NbCells, Move;
      assert bags[k].ChunkOk(i);
      assert Owned(bags, k, owner);
      var idCell2_step := new int[CHUNK_SIZE];
      MoveChunk(k, i, c, co, f, idCell2_step, ps, owner, log);
      MovesInCells(g, co, ps, f);
      owner' := DispatchBeside(c, idCell2_step, block, idThread, owner, k, i + 1, log, Moves(g, co, ps, f));
      next := FreeDrained(k, i, c, owner', log + Moves(g, co, ps, f));
    }

    /** The body of the sweep for one cell: the destructive iteration, then bag_init. */
    method DrainCell(k: nat, co: Coord, f: CornerField, block: Coord, idThread: nat, ghost owner: Owner, ghost log: Log)
      returns (ghost owner': Owner)
      requires Allocated() && f.Shaped() && k < nbCells && idThread < nbThreads
      requires Separated(owner, -1) && BagsHold(log) && DepositHolds(log)
      modifies owner.Keys, depositThreadCorners
      ensures Separated(owner', -1) && Extends(owner, owner') && fresh(owner'.Keys - owner.Keys)
      ensures BagsHold(log + Moves(g, co, old(bags[k].Contents()), f))
      ensures DepositHolds(log + Moves(g, co, old(bags[k].Contents()), f))
      ensures bags[k].Contents() == []
      ensures forall n :: 0 <= n < nbCells && n != k ==> bags[n].parts == old(bags[n].parts)
    {
      hide BagsHold, DepositHolds, MaskableGrid, NbCells, Move;
      var b := bags[k];
      ghost var parts := b.parts;
      owner' := owner;
      ghost var i := 0;
      var c := b.front;
      ghost var done := log;
      assert log + Moves(g, co, Flatten(parts[..0]), f) == log;
      while c != null
        invariant 0 <= i <= |parts| == |b.spine| && unchanged(b)
        invariant c == if i < |b.spine| then b.spine[i] else null
        invariant Separated(owner', k) && Extends(owner, owner') && fresh(owner'.Keys - owner.Keys)
        invariant ChainFrom(k, i)
        invariant done == log + Moves(g, co, Flatten(parts[..i]), f)
        invariant BagsHold(done) && DepositHolds(done)
        invariant forall n :: 0 <= n < nbCells ==> bags[n].parts == old(bags[n].parts)
        decreases |parts| - i
      {
        c, owner' := ProcessChunk(k, i, c, co, f, block, idThread, parts[i], owner', done);
        MovesOfNextPart(g, co, parts, i, f, log);
        done := done + Moves(g, co, parts[i], f);
        i := i + 1;
      }
      assert parts[..|parts|] == parts;
      owner' := InitCell(k, owner', done);
    }

    /** bag_init of the drained bag. */
    method InitCell(k: nat, ghost owner: Owner, ghost log: Log) returns (ghost owner': Owner)
      requires Allocated() && k < nbCells && Separated(owner, k) && BagsHold(log) && DepositHolds(log)
      modifies bags[k]
      ensures Separated(owner', -1) && Extends(owner, owner') && fresh(owner'.Keys - owner.Keys)
      ensures BagsHold(log) && DepositHolds(log) && bags[k].Contents() == []
      ensures forall n :: 0 <= n < nbCells && n != k ==> bags[n].parts == old(bags[n].parts)
    {
      hide HoldsLog, CornerSum, MaskableGrid, NbCells;
      ghost var h := Holdings(bags);
      owner' := InitAt(bags, k, owner);
      assert NextHeld(nbCells, Holdings(bags)) == NextHeld(nbCells, h);
    }

    // ----- the sweep

    /** The state of the sweep after the cells of `order`, when the bags held `init` at the start. */
    ghost predicate Swept(order: seq<Coord>, init: seq<seq<Particle>>, owner: Owner)
      requires Allocated()
      reads owner.Keys, bags, depositThreadCorners
    {
      && Separated(owner, -1)
      && |init| == nbCells && AllInGrid(g, order)
      && BagsHold(LogOf(g, order, init, field, factor))
      && DepositHolds(LogOf(g, order, init, field, factor))
      && Remaining(g, CurContents(), order, init)
    }

    method SweepCell(iX: int, iY: int, iZ: int, block: Coord, idThread: nat,
                     ghost order: seq<Coord>, ghost init: seq<seq<Particle>>, ghost owner: Owner)
      returns (ghost owner': Owner)
      requires Allocated() && idThread < nbThreads && Swept(order, init, owner)
      requires InGrid(g, Coord(iX, iY, iZ)) && Coord(iX, iY, iZ) !in order
      modifies owner.Keys, depositThreadCorners
      ensures Swept(order + [Coord(iX, iY, iZ)], init, owner')
      ensures owner.Keys <= owner'.Keys && fresh(owner'.Keys - owner.Keys)
    {
      hide IdOf, BagsHold, DepositHolds, Separated, FieldAtCorners, Moves, MaskableGrid, NbCells, CellOfCoord,
          CoordOfCell, LogOf;
      ghost var co := Coord(iX, iY, iZ);
      var idCell := (iX * g.y + iY) * g.z + iZ;
      RowMajor(g, co);
      var f := ScaleField(idCell);
      ghost var cur := CurContents();
      assert cur[idCell] == init[idCell];
      owner' := DrainCell(idCell, Coord(iX, iY, iZ), f, block, idThread, owner, LogOf(g, order, init, field, factor));
      assert CurContents() == cur[idCell := []];
      RemainingStep(g, cur, order, init, co);
      LogStep(g, order, co, init, field, factor);
    }

    /** The loop that reads and scales the field at the eight corners. */
    method ScaleField(idCell: int) returns (f: CornerField)
      requires Allocated() && 0 <= idCell < nbCells
      ensures f == FieldAtCorners(g, field, factor, idCell) && f.Shaped()
    {
      hide NbCells, CoordOfCell, CellOfCoord, MaskableGrid, Scale, IndicesOfCorners;
      var indices := IndicesOfCorners(g, idCell);
      CornersInGrid(g, idCell);
      ghost var f0 := FieldAtCorners(g, field, factor, idCell);
      var x, y, z: seq<real> := [], [], [];
      for k := 0 to NB_CORNERS
        invariant x == f0.x[..k] && y == f0.y[..k] && z == f0.z[..k]
      {
        var v := Scale(field[indices[k]], factor);
        x := x + [v.x];
        y := y + [v.y];
        z := z + [v.z];
      }
      f := CornerField(x, y, z);
    }

    /** The cells of one block, each once. */
    method SweepBlock(b: Coord, idThread: nat, ghost order: seq<Coord>, ghost init: seq<seq<Particle>>,
                      ghost owner: Owner)
      returns (ghost order': seq<Coord>, ghost owner': Owner)
      requires Allocated() && idThread < nbThreads && Swept(order, init, owner) && NoRepeat(order)
      requires forall co :: InBlock(b, co) ==> InGrid(g, co) && co !in order
      modifies owner.Keys, depositThreadCorners
      ensures Swept(order', init, owner') && Visits(order', order, co => InBlock(b, co))
      ensures owner.Keys <= owner'.Keys && fresh(owner'.Keys - owner.Keys)
    {
      hide Swept, Allocated, InGrid;
      order', owner' := order, owner;
      for iX := b.iX to b.iX + BLOCK
        invariant Swept(order', init, owner') && owner.Keys <= owner'.Keys && fresh(owner'.Keys - owner.Keys)
        invariant Visits(order', order, co => BlockDone(b, iX, b.iY, b.iZ, co))
      {
        for iY := b.iY to b.iY + BLOCK
          invariant Swept(order', init, owner') && owner.Keys <= owner'.Keys && fresh(owner'.Keys - owner.Keys)
          invariant Visits(order', order, co => BlockDone(b, iX, iY, b.iZ, co))
        {
          for iZ := b.iZ to b.iZ + BLOCK
            invariant Swept(order', init, owner') && owner.Keys <= owner'.Keys && fresh(owner'.Keys - owner.Keys)
            invariant Visits(order', order, co => BlockDone(b, iX, iY, iZ, co))
          {
            assert InBlock(b, Coord(iX, iY, iZ));
            owner' := SweepCell(iX, iY, iZ, b, idThread, order', init, owner');
            order' := order' + [Coord(iX, iY, iZ)];
          }
        }
      }
    }

    lemma EvenSizes()
      requires Allocated()
      ensures g.x % 2 == 0 && g.y % 2 == 0 && g.z % 2 == 0
    {
      EvenGrid(g);
    }

    /** The blocks of one colour; tid gives the thread that runs each of them. */
    method SweepColour(c: Colour, tid: Coord -> nat, ghost order: seq<Coord>, ghost init: seq<seq<Particle>>,
                       ghost owner: Owner)
      returns (ghost order': seq<Coord>, ghost owner': Owner)
      requires Allocated() && (forall b :: tid(b) < nbThreads) && Swept(order, init, owner) && NoRepeat(order)
      requires 0 <= c.x < 2 && 0 <= c.y < 2 && 0 <= c.z < 2
      requires forall co :: co in order ==> !OfColour(c, co)
      modifies owner.Keys, depositThreadCorners
      ensures Swept(order', init, owner') && Visits(order', order, co => InGrid(g, co) && OfColour(c, co))
      ensures owner.Keys <= owner'.Keys && fresh(owner'.Keys - owner.Keys)
    {
      hide Swept, Allocated, VisitsColour, Visits, NoRepeat, OfColour, BlockOrigin, InBlock, InGrid;
      EvenSizes();
      FirstOrigin(g.x, c.x);
      FirstOrigin(g.y, c.y);
      FirstOrigin(g.z, c.z);
      order', owner' := order, owner;
      BeforeColour(g, c, order);
      var bX := c.x * BLOCK;
      while bX < g.x
        invariant BlockOrigin(g.x, c.x, bX)
        invariant Swept(order', init, owner') && owner.Keys <= owner'.Keys && fresh(owner'.Keys - owner.Keys)
        invariant VisitsColour(g, c, bX, c.y * BLOCK, c.z * BLOCK, order', order)
      {
        var bY := c.y * BLOCK;
        while bY < g.y
          invariant BlockOrigin(g.y, c.y, bY)
          invariant Swept(order', init, owner') && owner.Keys <= owner'.Keys && fresh(owner'.Keys - owner.Keys)
          invariant VisitsColour(g, c, bX, bY, c.z * BLOCK, order', order)
        {
          var bZ := c.z * BLOCK;
          while bZ < g.z
            invariant BlockOrigin(g.z, c.z, bZ)
            invariant Swept(order', init, owner') && owner.Keys <= owner'.Keys && fresh(owner'.Keys - owner.Keys)
            invariant VisitsColour(g, c, bX, bY, bZ, order', order)
          {
            ghost var b, before := Coord(bX, bY, bZ), order';
            BlockIsNew(g, c, b, before, order);
            VisitedOnce(g, c, b, before, order);
            order', owner' := SweepBlock(Coord(bX, bY, bZ), tid(Coord(bX, bY, bZ)), order', init, owner');
            AfterBlock(g, c, b, order', before, order);
            NextOrigin(g.z, c.z, bZ);
            bZ := bZ + 2 * BLOCK;
          }
          AfterRow(g, c, bX, bY, bZ, order', order);
          NextOrigin(g.y, c.y, bY);
          bY := bY + 2 * BLOCK;
        }
        AfterPlane(g, c, bX, bY, order', order);
        NextOrigin(g.x, c.x, bX);
        bX := bX + 2 * BLOCK;
      }
      AfterColour(g, c, bX, order', order);
    }

    /** All the colours: every cell of the grid is visited exactly once. */
    method Sweep(tid: Coord -> nat, ghost init: seq<seq<Particle>>, ghost owner: Owner)
      returns (ghost order: seq<Coord>, ghost owner': Owner)
      requires Allocated() && (forall b :: tid(b) < nbThreads) && Swept([], init, owner)
      modifies owner.Keys, depositThreadCorners
      ensures Swept(order, init, owner') && NoRepeat(order) && (forall co :: co in order <==> InGrid(g, co))
      ensures owner.Keys <= owner'.Keys && fresh(owner'.Keys - owner.Keys)
    {
      hide Swept, Allocated;
      order, owner' := [], owner;
      for cX := 0 to 2
        invariant Swept(order, init, owner') && owner.Keys <= owner'.Keys && fresh(owner'.Keys - owner.Keys)
        invariant Visits(order, [], co => ColoursDone(g, cX, 0, 0, co))
      {
        for cY := 0 to 2
          invariant Swept(order, init, owner') && owner.Keys <= owner'.Keys && fresh(owner'.Keys - owner.Keys)
          invariant Visits(order, [], co => ColoursDone(g, cX, cY, 0, co))
        {
          for cZ := 0 to 2
            invariant Swept(order, init, owner') && owner.Keys <= owner'.Keys && fresh(owner'.Keys - owner.Keys)
            invariant Visits(order, [], co => ColoursDone(g, cX, cY, cZ, co))
          {
            order, owner' := SweepColour(Colour(cX, cY, cZ), tid, order, init, owner');
          }
        }
      }
    }

    // ----- before the sweep: clear the accumulators

    method ClearAccumulators(ghost owner: Owner)
      requires Allocated() && Separated(owner, -1)
      modifies depositThreadCorners
      ensures DepositHolds([]) && Separated(owner, -1) && CurContents() == old(CurContents())
      ensures forall i :: 0 <= i < |bags| ==> bags[i].parts == old(bags[i].parts)
    {
      var D := depositThreadCorners;
      ghost var cur := CurContents();
      for idCell := 0 to nbCells
        invariant forall t, c, k :: 0 <= t < nbThreads && 0 <= c < idCell && 0 <= k < NB_CORNERS ==> D[t, c, k] == 0.0
      {
        for idCorner := 0 to NB_CORNERS
          invariant forall t, c, k :: 0 <= t < nbThreads && 0 <= c < idCell && 0 <= k < NB_CORNERS ==> D[t, c, k] == 0.0
          invariant forall t, k :: 0 <= t < nbThreads && 0 <= k < idCorner ==> D[t, idCell, k] == 0.0
        {
          for idThread := 0 to nbThreads
            invariant forall t, c, k :: 0 <= t < nbThreads && 0 <= c < idCell && 0 <= k < NB_CORNERS ==>
                        D[t, c, k] == 0.0
            invariant forall t, k :: 0 <= t < nbThreads && 0 <= k < idCorner ==> D[t, idCell, k] == 0.0
            invariant forall t :: 0 <= t < idThread ==> D[t, idCell, idCorner] == 0.0
          {
            D[idThread, idCell, idCorner] := 0.0;
          }
        }
      }
      forall c, k | 0 <= c < nbCells && 0 <= k < NB_CORNERS
        ensures Sum(Column(c, k)) == CornerSum([], c, k)
      {
        SumOfZeros(Column(c, k));
      }
      assert forall i :: 0 <= i < |bags| ==> bags[i] in owner;
      assert CurContents() == cur;
    }

    // ----- after the sweep: merge the bags, add up the threads, gather

    method AppendBags(k: nat, j: nat, ghost owner: Owner) returns (ghost owner': Owner)
      requires k < |bags| && j < |bags| && k != j && Separated(owner, -1)
      modifies owner.Keys
      ensures Separated(owner', -1) && owner.Keys <= owner'.Keys && fresh(owner'.Keys - owner.Keys)
      ensures var was := old(Snapshot()); Snapshot() == was[k := was[k] + was[j]][j := []]
      ensures unchanged(depositThreadCorners) && unchanged(depositCorners)
    {
      hide Whole, Owned;
      ghost var was := Snapshot();
      owner' := AppendAt(bags, k, j, owner);
      hide Separate, Flatten;
      forall i | 0 <= i < |bags| && i != k && i != j
        ensures bags[i].Contents() == was[i]
      {
      }
    }

    /** Both next bags of a cell are appended to its current bag. */
    method MergeCell(idCell: nat, ghost owner: Owner) returns (ghost owner': Owner)
      requires Allocated() && idCell < nbCells && Separated(owner, -1)
      modifies owner.Keys
      ensures Separated(owner', -1) && owner.Keys <= owner'.Keys && fresh(owner'.Keys - owner.Keys)
      ensures Snapshot() == MergeOf(old(Snapshot()), idCell, 2)
      ensures unchanged(depositThreadCorners) && unchanged(depositCorners)
    {
      hide MaskableGrid, NbCells, Separated, Snapshot;
      owner' := owner;
      ghost var was := Snapshot();
      for bagsKind: nat := 0 to 2
        invariant Separated(owner', -1) && owner.Keys <= owner'.Keys && fresh(owner'.Keys - owner.Keys)
        invariant Snapshot() == MergeOf(was, idCell, bagsKind)
        invariant unchanged(depositThreadCorners) && unchanged(depositCorners)
      {
        owner' := AppendBags(idCell, Next(idCell, bagsKind), owner');
      }
    }

    /** The effect of appending the first n next bags of a cell. */
    ghost function MergeOf(was: seq<seq<Particle>>, c: nat, n: nat): (now: seq<seq<Particle>>)
      requires |was| == 3 * nbCells && c < nbCells && n <= 2
      ensures |now| == |was|
    {
      if n == 0 then was
      else
        var before, j := MergeOf(was, c, n - 1), Next(c, n - 1);
        before[c := before[c] + before[j]][j := []]
    }

    method ReduceThreads(idCell: nat)
      requires Allocated() && idCell < nbCells
      modifies depositCorners
      ensures forall k :: 0 <= k < NB_CORNERS ==> depositCorners[idCell * NB_CORNERS + k] == Sum(Column(idCell, k))
      ensures forall m :: 0 <= m < depositCorners.Length && m / NB_CORNERS != idCell ==>
                depositCorners[m] == old(depositCorners[m])
    {
      hide MaskableGrid, NbCells, Sum;
      for idCorner := 0 to NB_CORNERS
        invariant forall k :: 0 <= k < idCorner ==>
                    depositCorners[idCell * NB_CORNERS + k] == depositThreadCorners[0, idCell, k]
        invariant forall m :: 0 <= m < depositCorners.Length && m / NB_CORNERS != idCell ==>
                    depositCorners[m] == old(depositCorners[m])
      {
        depositCorners[idCell * NB_CORNERS + idCorner] := depositThreadCorners[0, idCell, idCorner];
      }
      forall k | 0 <= k < NB_CORNERS
        ensures Sum(Column(idCell, k)[..1]) == depositThreadCorners[0, idCell, k]
      {
        SumNext(Column(idCell, k), 0);
        SumOfZeros(Column(idCell, k)[..0]);
      }
      for idThread := 1 to nbThreads
        invariant forall k :: 0 <= k < NB_CORNERS ==>
                    depositCorners[idCell * NB_CORNERS + k] == Sum(Column(idCell, k)[..idThread])
        invariant forall m :: 0 <= m < depositCorners.Length && m / NB_CORNERS != idCell ==>
                    depositCorners[m] == old(depositCorners[m])
      {
        for idCorner := 0 to NB_CORNERS
          invariant forall k :: 0 <= k < NB_CORNERS ==>
                      depositCorners[idCell * NB_CORNERS + k]
                          == Sum(Column(idCell, k)[..if k < idCorner then idThread + 1 else idThread])
          invariant forall m :: 0 <= m < depositCorners.Length && m / NB_CORNERS != idCell ==>
                      depositCorners[m] == old(depositCorners[m])
        {
          SumNext(Column(idCell, idCorner), idThread);
          depositCorners[idCell * NB_CORNERS + idCorner] :=
            depositCorners[idCell * NB_CORNERS + idCorner] + depositThreadCorners[idThread, idCell, idCorner];
        }
      }
      forall k | 0 <= k < NB_CORNERS
        ensures Column(idCell, k)[..nbThreads] == Column(idCell, k)
      {
      }
    }

    method GatherCell(idCell: nat, ghost log: Log) returns (sum: real)
      requires Allocated() && idCell < nbCells
      requires forall m :: 0 <= m < depositCorners.Length ==>
                 depositCorners[m] == CornerSum(log, m / NB_CORNERS, m % NB_CORNERS)
      ensures sum == Gathered(g, log, idCell, NB_CORNERS)
    {
      hide MaskableGrid, Bij, CornerSum, CellOfCoord, CoordOfCell, IndicesOfCorners, NbCells;
      sum := 0.0;
      for idCorner := 0 to NB_CORNERS
        invariant sum == Gathered(g, log, idCell, idCorner)
      {
        GatherSourceHitsCell(g, idCell, idCorner);
        sum := sum + depositCorners[Bij(g, idCell, idCorner)];
      }
    }

    method GatherDeposit(ghost log: Log)
      requires Allocated()
      requires forall m :: 0 <= m < depositCorners.Length ==>
                 depositCorners[m] == CornerSum(log, m / NB_CORNERS, m % NB_CORNERS)
      modifies deposit
      ensures forall c :: 0 <= c < nbCells ==> deposit[c] == Gathered(g, log, c, NB_CORNERS)
    {
      hide MaskableGrid, Gathered, CornerSum, NbCells;
      for idCell: nat := 0 to nbCells
        invariant forall c :: 0 <= c < idCell ==> deposit[c] == Gathered(g, log, c, NB_CORNERS)
      {
        var sum := GatherCell(idCell, log);
        deposit[idCell] := sum;
      }
    }

    /** The first `done` cells have been merged; the others are as they were when `was` was recorded. */
    ghost predicate Merged(done: int, was: seq<seq<Particle>>)
      requires |bags| == 3 * nbCells == |was| && nbCells >= 0
      reads bags
    {
      IsMerged(done, was, Snapshot())
    }

    ghost predicate IsMerged(done: int, was: seq<seq<Particle>>, now: seq<seq<Particle>>)
      requires |now| == 3 * nbCells == |was| && nbCells >= 0
    {
      && (forall c :: 0 <= c < nbCells && c < done ==>
            && now[c] == was[c] + was[Next(c, PRIVATE)] + was[Next(c, SHARED)]
            && now[Next(c, PRIVATE)] == [] && now[Next(c, SHARED)] == [])
      && (forall c :: 0 <= c < nbCells && c >= done ==>
            && now[c] == was[c] && now[Next(c, PRIVATE)] == was[Next(c, PRIVATE)]
               && now[Next(c, SHARED)] == was[Next(c, SHARED)])
    }

    lemma MergedOneMore(c: nat, was: seq<seq<Particle>>, now: seq<seq<Particle>>)
      requires |now| == 3 * nbCells == |was| && c < nbCells && IsMerged(c, was, now)
      ensures IsMerged(c + 1, was, MergeOf(now, c, 2))
    {
      var j0, j1 := Next(c, PRIVATE), Next(c, SHARED);
      assert MergeOf(now, c, 1) == now[c := now[c] + now[j0]][j0 := []];
      assert MergeOf(now, c, 2) == now[c := now[c] + now[j0] + now[j1]][j0 := []][j1 := []];
    }

    method MergeNext(idCell: nat, ghost was: seq<seq<Particle>>, ghost owner: Owner) returns (ghost owner': Owner)
      requires Allocated() && idCell < nbCells && Separated(owner, -1) && |was| == 3 * nbCells && Merged(idCell, was)
      modifies owner.Keys
      ensures Separated(owner', -1) && owner.Keys <= owner'.Keys && fresh(owner'.Keys - owner.Keys)
      ensures Merged(idCell + 1, was) && unchanged(depositThreadCorners) && unchanged(depositCorners)
    {
      hide MaskableGrid, NbCells, Separated, Snapshot, IsMerged, MergeOf;
      MergedOneMore(idCell, was, Snapshot());
      owner' := MergeCell(idCell, owner);
    }

    /** The corner sums of the first `done` cells are in place. */
    ghost predicate Reduced(done: int, log: Log)
      requires Allocated()
      reads depositCorners
    {
      forall m :: 0 <= m < depositCorners.Length && m / NB_CORNERS < done ==>
        depositCorners[m] == CornerSum(log, m / NB_CORNERS, m % NB_CORNERS)
    }

    method ReduceNext(idCell: nat, ghost was: seq<seq<Particle>>, ghost log: Log, ghost owner: Owner)
      requires Allocated() && idCell < nbCells && Separated(owner, -1) && |was| == 3 * nbCells
               && Merged(idCell + 1, was)
      requires DepositHolds(log) && Reduced(idCell, log)
      modifies depositCorners
      ensures Separated(owner, -1) && Merged(idCell + 1, was) && DepositHolds(log) && Reduced(idCell + 1, log)
    {
      hide MaskableGrid, NbCells, CornerSum, Sum;
      ghost var h := Holdings(bags);
      ReduceThreads(idCell);
      assert forall i :: 0 <= i < |bags| ==> bags[i] in owner;
      forall m | 0 <= m < depositCorners.Length && m / NB_CORNERS < idCell + 1
        ensures depositCorners[m] == CornerSum(log, m / NB_CORNERS, m % NB_CORNERS)
      {
        if m / NB_CORNERS == idCell {
          assert m == idCell * NB_CORNERS + m % NB_CORNERS;
          assert Sum(Column(idCell, m % NB_CORNERS)) == CornerSum(log, idCell, m % NB_CORNERS);
        }
      }
    }

    /** The loop over the cells that follows the sweep. */
    method MergeAndReduce(ghost was: seq<seq<Particle>>, ghost log: Log, ghost owner: Owner)
      returns (ghost owner': Owner)
      requires Allocated() && Separated(owner, -1) && |was| == 3 * nbCells && Merged(0, was) && DepositHolds(log)
      modifies owner.Keys, depositCorners
      ensures Separated(owner', -1) && owner.Keys <= owner'.Keys && fresh(owner'.Keys - owner.Keys)
      ensures Merged(nbCells, was) && Reduced(nbCells, log)
    {
      hide MaskableGrid, NbCells, Merged, DepositHolds;
      owner' := owner;
      for idCell: nat := 0 to nbCells
        invariant Separated(owner', -1) && owner.Keys <= owner'.Keys && fresh(owner'.Keys - owner.Keys)
        invariant Merged(idCell, was) && DepositHolds(log) && Reduced(idCell, log)
      {
        owner' := MergeNext(idCell, was, owner');
        ReduceNext(idCell, was, log, owner');
      }
    }

    // ----- the whole step

    /** Particles and charge after a step in terms of the moves of the particles held before it. */
    ghost predicate Stepped(init: seq<seq<Particle>>, owner: Owner)
      requires Allocated() && |init| == nbCells
      reads owner.Keys, bags, deposit
    {
      var log := LogOf(g, AllCells(g), init, field, factor);
      && Separated(owner, -1)
      && InCells(g, log)
      && (forall c :: 0 <= c < nbCells ==>
            bags[Next(c, PRIVATE)].Contents() == [] && bags[Next(c, SHARED)].Contents() == [])
      && (forall c, p :: 0 <= c < nbCells ==> multiset(bags[c].Contents())[p] == multiset(log)[(c, p)])
      && (forall c :: 0 <= c < nbCells ==> deposit[c] == Scattered(g, log, c))
    }

    ghost predicate NextsEmpty()
      requires |bags| == 3 * nbCells && nbCells >= 0
      reads bags
    {
      forall c :: 0 <= c < nbCells ==> bags[Next(c, PRIVATE)].Contents() == [] && bags[Next(c, SHARED)].Contents() == []
    }

    lemma SweepCanStart(owner: Owner)
      requires Allocated() && Separated(owner, -1) && NextsEmpty() && DepositHolds([])
      ensures Swept([], CurContents(), owner)
    {
      hide MaskableGrid, NbCells, DepositHolds, Separated;
      forall i | nbCells <= i < 3 * nbCells
        ensures Holdings(bags)[i] == multiset{}
      {
        var c, kind := (i - nbCells) / 2, (i - nbCells) % 2;
        assert i == Next(c, kind) && (kind == PRIVATE || kind == SHARED);
      }
      hide HoldsLog;
      NothingHeldYet(nbCells, Holdings(bags));
    }

    method ClearAndSweep(tid: Coord -> nat, ghost owner: Owner) returns (ghost order: seq<Coord>, ghost owner': Owner)
      requires Allocated() && (forall b :: tid(b) < nbThreads) && Separated(owner, -1) && NextsEmpty()
      modifies owner.Keys, depositThreadCorners
      ensures Swept(order, old(CurContents()), owner')
      ensures NoRepeat(order) && (forall co :: co in order <==> InGrid(g, co))
      ensures owner.Keys <= owner'.Keys && fresh(owner'.Keys - owner.Keys)
    {
      hide MaskableGrid, NbCells, NoRepeat, InGrid;
      ghost var init := CurContents();
      ClearAccumulators(owner);
      SweepCanStart(owner);
      hide Swept, Separated, NextsEmpty;
      order, owner' := Sweep(tid, init, owner);
    }

    /** After a complete sweep the current bags are empty, so a merged bag is its two next bags. */
    lemma MergedHolds(order: seq<Coord>, init: seq<seq<Particle>>, was: seq<seq<Particle>>, c: nat, p: Particle)
      requires Allocated() && |init| == nbCells && |was| == 3 * nbCells && c < nbCells && AllInGrid(g, order)
      requires forall co :: co in order <==> InGrid(g, co)
      requires Remaining(g, was[..nbCells], order, init)
      requires HoldsLog(NextHeld(nbCells, MultisetsOf(was)), LogOf(g, order, init, field, factor))
      ensures multiset(was[c] + was[Next(c, PRIVATE)] + was[Next(c, SHARED)])[p]
           == multiset(LogOf(g, order, init, field, factor))[(c, p)]
    {
      hide LogOf, MaskableGrid, HoldsLog, Remaining, NextHeld;
      VisitedIsEmpty(g, was[..nbCells], order, init, c);
      HoldsAt(NextHeld(nbCells, MultisetsOf(was)), LogOf(g, order, init, field, factor), c, p);
      EmptyAndTwo(was[c], was[Next(c, PRIVATE)], was[Next(c, SHARED)]);
    }

    /** Merge, reduce and gather, after a complete sweep. */
    method FinishStep(ghost order: seq<Coord>, ghost init: seq<seq<Particle>>, ghost owner: Owner)
      returns (ghost owner': Owner)
      requires Allocated() && Swept(order, init, owner)
      requires NoRepeat(order) && (forall co :: co in order <==> InGrid(g, co))
      modifies owner.Keys, depositCorners, deposit
      ensures |init| == nbCells && Stepped(init, owner')
      ensures owner.Keys <= owner'.Keys && fresh(owner'.Keys - owner.Keys)
    {
      hide NoRepeat, InGrid, MaskableGrid, NbCells, LogOf, Merged, Separated, DepositHolds, BagsHold, Remaining,
          AllInGrid;
      ghost var log := LogOf(g, order, init, field, factor);
      ghost var was := Snapshot();
      SweepLog(g, order, init, field, factor);
      NothingMerged();
      ReadyToMerge(order, init, owner);
      owner' := MergeAndReduce(was, log, owner);
      GatherBeside(log, was, owner');
      MergedStep(order, init, was, owner');
    }

    lemma NothingMerged()
      requires |bags| == 3 * nbCells && nbCells >= 0
      ensures Merged(0, Snapshot())
    {
    }

    lemma ReadyToMerge(order: seq<Coord>, init: seq<seq<Particle>>, owner: Owner)
      requires Allocated() && Swept(order, init, owner)
      requires forall co :: co in order <==> InGrid(g, co)
      ensures ReBinned(order, init, Snapshot())
    {
      var was := Snapshot();
      hide LogOf, CellOfCoord, CoordOfCell, IdOf, MaskableGrid, NbCells, DepositHolds, Separated;
      assert Holdings(bags) == MultisetsOf(was) && CurContents() == was[..nbCells];
      forall c, p | 0 <= c < nbCells
        ensures multiset(was[c] + was[Next(c, PRIVATE)] + was[Next(c, SHARED)])[p]
             == multiset(LogOf(g, order, init, field, factor))[(c, p)]
      {
        MergedHolds(order, init, was, c, p);
      }
    }

    /** What the merge is about to put into the bag of a cell is what the log sends there. */
    ghost predicate ReBinned(order: seq<Coord>, init: seq<seq<Particle>>, was: seq<seq<Particle>>)
      requires Allocated() && |init| == nbCells && |was| == 3 * nbCells && AllInGrid(g, order)
    {
      forall c, p :: 0 <= c < nbCells ==>
        multiset(was[c] + was[Next(c, PRIVATE)] + was[Next(c, SHARED)])[p]
            == multiset(LogOf(g, order, init, field, factor))[(c, p)]
    }

    lemma MergedStep(order: seq<Coord>, init: seq<seq<Particle>>, was: seq<seq<Particle>>, owner: Owner)
      requires Allocated() && |init| == nbCells && |was| == 3 * nbCells && AllInGrid(g, order)
      requires Separated(owner, -1) && Merged(nbCells, was) && ReBinned(order, init, was)
      requires var log, rowMajor := LogOf(g, order, init, field, factor), LogOf(g, AllCells(g), init, field, factor);
               && multiset(log) == multiset(rowMajor) && InCells(g, rowMajor)
               && forall c :: 0 <= c < nbCells ==>
                    deposit[c] == Gathered(g, log, c, NB_CORNERS) == Scattered(g, rowMajor, c)
      ensures Stepped(init, owner)
    {
      hide LogOf, AllCells, MaskableGrid, NbCells, InCells, Separated, Gathered, Scattered;
    }

    /** The gather writes to nobody's storage. */
    method GatherBeside(ghost log: Log, ghost was: seq<seq<Particle>>, ghost owner: Owner)
      requires Allocated() && |was| == 3 * nbCells && Separated(owner, -1) && Merged(nbCells, was)
               && Reduced(nbCells, log)
      modifies deposit
      ensures Separated(owner, -1) && Merged(nbCells, was)
      ensures forall c :: 0 <= c < nbCells ==> deposit[c] == Gathered(g, log, c, NB_CORNERS)
    {
      hide MaskableGrid, Gathered, CornerSum, NbCells;
      GatherDeposit(log);
      assert forall i :: 0 <= i < |bags| ==> bags[i] in owner;
    }

    /** One step: particles are conserved and re-binned, and the charge is that of scattering each of them. */
    method Step(tid: Coord -> nat, ghost owner: Owner) returns (ghost owner': Owner)
      requires Allocated() && (forall b :: tid(b) < nbThreads) && Separated(owner, -1) && NextsEmpty()
      modifies owner.Keys, depositThreadCorners, depositCorners, deposit
      ensures Stepped(old(CurContents()), owner')
      ensures owner.Keys <= owner'.Keys && fresh(owner'.Keys - owner.Keys)
    {
      hide Separated, NextsEmpty, Swept, Stepped, NoRepeat, InGrid, MaskableGrid, NbCells;
      ghost var init := CurContents();
      ghost var order;
      order, owner' := ClearAndSweep(tid, owner);
      owner' := FinishStep(order, init, owner');
    }

    /** A step loses no particle and creates none. */
    lemma StepConservesParticles(init: seq<seq<Particle>>, owner: Owner)
      requires Allocated() && |init| == nbCells && Stepped(init, owner)
      ensures TotalSize(CurContents()) == TotalSize(init)
    {
      RowMajorSize(g, init, field, factor);
      hide LogOf, AllCells, Separated, MaskableGrid, Scattered, NbCells;
      var log, held := LogOf(g, AllCells(g), init, field, factor), MultisetsOf(CurContents());
      assert HoldsLog(held, log);
      HeldSize(held, log);
      SizesOfMultisets(CurContents());
    }

    /** The charges of all the cells add up to the number of particles. */
    lemma StepConservesCharge(init: seq<seq<Particle>>, owner: Owner)
      requires Allocated() && |init| == nbCells && Stepped(init, owner)
      ensures Sum(deposit[..]) == TotalSize(init) as real
    {
      RowMajorSize(g, init, field, factor);
      hide LogOf, AllCells, Separated, MaskableGrid, Scattered, NbCells;
      var log := LogOf(g, AllCells(g), init, field, factor);
      TotalChargeIsCount(g, log);
      SumIsTotalCharge(g, log, deposit[..], nbCells);
      assert deposit[..][..nbCells] == deposit[..];
    }
  }

  // ----- the structures that a step works on

  /** allocateStructures, with computeConstants' number of cells: a bag made by bag_init everywhere. */
  method AllocateStructures(g: Dims, nbThreads: nat, field: seq<Vect>, factor: Vect)
    returns (pic: Pic, ghost owner: Owner)
    requires Positive(g) && nbThreads >= 1 && |field| == NbCells(g)
    ensures fresh(pic) && pic.g == g && pic.Shaped() && (MaskableGrid(g) ==> pic.Allocated())
    ensures pic.Separated(owner, -1) && pic.NextsEmpty()
    ensures forall c :: 0 <= c < pic.nbCells ==> pic.CurContents()[c] == []
  {
    SomeCell(g);
    var bags: seq<Bag> := [];
    owner := map[];
    for i: nat := 0 to 3 * NbCells(g)
      invariant |bags| == i && Separate(bags, owner, -1) && fresh(owner.Keys)
      invariant forall j :: 0 <= j < i ==> bags[j].Contents() == []
    {
      bags, owner := AddBag(bags, owner);
    }
    pic := new Pic(g, nbThreads, bags, field, factor);
  }

  method AddBag(bags: seq<Bag>, ghost owner: Owner) returns (bags': seq<Bag>, ghost owner': Owner)
    requires Separate(bags, owner, -1) && (forall j :: 0 <= j < |bags| ==> bags[j].Contents() == [])
    ensures |bags'| == |bags| + 1 && Separate(bags', owner', -1)
    ensures owner.Keys <= owner'.Keys && fresh(owner'.Keys - owner.Keys)
    ensures forall j :: 0 <= j < |bags'| ==> bags'[j].Contents() == []
  {
    var b := new Bag();
    bags' := bags + [b];
    owner' := owner + map o | o in b.Repr :: |bags|;
    forall i | 0 <= i < |bags'|
      ensures bags'[i] in owner' && Owned(bags', i, owner') && bags'[i].Repr <= owner'.Keys && Whole(bags'[i])
    {
      if i < |bags| {
        assert old(Owned(bags, i, owner)) && old(Whole(bags[i]));
      }
    }
  }
}
