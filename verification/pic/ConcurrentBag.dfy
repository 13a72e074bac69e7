/**
 Any number of calls to the concurrent push, interleaved step by step over one
 shared bag. A step makes at most one access to shared memory; accesses to a
 chunk that no other call can reach yet are merged with their neighbour.
 Memory is sequentially consistent.

 A chunk is named by its rank in allocation order. The field `claimed` and the
 slot kept by a call after it has stored its particle are history variables:
 no step reads them.
 */
module ConcurrentBag {
  import opened Particles

  datatype Chunk = Chunk(next: Option<nat>, size: nat, slots: seq<Particle>, claimed: seq<nat>)

  /** Where a call stands in the body of the push. */
  datatype Pc =
    | ReadFront                              // about to load the front pointer
    | Increment(c: nat)                      // about to fetch-and-add the size of c
    | Store(c: nat, i: nat, k: nat)          // about to store field k into slot i of c
    | Allocate(c: nat, i: nat)               // filled the last slot, about to allocate
    | Link(c: nat, i: nat, node: nat)       // about to read front into node.next
    | Publish(c: nat, i: nat, node: nat)    // about to store node into front
    | Repair(c: nat)                         // about to store CHUNK_SIZE into the size of c
    | Spin(c: nat)                           // about to compare front with c
    | Done(c: nat, i: nat)                   // returned

  datatype Call = Call(p: Particle, pc: Pc)

  datatype State = State(chunks: seq<Chunk>, front: nat, back: nat, calls: seq<Call>)

  /** A new call starts, or call `t` takes its next step (`junk` is what malloc returns). */
  datatype Event = Begin(p: Particle) | Act(t: nat, junk: Chunk)

  /** The call has been given slot i of chunk c. */
  predicate Owns(pc: Pc, c: nat, i: nat) {
    (pc.Store? || pc.Allocate? || pc.Link? || pc.Publish? || pc.Done?) && pc.c == c && pc.i == i
  }

  predicate HasSlot(pc: Pc) {
    pc.Store? || pc.Allocate? || pc.Link? || pc.Publish? || pc.Done?
  }

  /** The call is between filling the last slot of a chunk and installing a new front. */
  predicate Publishing(pc: Pc) {
    pc.Allocate? || pc.Link? || pc.Publish?
  }

  predicate WellFormed(s: State) {
    && s.front < |s.chunks|
    && (forall c :: 0 <= c < |s.chunks| ==> |s.chunks[c].slots| == CHUNK_SIZE)
    && (forall t :: 0 <= t < |s.calls| ==>
          var pc := s.calls[t].pc;
          && (!pc.ReadFront? ==> pc.c < |s.chunks|)
          && (HasSlot(pc) ==> pc.i < CHUNK_SIZE)
          && (pc.Store? ==> pc.k < FIELDS)
          && (pc.Link? || pc.Publish? ==> pc.node < |s.chunks|))
  }

  /** The bag that bag_init leaves: one empty chunk; its slots hold whatever malloc returned. */
  function Initial(junk: Chunk): State {
    State([Chunk(None, 0, FreshSlots(junk), [])], 0, 0, [])
  }

  function FreshSlots(junk: Chunk): (slots: seq<Particle>)
    ensures |slots| == CHUNK_SIZE
  {
    if |junk.slots| == CHUNK_SIZE then junk.slots
    else seq(CHUNK_SIZE, _ => Particle(0.0, 0.0, 0.0, 0.0, 0.0, 0.0))
  }

  function SetPc(s: State, t: nat, pc: Pc): State
    requires t < |s.calls|
  {
    s.(calls := s.calls[t := s.calls[t].(pc := pc)])
  }

  function SetChunk(s: State, c: nat, chunk: Chunk): State
    requires c < |s.chunks|
  {
    s.(chunks := s.chunks[c := chunk])
  }

  /** One step of call `t`. */
  function Exec(s: State, t: nat, junk: Chunk): State
    requires WellFormed(s) && t < |s.calls|
  {
    var p := s.calls[t].p;
    match s.calls[t].pc
    case ReadFront =>
      SetPc(s, t, Increment(s.front))
    case Increment(c) =>
      var chunk := s.chunks[c];
      var index := chunk.size;
      if index < CHUNK_SIZE then
        SetPc(SetChunk(s, c, chunk.(size := index + 1, claimed := chunk.claimed + [t])), t, Store(c, index, 0))
      else
        SetPc(SetChunk(s, c, chunk.(size := index + 1)), t, Repair(c))
    case Store(c, i, k) =>
      var chunk := s.chunks[c];
      SetPc(SetChunk(s, c, chunk.(slots := chunk.slots[i := StoreField(chunk.slots[i], p, k)])), t,
            if k + 1 < FIELDS then Store(c, i, k + 1)
            else if i == CHUNK_SIZE - 1 then Allocate(c, i)
            else Done(c, i))
    case Allocate(c, i) =>
      SetPc(s.(chunks := s.chunks + [Chunk(junk.next, 0, FreshSlots(junk), [])]), t, Link(c, i, |s.chunks|))
    case Link(c, i, node) =>
      SetPc(SetChunk(s, node, s.chunks[node].(next := Some(s.front))), t, Publish(c, i, node))
    case Publish(c, i, node) =>
      SetPc(s.(front := node), t, Done(c, i))
    case Repair(c) =>
      SetPc(SetChunk(s, c, s.chunks[c].(size := CHUNK_SIZE)), t, Spin(c))
    case Spin(c) =>
      if s.front == c then s else SetPc(s, t, ReadFront)
    case Done(_, _) => s
  }

  function Apply(s: State, e: Event): State
    requires WellFormed(s)
  {
    match e
    case Begin(p) => s.(calls := s.calls + [Call(p, ReadFront)])
    case Act(t, junk) => if t < |s.calls| then Exec(s, t, junk) else s
  }

  // ----- the invariant

  function Min(a: nat, b: nat): nat { if a <= b then a else b }

  /** What is known of chunk c. */
  ghost predicate ChunkOk(s: State, c: nat)
    requires c < |s.chunks|
  {
    var chunk := s.chunks[c];
    && |chunk.slots| == CHUNK_SIZE
    && |chunk.claimed| == Min(chunk.size, CHUNK_SIZE)
    && (c <= s.front ==> chunk.next == if c == 0 then None else Some(c - 1))
    && (c < s.front ==> CHUNK_SIZE <= chunk.size)
    && (s.front < c ==> chunk.size == 0)
    && (forall i :: 0 <= i < |chunk.claimed| ==>
          chunk.claimed[i] < |s.calls| && Owns(s.calls[chunk.claimed[i]].pc, c, i))
  }

  /** What is known of call t. */
  ghost predicate CallOk(s: State, t: nat)
    requires t < |s.calls|
  {
    var p, pc := s.calls[t].p, s.calls[t].pc;
    && (pc.Increment? ==> pc.c <= s.front)
    && (pc.Repair? || pc.Spin? ==> pc.c <= s.front && pc.c < |s.chunks| && CHUNK_SIZE <= s.chunks[pc.c].size)
    && (HasSlot(pc) ==>
          && pc.c <= s.front && pc.c < |s.chunks|
          && pc.i < |s.chunks[pc.c].claimed|
          && s.chunks[pc.c].claimed[pc.i] == t
          && pc.i < CHUNK_SIZE == |s.chunks[pc.c].slots|
          && (pc.i == CHUNK_SIZE - 1 ==> (pc.Done? <==> pc.c < s.front)))
    && (pc.Store? ==> pc.k < FIELDS && Agree(s.chunks[pc.c].slots[pc.i], p, pc.k))
    && (HasSlot(pc) && !pc.Store? ==> s.chunks[pc.c].slots[pc.i] == p)
    && (Publishing(pc) ==> pc.i == CHUNK_SIZE - 1)
    && (pc.Allocate? ==> |s.chunks| == s.front + 1)
    && (pc.Link? || pc.Publish? ==> pc.node == s.front + 1 < |s.chunks|)
    && (pc.Publish? ==> s.chunks[pc.node].next == Some(s.front))
  }

  /** An over-full size is only ever seen while the call that over-filled it has not repaired it. */
  ghost predicate OverfullOk(s: State, c: nat)
    requires c < |s.chunks|
  {
    CHUNK_SIZE < s.chunks[c].size ==> exists t :: 0 <= t < |s.calls| && s.calls[t].pc == Repair(c)
  }

  /** A chunk allocated but not yet installed belongs to the call that filled the front. */
  ghost predicate FreshOk(s: State)
    requires s.front < |s.chunks|
  {
    && |s.chunks| <= s.front + 2
    && (|s.chunks| == s.front + 2 ==>
          var claimed := s.chunks[s.front].claimed;
          && |claimed| == CHUNK_SIZE
          && claimed[CHUNK_SIZE - 1] < |s.calls|
          && var pc := s.calls[claimed[CHUNK_SIZE - 1]].pc;
             pc.Link? || pc.Publish?)
  }

  ghost predicate Inv(s: State) {
    && s.back == 0
    && s.front < |s.chunks|
    && FreshOk(s)
    && (forall c :: 0 <= c < |s.chunks| ==> ChunkOk(s, c))
    && (forall c :: 0 <= c < |s.chunks| ==> OverfullOk(s, c))
    && (forall t :: 0 <= t < |s.calls| ==> CallOk(s, t))
  }

  lemma InvWellFormed(s: State)
    requires Inv(s)
    ensures WellFormed(s)
  {
    forall c | 0 <= c < |s.chunks|
      ensures |s.chunks[c].slots| == CHUNK_SIZE
    {
      assert ChunkOk(s, c);
    }
    forall t | 0 <= t < |s.calls|
      ensures var pc := s.calls[t].pc;
              && (!pc.ReadFront? ==> pc.c < |s.chunks|)
              && (HasSlot(pc) ==> pc.i < CHUNK_SIZE)
              && (pc.Store? ==> pc.k < FIELDS)
              && (pc.Link? || pc.Publish? ==> pc.node < |s.chunks|)
    {
      assert CallOk(s, t);
    }
  }

  // ----- every step keeps the invariant

  lemma IncrementKeepsChunk(s: State, t: nat, junk: Chunk, d: nat)
    requires WellFormed(s) && t < |s.calls| && s.calls[t].pc.Increment?
    requires CallOk(s, t) && d < |s.chunks| && ChunkOk(s, d)
    ensures ChunkOk(Exec(s, t, junk), d)
  {
  }

  lemma StoreKeepsChunk(s: State, t: nat, junk: Chunk, d: nat)
    requires WellFormed(s) && t < |s.calls| && s.calls[t].pc.Store?
    requires CallOk(s, t) && d < |s.chunks| && ChunkOk(s, d)
    ensures ChunkOk(Exec(s, t, junk), d)
  {
  }

  lemma OtherKeepsChunk(s: State, t: nat, junk: Chunk, d: nat)
    requires WellFormed(s) && t < |s.calls| && !s.calls[t].pc.Increment? && !s.calls[t].pc.Store?
    requires CallOk(s, t) && FreshOk(s) && ChunkOk(s, s.front) && d < |s.chunks| && ChunkOk(s, d)
    ensures ChunkOk(Exec(s, t, junk), d)
  {
    match s.calls[t].pc
    case Allocate(_, _) =>
    case Link(_, _, _) =>
    case Publish(_, _, _) =>
    case Repair(_) =>
    case _ =>
  }

  lemma ChunkStaysOk(s: State, t: nat, junk: Chunk, d: nat)
    requires WellFormed(s) && t < |s.calls| && CallOk(s, t) && FreshOk(s) && ChunkOk(s, s.front)
    requires d < |s.chunks| && ChunkOk(s, d)
    ensures ChunkOk(Exec(s, t, junk), d)
  {
    hide CallOk, FreshOk, ChunkOk;
    match s.calls[t].pc
    case Increment(_) => IncrementKeepsChunk(s, t, junk, d);
    case Store(_, _, _) => StoreKeepsChunk(s, t, junk, d);
    case _ => OtherKeepsChunk(s, t, junk, d);
  }

  lemma OverfullStaysOk(s: State, t: nat, junk: Chunk, d: nat)
    requires WellFormed(s) && t < |s.calls|
    requires d < |Exec(s, t, junk).chunks| && (d < |s.chunks| ==> OverfullOk(s, d))
    ensures OverfullOk(Exec(s, t, junk), d)
  {
    var s' := Exec(s, t, junk);
    if d < |s.chunks| && CHUNK_SIZE < s'.chunks[d].size {
      if s.calls[t].pc == Increment(d) {
        assert s'.calls[t].pc == Repair(d);
      } else {
        var u :| 0 <= u < |s.calls| && s.calls[u].pc == Repair(d);
        assert s'.calls[u].pc == Repair(d);
      }
    }
  }

  lemma IncrementKeepsCall(s: State, t: nat, junk: Chunk, u: nat)
    requires WellFormed(s) && t < |s.calls| && u < |s.calls| && s.calls[t].pc.Increment?
    requires CallOk(s, t) && CallOk(s, u) && ChunkOk(s, s.calls[t].pc.c)
    ensures CallOk(Exec(s, t, junk), u)
  {
  }

  lemma StoreKeepsCall(s: State, t: nat, junk: Chunk, u: nat)
    requires WellFormed(s) && t < |s.calls| && u < |s.calls| && s.calls[t].pc.Store?
    requires CallOk(s, t) && CallOk(s, u) && ChunkOk(s, s.calls[t].pc.c) && FreshOk(s)
    ensures CallOk(Exec(s, t, junk), u)
  {
  }

  lemma AllocateKeepsCall(s: State, t: nat, junk: Chunk, u: nat)
    requires WellFormed(s) && t < |s.calls| && u < |s.calls| && s.calls[t].pc.Allocate?
    requires CallOk(s, t) && CallOk(s, u) && ChunkOk(s, s.front)
    ensures CallOk(Exec(s, t, junk), u)
  {
  }

  lemma LinkKeepsCall(s: State, t: nat, junk: Chunk, u: nat)
    requires WellFormed(s) && t < |s.calls| && u < |s.calls| && s.calls[t].pc.Link?
    requires CallOk(s, t) && CallOk(s, u) && ChunkOk(s, s.front)
    ensures CallOk(Exec(s, t, junk), u)
  {
  }

  lemma PublishKeepsCall(s: State, t: nat, junk: Chunk, u: nat)
    requires WellFormed(s) && t < |s.calls| && u < |s.calls| && s.calls[t].pc.Publish?
    requires CallOk(s, t) && CallOk(s, u) && s.front + 1 < |s.chunks| && ChunkOk(s, s.front) && ChunkOk(s, s.front + 1)
    ensures CallOk(Exec(s, t, junk), u)
  {
  }

  lemma RepairKeepsCall(s: State, t: nat, junk: Chunk, u: nat)
    requires WellFormed(s) && t < |s.calls| && u < |s.calls| && s.calls[t].pc.Repair?
    requires CallOk(s, t) && CallOk(s, u) && ChunkOk(s, s.calls[t].pc.c)
    ensures CallOk(Exec(s, t, junk), u)
  {
  }

  lemma CallStaysOk(s: State, t: nat, junk: Chunk, u: nat)
    requires Inv(s) && WellFormed(s) && t < |s.calls| && u < |s.calls|
    ensures CallOk(Exec(s, t, junk), u)
  {
    assert CallOk(s, t) && CallOk(s, u) && ChunkOk(s, s.front);
    match s.calls[t].pc
    case Increment(c) => assert ChunkOk(s, c); IncrementKeepsCall(s, t, junk, u);
    case Store(c, _, _) => assert ChunkOk(s, c); StoreKeepsCall(s, t, junk, u);
    case Allocate(_, _) => AllocateKeepsCall(s, t, junk, u);
    case Link(_, _, _) => LinkKeepsCall(s, t, junk, u);
    case Publish(_, _, node) => assert ChunkOk(s, node); PublishKeepsCall(s, t, junk, u);
    case Repair(c) => assert ChunkOk(s, c); RepairKeepsCall(s, t, junk, u);
    case _ =>
  }

  lemma FreshStaysOk(s: State, t: nat, junk: Chunk)
    requires Inv(s) && WellFormed(s) && t < |s.calls|
    ensures FreshOk(Exec(s, t, junk))
  {
    assert CallOk(s, t) && ChunkOk(s, s.front);
  }

  lemma ApplyKeepsInv(s: State, e: Event)
    requires Inv(s) && WellFormed(s)
    ensures Inv(Apply(s, e))
  {
    var s' := Apply(s, e);
    match e
    case Act(t, junk) =>
      if t < |s.calls| {
        FreshStaysOk(s, t, junk);
        assert CallOk(s, t) && ChunkOk(s, s.front);
        forall d | 0 <= d < |s'.chunks|
          ensures ChunkOk(s', d) && OverfullOk(s', d)
        {
          if d < |s.chunks| {
            assert ChunkOk(s, d) && OverfullOk(s, d);
            ChunkStaysOk(s, t, junk, d);
          }
          OverfullStaysOk(s, t, junk, d);
        }
        forall u | 0 <= u < |s'.calls|
          ensures CallOk(s', u)
        {
          CallStaysOk(s, t, junk, u);
        }
      }
    case Begin(_) =>
      forall d | 0 <= d < |s'.chunks|
        ensures ChunkOk(s', d) && OverfullOk(s', d)
      {
        assert ChunkOk(s, d) && OverfullOk(s, d);
        if CHUNK_SIZE < s'.chunks[d].size {
          var u :| 0 <= u < |s.calls| && s.calls[u].pc == Repair(d);
          assert s'.calls[u].pc == Repair(d);
        }
      }
      forall u | 0 <= u < |s'.calls|
        ensures CallOk(s', u)
      {
        if u < |s.calls| { assert CallOk(s, u); }
      }
  }

  /** The state after any interleaving of any calls, starting from a bag made by bag_init. */
  function After(junk: Chunk, events: seq<Event>): (s: State)
    ensures WellFormed(s) && Inv(s)
  {
    if events == [] then
      Initial(junk)
    else
      var before := After(junk, events[..|events| - 1]);
      ApplyKeepsInv(before, events[|events| - 1]);
      InvWellFormed(Apply(before, events[|events| - 1]));
      Apply(before, events[|events| - 1])
  }
}
