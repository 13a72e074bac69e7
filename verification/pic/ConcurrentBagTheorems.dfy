/** What holds after every interleaving of any number of concurrent pushes. */
module ConcurrentBagTheorems {
  import opened Particles
  import opened ConcurrentBag
  import opened ConcurrentBagBalance

  /** No two calls are given the same slot of the same chunk. */
  lemma SlotsAreExclusive(junk: Chunk, events: seq<Event>, t: nat, u: nat, c: nat, i: nat)
    requires t < |After(junk, events).calls| && u < |After(junk, events).calls|
    requires Owns(After(junk, events).calls[t].pc, c, i) && Owns(After(junk, events).calls[u].pc, c, i)
    ensures t == u
  {
    var s := After(junk, events);
    assert CallOk(s, t) && CallOk(s, u);
  }

  /** At most one call is installing a new front, and it is the one that filled the current front. */
  lemma SinglePublisher(junk: Chunk, events: seq<Event>, t: nat, u: nat)
    requires t < |After(junk, events).calls| && u < |After(junk, events).calls|
    requires Publishing(After(junk, events).calls[t].pc) && Publishing(After(junk, events).calls[u].pc)
    ensures t == u && Owns(After(junk, events).calls[t].pc, After(junk, events).front, CHUNK_SIZE - 1)
  {
    UniquePublisher(After(junk, events), t, u);
  }

  lemma UniquePublisher(s: State, t: nat, u: nat)
    requires Inv(s) && t < |s.calls| && u < |s.calls| && Publishing(s.calls[t].pc) && Publishing(s.calls[u].pc)
    ensures t == u && Owns(s.calls[t].pc, s.front, CHUNK_SIZE - 1)
  {
    assert CallOk(s, t) && CallOk(s, u);
  }

  /** The call has stored all fields of its particle into the slot it was given. */
  ghost predicate Stored(s: State, t: nat, c: nat, i: nat) {
    && t < |s.calls| && Owns(s.calls[t].pc, c, i) && !s.calls[t].pc.Store?
    && c < |s.chunks| && i < |s.chunks[c].slots| && s.chunks[c].slots[i] == s.calls[t].p
  }

  lemma AfterNext(junk: Chunk, events: seq<Event>, e: Event)
    ensures After(junk, events + [e]) == Apply(After(junk, events), e)
  {
    assert (events + [e])[..|events|] == events;
  }

  /** A particle is in its slot, whole, from the moment its last field is stored, and stays there. */
  lemma {:induction false} StoredParticleStays(junk: Chunk, events: seq<Event>, more: seq<Event>, t: nat, c: nat,
                                               i: nat)
    requires t < |After(junk, events).calls|
    requires Owns(After(junk, events).calls[t].pc, c, i) && !After(junk, events).calls[t].pc.Store?
    ensures Stored(After(junk, events + more), t, c, i)
    ensures After(junk, events + more).calls[t].p == After(junk, events).calls[t].p
  {
    if more == [] {
      assert events + more == events;
      SlotIsStored(After(junk, events), t, c, i);
    } else {
      hide After, Apply, Owns;
      var fewer, e := more[..|more| - 1], more[|more| - 1];
      StoredParticleStays(junk, events, fewer, t, c, i);
      assert events + more == events + fewer + [e];
      AfterNext(junk, events + fewer, e);
      StepKeepsOwner(After(junk, events + fewer), e, t, c, i);
      SlotIsStored(After(junk, events + more), t, c, i);
    }
  }

  lemma SlotIsStored(s: State, t: nat, c: nat, i: nat)
    requires Inv(s) && t < |s.calls| && Owns(s.calls[t].pc, c, i) && !s.calls[t].pc.Store?
    ensures Stored(s, t, c, i)
  {
    assert CallOk(s, t);
  }

  lemma StepKeepsOwner(s: State, e: Event, t: nat, c: nat, i: nat)
    requires Inv(s) && WellFormed(s) && t < |s.calls| && Owns(s.calls[t].pc, c, i) && !s.calls[t].pc.Store?
    ensures t < |Apply(s, e).calls| && Owns(Apply(s, e).calls[t].pc, c, i) && !Apply(s, e).calls[t].pc.Store?
    ensures Apply(s, e).calls[t].p == s.calls[t].p
  {
    hide Inv;
  }

  /** A size above the capacity is seen only while the call that caused it is about to repair it. */
  lemma OverfullIsTransient(junk: Chunk, events: seq<Event>, c: nat)
    requires c < |After(junk, events).chunks| && CHUNK_SIZE < After(junk, events).chunks[c].size
    ensures exists t :: 0 <= t < |After(junk, events).calls| && After(junk, events).calls[t].pc == Repair(c)
  {
    assert OverfullOk(After(junk, events), c);
  }

  /** Once a chunk is full, no step makes it look less than full. */
  lemma FullStaysFull(junk: Chunk, events: seq<Event>, e: Event, c: nat)
    requires c < |After(junk, events).chunks| && CHUNK_SIZE <= After(junk, events).chunks[c].size
    ensures c < |After(junk, events + [e]).chunks| && CHUNK_SIZE <= After(junk, events + [e]).chunks[c].size
  {
    var s := After(junk, events);
    assert (events + [e])[..|events|] == events;
    match e
    case Begin(_) =>
    case Act(t, j) => if t < |s.calls| { assert CallOk(s, t) && ChunkOk(s, c); }
  }

  /** A call spinning on the current front waits for a call that owns the last slot and has not published. */
  lemma SpinnerHasPublisher(junk: Chunk, events: seq<Event>, t: nat) returns (u: nat)
    requires t < |After(junk, events).calls| && After(junk, events).calls[t].pc == Spin(After(junk, events).front)
    ensures u < |After(junk, events).calls|
    ensures Owns(After(junk, events).calls[u].pc, After(junk, events).front, CHUNK_SIZE - 1)
    ensures !After(junk, events).calls[u].pc.Done?
  {
    u := PublisherOf(After(junk, events), t);
  }

  lemma PublisherOf(s: State, t: nat) returns (u: nat)
    requires Inv(s) && t < |s.calls| && s.calls[t].pc == Spin(s.front)
    ensures u < |s.calls| && Owns(s.calls[u].pc, s.front, CHUNK_SIZE - 1) && !s.calls[u].pc.Done?
  {
    assert CallOk(s, t) && ChunkOk(s, s.front);
    u := s.chunks[s.front].claimed[CHUNK_SIZE - 1];
    assert CallOk(s, u);
  }

  // ----- the chain

  /** The chunks met by following next from c. */
  function ChainFrom(s: State, c: nat): (chain: seq<nat>)
    requires Inv(s) && c <= s.front
    ensures |chain| == c + 1 && forall k :: 0 <= k <= c ==> chain[k] == c - k
    decreases c
  {
    assert ChunkOk(s, c);
    match s.chunks[c].next
    case None => [c]
    case Some(n) => [c] + ChainFrom(s, n)
  }

  /** The sum that bag_size computes from c on. */
  function SizeFrom(s: State, c: nat): nat
    requires Inv(s) && c <= s.front
    decreases c
  {
    assert ChunkOk(s, c);
    s.chunks[c].size + match s.chunks[c].next case None => 0 case Some(n) => SizeFrom(s, n)
  }

  /** The particles stored from c on, chunk after chunk. */
  function ContentsFrom(s: State, c: nat): seq<Particle>
    requires Inv(s) && c <= s.front
    decreases c
  {
    assert ChunkOk(s, c);
    s.chunks[c].slots[..Min(s.chunks[c].size, CHUNK_SIZE)] +
    match s.chunks[c].next case None => [] case Some(n) => ContentsFrom(s, n)
  }

  /** The chain from the front is acyclic, visits every installed chunk and ends at the back. */
  lemma ChainEndsAtBack(junk: Chunk, events: seq<Event>)
    ensures var s := After(junk, events);
            var chain := ChainFrom(s, s.front);
            && chain[|chain| - 1] == s.back
            && s.chunks[s.back].next == None
            && (forall j, k :: 0 <= j < k < |chain| ==> chain[j] != chain[k])
            && (forall c :: 0 <= c <= s.front ==> c in chain)
  {
    var s := After(junk, events);
    assert ChunkOk(s, s.back);
    var chain := ChainFrom(s, s.front);
    forall c | 0 <= c <= s.front
      ensures c in chain
    {
      assert chain[s.front - c] == c;
    }
  }

  // ----- quiescence

  predicate Quiescent(s: State) {
    forall t :: 0 <= t < |s.calls| ==> s.calls[t].pc.Done?
  }

  function ParticlesPushed(calls: seq<Call>): multiset<Particle> {
    multiset(seq(|calls|, t requires 0 <= t < |calls| => calls[t].p))
  }

  lemma {:induction false} AllPushed(calls: seq<Call>)
    requires forall t :: 0 <= t < |calls| ==> calls[t].pc.Done?
    ensures Pushed(calls) == ParticlesPushed(calls)
  {
    if calls != [] {
      var n := |calls| - 1;
      AllPushed(calls[..n]);
      assert seq(|calls|, t requires 0 <= t < |calls| => calls[t].p) ==
             seq(n, t requires 0 <= t < n => calls[..n][t].p) + [calls[n].p];
    }
  }

  lemma QuiescentChunk(s: State, c: nat)
    requires Inv(s) && Quiescent(s) && c < |s.chunks|
    ensures |s.chunks| == s.front + 1
    ensures s.chunks[c].size <= CHUNK_SIZE == |s.chunks[c].slots| && (s.chunks[c].size == CHUNK_SIZE <==> c < s.front)
    ensures s.chunks[c].next == if c == 0 then None else Some(c - 1)
    ensures IdsValid(s.calls, s.chunks[c].claimed)
    ensures s.chunks[c].slots[..s.chunks[c].size] == ParticlesOf(s.calls, s.chunks[c].claimed)
  {
    var chunk := s.chunks[c];
    assert ChunkOk(s, c) && OverfullOk(s, c) && ChunkOk(s, s.front);
    forall i | 0 <= i < |chunk.claimed|
      ensures chunk.slots[i] == ParticlesOf(s.calls, chunk.claimed)[i]
    {
      assert Owns(s.calls[chunk.claimed[i]].pc, c, i);
      assert CallOk(s, chunk.claimed[i]);
    }
    if chunk.size == CHUNK_SIZE {
      assert CallOk(s, chunk.claimed[CHUNK_SIZE - 1]);
    }
  }

  lemma QuiescentStep(s: State, c: nat)
    requires Inv(s) && Quiescent(s) && c <= s.front < |s.chunks|
    ensures IdsValid(s.calls, s.chunks[c].claimed)
    ensures ContentsFrom(s, c)
         == ParticlesOf(s.calls, s.chunks[c].claimed) + (if c == 0 then [] else ContentsFrom(s, c - 1))
    ensures SizeFrom(s, c) == |s.chunks[c].claimed| + (if c == 0 then 0 else SizeFrom(s, c - 1))
  {
    assert ChunkOk(s, c);
    QuiescentChunk(s, c);
  }

  lemma {:induction false} QuiescentContents(s: State, c: nat)
    requires Inv(s) && Balanced(s) && Quiescent(s) && c <= s.front < |s.chunks|
    ensures multiset(ContentsFrom(s, c)) == Claimed(s.calls, s.chunks[..c + 1])
    ensures SizeFrom(s, c) == |ContentsFrom(s, c)|
    decreases c
  {
    hide Inv, Quiescent, ContentsFrom, SizeFrom, ParticlesOf, Claimed, IdsValid;
    QuiescentStep(s, c);
    ClaimedNext(s.calls, s.chunks, c);
    if c > 0 {
      QuiescentContents(s, c - 1);
    }
    Together(ContentsFrom(s, c), ParticlesOf(s.calls, s.chunks[c].claimed),
             if c == 0 then [] else ContentsFrom(s, c - 1),
             Claimed(s.calls, s.chunks[..c + 1]), Claimed(s.calls, s.chunks[..c]));
  }

  lemma ClaimedNext(calls: seq<Call>, chunks: seq<Chunk>, c: nat)
    requires AllIdsValid(calls, chunks) && c < |chunks|
    ensures c == 0 ==> Claimed(calls, chunks[..c]) == multiset{}
    ensures Claimed(calls, chunks[..c + 1])
            == Claimed(calls, chunks[..c]) + multiset(ParticlesOf(calls, chunks[c].claimed))
  {
    assert chunks[..c + 1][..c] == chunks[..c] && chunks[..c + 1][c] == chunks[c];
  }

  lemma Together<T>(a: seq<T>, ps: seq<T>, rest: seq<T>, claimed: multiset<T>, before: multiset<T>)
    requires a == ps + rest && claimed == before + multiset(ps) && before == multiset(rest)
    ensures multiset(a) == claimed
  {
  }

  lemma QuiescentState(s: State)
    requires Inv(s) && Balanced(s) && Quiescent(s)
    ensures multiset(ContentsFrom(s, s.front)) == ParticlesPushed(s.calls)
    ensures SizeFrom(s, s.front) == |s.calls|
    ensures forall c :: 0 <= c < |s.chunks| ==>
              if c == s.front then s.chunks[c].size < CHUNK_SIZE else s.chunks[c].size == CHUNK_SIZE
  {
    assert s.front < |s.chunks|;
    hide Inv;
    AllPushed(s.calls);
    QuiescentContents(s, s.front);
    forall c | 0 <= c < |s.chunks|
      ensures if c == s.front then s.chunks[c].size < CHUNK_SIZE else s.chunks[c].size == CHUNK_SIZE
    {
      QuiescentChunk(s, c);
    }
    QuiescentChunk(s, s.front);
    assert s.chunks[..s.front + 1] == s.chunks;
    assert |multiset(ContentsFrom(s, s.front))| == |ContentsFrom(s, s.front)|;
  }

  /** Once every call has returned, the bag holds exactly the particles pushed, each once. */
  lemma QuiescentBag(junk: Chunk, events: seq<Event>)
    requires Quiescent(After(junk, events))
    ensures var s := After(junk, events);
            && multiset(ContentsFrom(s, s.front)) == ParticlesPushed(s.calls)
            && SizeFrom(s, s.front) == |s.calls|
            && (forall c :: 0 <= c < |s.chunks| ==>
                  if c == s.front then s.chunks[c].size < CHUNK_SIZE else s.chunks[c].size == CHUNK_SIZE)
  {
    AfterBalanced(junk, events);
    QuiescentState(After(junk, events));
  }
}
