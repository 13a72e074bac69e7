/**
 The spin loop cannot hang the bag: some call can always move, and the calls that
 have started can only make a bounded number of moves between them.
 */
module ConcurrentBagProgress {
  import opened Mindex
  import opened Particles
  import opened ConcurrentBag
  import opened ConcurrentBagBalance
  import opened ConcurrentBagTheorems

  /** The step of call t leaves the state as it is: it has returned, or spins on the current front. */
  predicate Idle(s: State, t: nat)
    requires t < |s.calls|
  {
    s.calls[t].pc.Done? || s.calls[t].pc == Spin(s.front)
  }

  lemma IdleIff(s: State, t: nat, j: Chunk)
    requires WellFormed(s) && t < |s.calls|
    ensures Idle(s, t) <==> Exec(s, t, j) == s
  {
    if !Idle(s, t) {
      assert Exec(s, t, j).calls[t].pc != s.calls[t].pc;
    }
  }

  /** A call that has not returned can move, or waits for one that can. */
  lemma CallThatMoves(s: State, t: nat) returns (u: nat)
    requires Inv(s) && t < |s.calls| && !s.calls[t].pc.Done?
    ensures u < |s.calls| && !Idle(s, u)
  {
    u := t;
    if s.calls[t].pc == Spin(s.front) {
      u := PublisherOf(s, t);
    }
  }

  /** No deadlock: as long as a call has not returned, some call has a step that changes the state. */
  lemma NoDeadlock(junk: Chunk, events: seq<Event>)
    requires !Quiescent(After(junk, events))
    ensures exists u :: 0 <= u < |After(junk, events).calls| && !Idle(After(junk, events), u)
  {
    var s := After(junk, events);
    var t :| 0 <= t < |s.calls| && !s.calls[t].pc.Done?;
    var u := CallThatMoves(s, t);
  }

  // ----- how many fronts n calls can install

  lemma {:induction false} PushedAtMost(calls: seq<Call>)
    ensures |Pushed(calls)| <= |calls|
  {
    if calls != [] {
      PushedAtMost(calls[..|calls| - 1]);
    }
  }

  lemma {:induction false} FullChunksClaim(calls: seq<Call>, chunks: seq<Chunk>)
    requires AllIdsValid(calls, chunks)
    requires forall c :: 0 <= c < |chunks| ==> |chunks[c].claimed| == CHUNK_SIZE
    ensures |Claimed(calls, chunks)| == CHUNK_SIZE * |chunks|
  {
    if chunks != [] {
      FullChunksClaim(calls, chunks[..|chunks| - 1]);
    }
  }

  lemma {:induction false} ClaimedMonotone(s: State, n: nat)
    requires Balanced(s) && n <= |s.chunks|
    ensures |Claimed(s.calls, s.chunks[..n])| <= |Claimed(s.calls, s.chunks)|
    decreases |s.chunks| - n
  {
    if n < |s.chunks| {
      ClaimedMonotone(s, n + 1);
      assert s.chunks[..n + 1][..n] == s.chunks[..n];
    } else {
      assert s.chunks[..n] == s.chunks;
    }
  }

  lemma FullChunksBounded(s: State, n: nat)
    requires Inv(s) && Balanced(s) && n <= |s.chunks|
    requires forall c :: 0 <= c < n ==> |s.chunks[c].claimed| == CHUNK_SIZE
    ensures CHUNK_SIZE * n <= |s.calls|
  {
    hide Inv, Claimed, Pushed, IdsValid;
    FullChunksClaim(s.calls, s.chunks[..n]);
    ClaimedMonotone(s, n);
    PushedAtMost(s.calls);
  }

  lemma FrontWithinCalls(s: State)
    requires Inv(s) && Balanced(s)
    ensures CHUNK_SIZE * s.front <= |s.calls|
  {
    forall c | 0 <= c < s.front
      ensures |s.chunks[c].claimed| == CHUNK_SIZE
    {
      assert ChunkOk(s, c);
    }
    FullChunksBounded(s, s.front);
  }

  /** n calls install at most n / 256 new fronts. */
  lemma FrontBounded(junk: Chunk, events: seq<Event>)
    ensures CHUNK_SIZE * After(junk, events).front <= |After(junk, events).calls|
  {
    AfterBalanced(junk, events);
    FrontWithinCalls(After(junk, events));
  }

  // ----- a measure that every step that changes the state decreases

  /** How far a call is from returning, when at most `left` more fronts can be installed. */
  function Rank(pc: Pc, front: nat, left: nat): nat {
    match pc
    case ReadFront => 4 * left + 13
    case Increment(c) => 4 * left + (if c == front then 12 else 16)
    case Repair(c) => 4 * left + (if c == front then 11 else 15)
    case Spin(c) => 4 * left + (if c == front then 10 else 14)
    case Store(_, _, k) => if k < FIELDS then 3 + (FIELDS - k) else 0
    case Allocate(_, _) => 3
    case Link(_, _, _) => 2
    case Publish(_, _, _) => 1
    case Done(_, _) => 0
  }

  function TotalRank(calls: seq<Call>, front: nat, left: nat): nat {
    if calls == [] then 0
    else TotalRank(calls[..|calls| - 1], front, left) + Rank(calls[|calls| - 1].pc, front, left)
  }

  function Left(s: State): nat {
    var fronts := |s.calls| / CHUNK_SIZE;
    if s.front <= fronts then fronts - s.front else 0
  }

  function Measure(s: State): nat {
    TotalRank(s.calls, s.front, Left(s))
  }

  lemma {:induction false} TotalRankUpdate(calls: seq<Call>, t: nat, call: Call, front: nat, left: nat)
    requires t < |calls|
    ensures TotalRank(calls[t := call], front, left) + Rank(calls[t].pc, front, left)
         == TotalRank(calls, front, left) + Rank(call.pc, front, left)
  {
    var n := |calls| - 1;
    if t == n {
      assert calls[t := call][..n] == calls[..n];
    } else {
      assert calls[t := call][..n] == calls[..n][t := call];
      TotalRankUpdate(calls[..n], t, call, front, left);
    }
  }

  /** Installing a front uses up one of the fronts left, so it raises nobody's rank. */
  lemma {:induction false} TotalRankAfterPublish(calls: seq<Call>, front: nat, left: nat)
    requires forall t :: 0 <= t < |calls| && !calls[t].pc.ReadFront? && !HasSlot(calls[t].pc) ==> calls[t].pc.c <= front
    ensures TotalRank(calls, front + 1, left) <= TotalRank(calls, front, left + 1)
  {
    if calls != [] {
      TotalRankAfterPublish(calls[..|calls| - 1], front, left);
      var pc := calls[|calls| - 1].pc;
      assert Rank(pc, front + 1, left) <= Rank(pc, front, left + 1);
    }
  }

  lemma PublishDecreasesRank(s: State, t: nat, j: Chunk, fronts: nat)
    requires WellFormed(s) && Inv(s) && t < |s.calls| && s.calls[t].pc.Publish? && Exec(s, t, j).front <= fronts
    ensures Exec(s, t, j).front == s.front + 1
    ensures TotalRank(Exec(s, t, j).calls, s.front + 1, fronts - (s.front + 1))
         < TotalRank(s.calls, s.front, fronts - s.front)
  {
    var s', left := Exec(s, t, j), fronts - (s.front + 1);
    assert CallOk(s, t);
    forall u | 0 <= u < |s.calls| && !s.calls[u].pc.ReadFront? && !HasSlot(s.calls[u].pc)
      ensures s.calls[u].pc.c <= s.front
    {
      assert CallOk(s, u);
    }
    TotalRankAfterPublish(s.calls, s.front, left);
    TotalRankUpdate(s.calls, t, s'.calls[t], s.front + 1, left);
  }

  lemma OtherStepDecreasesRank(s: State, t: nat, j: Chunk, left: nat)
    requires WellFormed(s) && t < |s.calls| && !Idle(s, t) && !s.calls[t].pc.Publish?
    ensures Exec(s, t, j).front == s.front
    ensures Exec(s, t, j).calls == s.calls[t := Exec(s, t, j).calls[t]]
    ensures Rank(Exec(s, t, j).calls[t].pc, s.front, left) < Rank(s.calls[t].pc, s.front, left)
  {
  }

  /** When no more than `fronts` fronts are ever installed, a move brings the calls nearer to returning. */
  lemma MoveDecreasesRank(s: State, t: nat, j: Chunk, fronts: nat)
    requires WellFormed(s) && Inv(s) && t < |s.calls| && !Idle(s, t)
    requires s.front <= fronts && Exec(s, t, j).front <= fronts
    ensures TotalRank(Exec(s, t, j).calls, Exec(s, t, j).front, fronts - Exec(s, t, j).front)
         < TotalRank(s.calls, s.front, fronts - s.front)
  {
    hide Exec, Inv, WellFormed, TotalRank, Rank;
    if s.calls[t].pc.Publish? {
      PublishDecreasesRank(s, t, j, fronts);
    } else {
      OtherStepDecreasesRank(s, t, j, fronts - s.front);
      TotalRankUpdate(s.calls, t, Exec(s, t, j).calls[t], s.front, fronts - s.front);
    }
  }

  lemma MoveDecreasesMeasure(s: State, t: nat, j: Chunk)
    requires WellFormed(s) && Inv(s) && t < |s.calls| && !Idle(s, t)
    requires CHUNK_SIZE * s.front <= |s.calls| && CHUNK_SIZE * Exec(s, t, j).front <= |s.calls|
    ensures Measure(Exec(s, t, j)) < Measure(s)
  {
    assert |Exec(s, t, j).calls| == |s.calls|;
    hide Exec, Inv, WellFormed, TotalRank, Idle;
    MoveDecreasesRank(s, t, j, |s.calls| / CHUNK_SIZE);
  }

  lemma AfterAct(junk: Chunk, events: seq<Event>, t: nat, j: Chunk)
    requires t < |After(junk, events).calls|
    ensures After(junk, events + [Act(t, j)]) == Exec(After(junk, events), t, j)
    ensures |After(junk, events + [Act(t, j)]).calls| == |After(junk, events).calls|
  {
    assert (events + [Act(t, j)])[..|events|] == events;
  }

  /** Every step that changes the state brings the calls nearer to returning. */
  lemma StepDecreasesMeasure(junk: Chunk, events: seq<Event>, t: nat, j: Chunk)
    requires t < |After(junk, events).calls| && !Idle(After(junk, events), t)
    ensures Measure(After(junk, events + [Act(t, j)])) < Measure(After(junk, events))
  {
    AfterAct(junk, events, t, j);
    FrontBounded(junk, events);
    FrontBounded(junk, events + [Act(t, j)]);
    MoveDecreasesMeasure(After(junk, events), t, j);
  }

  // ----- so the pushes of n calls end after a bounded number of effective steps

  /** The number of steps in `acts` that change the state when they are taken from `events` on. */
  function Moves(junk: Chunk, events: seq<Event>, acts: seq<(nat, Chunk)>): nat
    decreases |acts|
  {
    if acts == [] then 0
    else
      var (t, j) := acts[0];
      var s := After(junk, events);
      (if t < |s.calls| && !Idle(s, t) then 1 else 0) + Moves(junk, events + [Act(t, j)], acts[1..])
  }

  /** However the started calls are scheduled from here on, they make at most Measure moves in all. */
  lemma {:induction false} MovesAreBounded(junk: Chunk, events: seq<Event>, acts: seq<(nat, Chunk)>)
    ensures Moves(junk, events, acts) <= Measure(After(junk, events))
    decreases |acts|
  {
    if acts != [] {
      var (t, j) := acts[0];
      var s := After(junk, events);
      var events' := events + [Act(t, j)];
      assert events'[..|events|] == events;
      MovesAreBounded(junk, events', acts[1..]);
      if t < |s.calls| && !Idle(s, t) {
        StepDecreasesMeasure(junk, events, t, j);
      } else if t < |s.calls| {
        IdleIff(s, t, j);
      }
    }
  }

  lemma OneTimesMore(n: int, x: int)
    ensures (n + 1) * x == n * x + x
  {
  }

  lemma {:induction false} TotalRankAtMost(calls: seq<Call>, front: nat, left: nat)
    ensures TotalRank(calls, front, left) <= |calls| * (4 * left + 16)
  {
    if calls != [] {
      TotalRankAtMost(calls[..|calls| - 1], front, left);
      OneTimesMore(|calls| - 1, 4 * left + 16);
    }
  }

  lemma MeasureAtMost(s: State)
    ensures Measure(s) <= |s.calls| * (4 * (|s.calls| / CHUNK_SIZE) + 16)
  {
    hide TotalRank;
    TotalRankAtMost(s.calls, s.front, Left(s));
    MulMonotone(4 * Left(s) + 16, 4 * (|s.calls| / CHUNK_SIZE) + 16, |s.calls|);
  }

  /** In terms of the number of calls alone: n calls make at most n * (4 * (n / 256) + 16) more moves. */
  lemma MovesAreBoundedByCalls(junk: Chunk, events: seq<Event>, acts: seq<(nat, Chunk)>)
    ensures var n := |After(junk, events).calls|;
            Moves(junk, events, acts) <= n * (4 * (n / CHUNK_SIZE) + 16)
  {
    MovesAreBounded(junk, events, acts);
    MeasureAtMost(After(junk, events));
  }
}
