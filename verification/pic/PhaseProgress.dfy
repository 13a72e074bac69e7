/**
 A phase ends. Its blocks make a bounded number of steps that change the state, however they are
 interleaved, and a schedule that gives every block a turn often enough brings all of them to their end.
 */
module PhaseProgress {
  import opened Particles
  import opened Mindex
  import opened ColourPhase
  import opened ConcurrentBagBalance
  import opened ConcurrentBagTheorems
  import C = ConcurrentBag
  import P = ConcurrentBagProgress
  import S = SerialPush

  // ----- sums

  function Sum(xs: seq<nat>): nat {
    if xs == [] then 0 else Sum(xs[..|xs| - 1]) + xs[|xs| - 1]
  }

  lemma {:induction false} SumUpdate(xs: seq<nat>, i: nat, x: nat)
    requires i < |xs|
    ensures Sum(xs[i := x]) + xs[i] == Sum(xs) + x
  {
    var n := |xs| - 1;
    if i == n {
      assert xs[i := x][..n] == xs[..n];
    } else {
      assert xs[i := x][..n] == xs[..n][i := x];
      SumUpdate(xs[..n], i, x);
    }
  }

  lemma {:induction false} SumAtMost(xs: seq<nat>, ys: seq<nat>)
    requires |xs| == |ys| && forall i :: 0 <= i < |xs| ==> xs[i] <= ys[i]
    ensures Sum(xs) <= Sum(ys)
  {
    if xs != [] {
      SumAtMost(xs[..|xs| - 1], ys[..|ys| - 1]);
    }
  }

  lemma Distribute(a: int, b: int, k: int)
    ensures (a + b) * k == a * k + b * k
  {
  }

  lemma {:induction false} SumTimes(xs: seq<nat>, ys: seq<nat>, k: nat)
    requires |xs| == |ys| && forall i :: 0 <= i < |xs| ==> ys[i] == xs[i] * k
    ensures Sum(ys) == Sum(xs) * k
  {
    if xs != [] {
      var n := |xs| - 1;
      SumTimes(xs[..n], ys[..n], k);
      Distribute(Sum(xs[..n]), xs[n], k);
    }
  }

  // ----- how far a block is from its end

  /** How many steps a serial push still makes, at most. */
  function SerialRank(pc: S.Pc): nat {
    match pc
    case LoadFront => FIELDS + 7
    case LoadIndex(_) => FIELDS + 6
    case LoadSize(_, _) => FIELDS + 5
    case StoreSize(_, _, _) => FIELDS + 4
    case StoreItem(_, _, k) => if k < FIELDS then FIELDS - k + 3 else 3
    case NewChunk => 3
    case Link(_) => 2
    case Install(_) => 1
    case Returned => 0
  }

  lemma SerialStepDecreasesRank(s: S.Chain, pc: S.Pc, p: Particle, junk: seq<Particle>)
    requires S.InBounds(s, pc) && !pc.Returned?
    ensures SerialRank(S.Exec(s, pc, p, junk).1) < SerialRank(pc)
  {
  }

  predicate Within(work: seq<Push>, at: Progress) {
    at.next <= |work| && (at.doing != Idle ==> at.next < |work|)
  }

  /** The steps that a block still makes, without those of the call it awaits; a push not begun counts as `cost`. */
  function BlockRank(work: seq<Push>, at: Progress, cost: nat): (rank: nat)
    requires Within(work, at)
  {
    var todo := |work| - at.next - if at.doing == Idle then 0 else 1;
    MulNonNegative(todo, cost);
    todo * cost +
    match at.doing
    case Idle => 0
    case Serial(pc) => SerialRank(pc) + 1
    case Calling(_) => 1
  }

  function BlockRanks(works: Works, at: seq<Progress>, cost: nat): (ranks: seq<nat>)
    requires |at| == |works| && forall w :: 0 <= w < |works| ==> Within(works[w], at[w])
    ensures |ranks| == |works|
    ensures forall w :: 0 <= w < |works| ==> ranks[w] == BlockRank(works[w], at[w], cost)
  {
    seq(|works|, w requires 0 <= w < |works| => BlockRank(works[w], at[w], cost))
  }

  /** How far the calls on a bag are from returning, when its front never goes beyond `fronts`. */
  function BagRank(b: C.State, fronts: nat): nat {
    if b.front <= fronts then P.TotalRank(b.calls, b.front, fronts - b.front) else 0
  }

  function BagRanks(shared: seq<C.State>, fronts: seq<nat>): (ranks: seq<nat>)
    requires |fronts| == |shared|
    ensures |ranks| == |shared| && forall d :: 0 <= d < |shared| ==> ranks[d] == BagRank(shared[d], fronts[d])
  {
    seq(|shared|, d requires 0 <= d < |shared| => BagRank(shared[d], fronts[d]))
  }

  lemma TypedWithin(works: Works, s: State)
    requires Typed(works, s)
    ensures |s.at| == |works| && forall w :: 0 <= w < |works| ==> Within(works[w], s.at[w])
  {
    forall w | 0 <= w < |works|
      ensures Within(works[w], s.at[w])
    {
      assert WorkerOk(works, s, w);
    }
  }

  function Measure(works: Works, s: State, fronts: seq<nat>, cost: nat): nat
    requires Typed(works, s) && |fronts| == |s.shared|
  {
    TypedWithin(works, s);
    Sum(BlockRanks(works, s.at, cost)) + Sum(BagRanks(s.shared, fronts))
  }

  // ----- how many fronts the bags can install

  function TotalPushes(works: Works): nat { Sum(Lengths(works)) }

  /** With n pushes to come, a bag installs at most this many fronts. */
  function FrontsFor(n: nat): nat { n / CHUNK_SIZE + 1 }

  /** What begins a concurrent push, its steps and its end cost, at most. */
  function CostOf(n: nat): nat { 4 * FrontsFor(n) + 15 }

  function Limits(works: Works, b: Bags): (fronts: seq<nat>)
    ensures |fronts| == |b.shared|
    ensures forall d :: 0 <= d < |fronts| ==> fronts[d] == b.shared[d].front + FrontsFor(TotalPushes(works))
  {
    seq(|b.shared|, d requires 0 <= d < |b.shared| => b.shared[d].front + FrontsFor(TotalPushes(works)))
  }

  /** The calls on a bag of cell d are those that were there and at most the pushes begun. */
  ghost predicate Paced(works: Works, s: State, b: Bags) {
    && Typed(works, s) && |s.shared| == |b.shared| && Counts(works, Begun(s.at))
    && forall d :: 0 <= d < |s.shared| ==>
         && Balanced(s.shared[d]) && b.shared[d].front <= s.shared[d].front
         && |s.shared[d].calls| <= |b.shared[d].calls| + Sum(Begun(s.at))
  }

  lemma {:induction false} SizeAtMost(s: C.State, c: nat)
    requires C.Inv(s) && Balanced(s) && Quiescent(s) && c <= s.front < |s.chunks|
    ensures SizeFrom(s, c) <= CHUNK_SIZE * c + s.chunks[c].size
  {
    assert C.ChunkOk(s, c);
    if c > 0 {
      QuiescentState(s);
      SizeAtMost(s, c - 1);
    }
  }

  /** In a bag at rest only the front chunk has room. */
  lemma RestingCalls(s: C.State)
    requires C.Inv(s) && Balanced(s) && Quiescent(s)
    ensures |s.calls| < CHUNK_SIZE * (s.front + 1)
  {
    QuiescentState(s);
    SizeAtMost(s, s.front);
  }

  lemma FrontsDivide(front: nat, front0: nat, calls: nat, calls0: nat, n: nat)
    requires CHUNK_SIZE * front <= calls <= calls0 + n && calls0 < CHUNK_SIZE * (front0 + 1)
    ensures front <= front0 + FrontsFor(n)
  {
  }

  lemma FrontsWithin(works: Works, s: State, b: Bags, d: nat)
    requires Settled(b) && Paced(works, s, b) && d < |s.shared|
    ensures b.shared[d].front <= s.shared[d].front <= Limits(works, b)[d]
  {
    hide C.Inv, Balanced, Quiescent;
    RestingCalls(b.shared[d]);
    P.FrontWithinCalls(s.shared[d]);
    SumAtMost(Begun(s.at), Lengths(works));
    FrontsDivide(s.shared[d].front, b.shared[d].front, |s.shared[d].calls|, |b.shared[d].calls|, TotalPushes(works));
  }

  // ----- a step keeps the pace

  lemma ExecKeepsFront(s: C.State, e: C.Event)
    requires C.Inv(s) && C.WellFormed(s)
    ensures s.front <= C.Apply(s, e).front
  {
    if e.Act? && e.t < |s.calls| {
      assert C.CallOk(s, e.t);
    }
  }

  /** What a step does to one of the SHARED bags: nothing, or a new call, or a step of a call. */
  ghost predicate BagSteps(b: C.State, b': C.State, began: bool) {
    && Balanced(b') && b.front <= b'.front
    && (b' == b || |b'.calls| <= |b.calls| + if began then 1 else 0)
  }

  lemma ApplySteps(b: C.State, e: C.Event)
    requires C.Inv(b) && C.WellFormed(b) && Balanced(b)
    ensures BagSteps(b, C.Apply(b, e), e.Begin?)
  {
    hide C.Inv, C.Apply, Balanced;
    SharedStaysOk(b, e);
    ExecKeepsFront(b, e);
    ApplyKeepsBalance(b, e);
  }

  /** A bag after a step of a block is as before, or has one more call, or a call in it has made a step. */
  lemma BagAfterStep(works: Works, s: State, turn: Turn, d: nat)
    requires Typed(works, s) && d < |s.shared| && turn.w < |works| && s.at[turn.w].next < |works[turn.w]|
    ensures |Step(works, s, turn).shared| == |s.shared|
    ensures var b, b', at := s.shared[d], Step(works, s, turn).shared[d], s.at[turn.w];
            || b' == b
            || (at.doing.Idle? && b' == C.Apply(b, C.Begin(works[turn.w][at.next].p)))
            || (at.doing.Calling? && b' == C.Apply(b, C.Act(at.doing.t, turn.chunk)))
  {
    assert WorkerOk(works, s, turn.w);
    hide C.Inv, C.WellFormed, C.Apply, S.InBounds, S.Exec;
  }

  lemma BagsStep(works: Works, s: State, turn: Turn, d: nat)
    requires Typed(works, s) && d < |s.shared| && Balanced(s.shared[d])
    requires turn.w < |works| && s.at[turn.w].next < |works[turn.w]|
    ensures |Step(works, s, turn).shared| == |s.shared|
    ensures BagSteps(s.shared[d], Step(works, s, turn).shared[d], s.at[turn.w].doing.Idle?)
  {
    var b, at := s.shared[d], s.at[turn.w];
    hide C.Inv, C.WellFormed, C.Apply, S.InBounds, Balanced, Step;
    BagAfterStep(works, s, turn, d);
    ApplySteps(b, C.Begin(works[turn.w][at.next].p));
    if at.doing.Calling? {
      ApplySteps(b, C.Act(at.doing.t, turn.chunk));
    }
  }

  lemma BegunMoved(at: seq<Progress>, at': seq<Progress>, w: nat)
    requires w < |at| == |at'| && at' == at[w := at'[w]] && (at[w].doing.Idle? ==> !at'[w].doing.Idle?)
    requires at'[w].next == at[w].next + if at'[w].doing.Idle? then 1 else 0
    ensures Sum(Begun(at')) == Sum(Begun(at)) + if at[w].doing.Idle? then 1 else 0
  {
    if at[w].doing.Idle? {
      BeginCounts(at, w, at'[w].doing);
      SumUpdate(Begun(at), w, Begun(at)[w] + 1);
    } else if at'[w].doing.Idle? {
      EndCounts(at, w);
    } else {
      SameCounts(at, w, at'[w].doing);
    }
  }

  lemma BegunStep(works: Works, s: State, turn: Turn)
    requires Typed(works, s) && turn.w < |works| && s.at[turn.w].next < |works[turn.w]|
    ensures Sum(Begun(Step(works, s, turn).at)) == Sum(Begun(s.at)) + if s.at[turn.w].doing.Idle? then 1 else 0
  {
    hide Step, Typed, Sum;
    StepAt(works, s, turn);
    BegunMoved(s.at, Step(works, s, turn).at, turn.w);
  }

  lemma StepOrStill(works: Works, s: State, turn: Turn)
    requires Typed(works, s)
    ensures |s.at| == |works| && |Step(works, s, turn).shared| == |s.shared|
    ensures turn.w >= |works| || s.at[turn.w].next >= |works[turn.w]| ==> Step(works, s, turn) == s
  {
    StepGrows(works, s, turn);
    hide S.InBounds, S.Exec, C.Apply, C.Inv, C.WellFormed;
    if turn.w < |works| {
      assert WorkerOk(works, s, turn.w);
    }
  }

  lemma StepKeepsPace(works: Works, s: State, turn: Turn, b: Bags)
    requires Paced(works, s, b)
    ensures Paced(works, Step(works, s, turn), b)
  {
    hide Step, Typed, Counts, Balanced, Sum;
    var w, s' := turn.w, Step(works, s, turn);
    StepKeepsTyped(works, s, turn);
    CountsOk(works, s');
    StepOrStill(works, s, turn);
    if w < |works| && s.at[w].next < |works[w]| {
      BegunStep(works, s, turn);
      forall d | 0 <= d < |s.shared|
        ensures BagSteps(s.shared[d], s'.shared[d], s.at[w].doing.Idle?)
      {
        BagsStep(works, s, turn, d);
      }
    }
  }

  // ----- a step that changes the state decreases the measure

  lemma BlockMoved(works: Works, at: seq<Progress>, at': seq<Progress>, w: nat, cost: nat)
    requires |at| == |works| == |at'| && w < |works| && at' == at[w := at'[w]]
    requires forall v :: 0 <= v < |works| ==> Within(works[v], at[v]) && Within(works[v], at'[v])
    ensures Sum(BlockRanks(works, at', cost)) + BlockRank(works[w], at[w], cost)
         == Sum(BlockRanks(works, at, cost)) + BlockRank(works[w], at'[w], cost)
  {
    hide Within, BlockRank;
    SumUpdate(BlockRanks(works, at, cost), w, BlockRank(works[w], at'[w], cost));
    assert BlockRanks(works, at', cost) == BlockRanks(works, at, cost)[w := BlockRank(works[w], at'[w], cost)];
  }

  lemma BagMoved(shared: seq<C.State>, d: nat, b: C.State, fronts: seq<nat>)
    requires |fronts| == |shared| && d < |shared|
    ensures Sum(BagRanks(shared[d := b], fronts)) + BagRank(shared[d], fronts[d])
         == Sum(BagRanks(shared, fronts)) + BagRank(b, fronts[d])
  {
    hide BagRank;
    SumUpdate(BagRanks(shared, fronts), d, BagRank(b, fronts[d]));
    assert BagRanks(shared[d := b], fronts) == BagRanks(shared, fronts)[d := BagRank(b, fronts[d])];
  }

  lemma BeginDecreases(work: seq<Push>, next: nat, doing: Doing, cost: nat)
    requires next < |work| && doing != Idle
    ensures BlockRank(work, Progress(next, doing), cost) + cost
         == BlockRank(work, Progress(next, Idle), cost) + if doing.Serial? then SerialRank(doing.pc) + 1 else 1
  {
    Distribute(|work| - next - 1, 1, cost);
  }

  /** The step of a block that is neither a new call nor a step of one. */
  lemma BlockStep(works: Works, s: State, turn: Turn, cost: nat)
    requires Typed(works, s) && turn.w < |works| && s.at[turn.w].next < |works[turn.w]| && cost >= 15
    requires s.at[turn.w].doing.Idle? ==> works[turn.w][s.at[turn.w].next].serial
    requires s.at[turn.w].doing.Calling? ==>
               var d := works[turn.w][s.at[turn.w].next].d;
               && d < |s.shared| && s.at[turn.w].doing.t < |s.shared[d].calls|
               && s.shared[d].calls[s.at[turn.w].doing.t].pc.Done?
    ensures var w, s' := turn.w, Step(works, s, turn);
            && |s.at| == |s'.at| == |works| && s'.shared == s.shared && s'.at == s.at[w := s'.at[w]]
            && Within(works[w], s.at[w]) && Within(works[w], s'.at[w])
            && BlockRank(works[w], s'.at[w], cost) < BlockRank(works[w], s.at[w], cost)
  {
    var w, next, doing := turn.w, s.at[turn.w].next, s.at[turn.w].doing;
    assert WorkerOk(works, s, w);
    var push := works[w][next];
    hide C.Apply, C.Inv, C.WellFormed, S.InBounds, S.Exec;
    if doing.Idle? {
      BeginDecreases(works[w], next, Serial(S.LoadFront), cost);
    } else if doing.Serial? && !doing.pc.Returned? {
      SerialStepDecreasesRank(s.priv[push.d], doing.pc, push.p, turn.slots);
    }
  }

  /** Block w is about to begin a concurrent push, or has begun one. */
  ghost predicate AtCall(works: Works, s: State, w: nat, push: Push)
    requires Typed(works, s)
  {
    && Acts(works, s, w, push) && !push.serial && push.d < |s.shared|
    && match s.at[w].doing
       case Idle => true
       case Serial(_) => false
       case Calling(t) => t < |s.shared[push.d].calls| && !s.shared[push.d].calls[t].pc.Done?
  }

  lemma BeginRank(b: C.State, p: Particle, fronts: nat, left: nat)
    requires C.WellFormed(b) && b.front <= fronts <= b.front + left
    ensures BagRank(C.Apply(b, C.Begin(p)), fronts) <= BagRank(b, fronts) + 4 * left + 13
  {
    var calls := C.Apply(b, C.Begin(p)).calls;
    assert calls[..|calls| - 1] == b.calls;
  }

  lemma ActRank(b: C.State, t: nat, chunk: C.Chunk, fronts: nat)
    requires C.Inv(b) && C.WellFormed(b) && t < |b.calls| && C.Apply(b, C.Act(t, chunk)) != b
    requires b.front <= fronts && C.Apply(b, C.Act(t, chunk)).front <= fronts
    ensures BagRank(C.Apply(b, C.Act(t, chunk)), fronts) < BagRank(b, fronts)
  {
    P.IdleIff(b, t, chunk);
    assert C.Apply(b, C.Act(t, chunk)) == C.Exec(b, t, chunk);
    hide C.Inv, C.WellFormed, C.Exec, C.Apply, P.Idle, P.TotalRank;
    P.MoveDecreasesRank(b, t, chunk, fronts);
  }

  lemma BeginStep(works: Works, s: State, turn: Turn, push: Push, fronts: seq<nat>, left: nat)
    requires Typed(works, s) && AtCall(works, s, turn.w, push) && s.at[turn.w].doing.Idle? && |fronts| == |s.shared|
    requires s.shared[push.d].front <= fronts[push.d] <= s.shared[push.d].front + left
    ensures Typed(works, Step(works, s, turn)) && |fronts| == |Step(works, s, turn).shared|
    ensures Measure(works, Step(works, s, turn), fronts, 4 * left + 15) < Measure(works, s, fronts, 4 * left + 15)
  {
    var w, d, s', cost := turn.w, push.d, Step(works, s, turn), 4 * left + 15;
    StepKeepsTyped(works, s, turn);
    StepBegins(works, s, turn, push);
    TypedWithin(works, s);
    TypedWithin(works, s');
    hide Step, Typed, C.WellFormed, C.Apply, BagRank, BlockRank;
    BeginRank(s.shared[d], push.p, fronts[d], left);
    BagMoved(s.shared, d, s'.shared[d], fronts);
    BlockMoved(works, s.at, s'.at, w, cost);
    BeginDecreases(works[w], s.at[w].next, s'.at[w].doing, cost);
  }

  lemma ActsOnBag(works: Works, s: State, turn: Turn, push: Push)
    requires Typed(works, s) && AtCall(works, s, turn.w, push) && s.at[turn.w].doing.Calling?
    ensures var b := s.shared[push.d];
            && C.Inv(b) && C.WellFormed(b)
            && Step(works, s, turn)
                 == s.(shared := s.shared[push.d := C.Apply(b, C.Act(s.at[turn.w].doing.t, turn.chunk))])
  {
    hide C.Inv, C.WellFormed, C.Apply, S.InBounds, S.Exec;
    assert WorkerOk(works, s, turn.w);
  }

  lemma ActStep(works: Works, s: State, turn: Turn, push: Push, fronts: seq<nat>, cost: nat)
    requires Typed(works, s) && AtCall(works, s, turn.w, push) && s.at[turn.w].doing.Calling? && |fronts| == |s.shared|
    requires Typed(works, Step(works, s, turn)) && |fronts| == |Step(works, s, turn).shared|
    requires s.shared[push.d].front <= fronts[push.d] && Step(works, s, turn).shared[push.d].front <= fronts[push.d]
    requires Step(works, s, turn) != s
    ensures Measure(works, Step(works, s, turn), fronts, cost) < Measure(works, s, fronts, cost)
  {
    var d, t, s' := push.d, s.at[turn.w].doing.t, Step(works, s, turn);
    hide Step, Typed, C.Inv, C.WellFormed, C.Apply, BagRank, BlockRank;
    ActsOnBag(works, s, turn, push);
    assert s.shared[d := s.shared[d]] == s.shared;
    ActRank(s.shared[d], t, turn.chunk, fronts[d]);
    BagMoved(s.shared, d, s'.shared[d], fronts);
  }

  lemma OwnStep(works: Works, s: State, turn: Turn, push: Push, fronts: seq<nat>, cost: nat)
    requires Typed(works, s) && Acts(works, s, turn.w, push) && !AtCall(works, s, turn.w, push)
             && |fronts| == |s.shared|
    requires cost >= 15
    ensures Typed(works, Step(works, s, turn)) && |fronts| == |Step(works, s, turn).shared|
    ensures Measure(works, Step(works, s, turn), fronts, cost) < Measure(works, s, fronts, cost)
  {
    var w, s' := turn.w, Step(works, s, turn);
    assert WorkerOk(works, s, w);
    StepKeepsTyped(works, s, turn);
    TypedWithin(works, s);
    TypedWithin(works, s');
    hide Step, Typed, BagRank, BlockRank;
    BlockStep(works, s, turn, cost);
    BlockMoved(works, s.at, s'.at, w, cost);
  }

  lemma MovingBlock(works: Works, s: State, turn: Turn)
    requires Typed(works, s) && Step(works, s, turn) != s
    ensures turn.w < |works| == |s.at| && s.at[turn.w].next < |works[turn.w]|
    ensures works[turn.w][s.at[turn.w].next].d < |s.shared| && Acts(works, s, turn.w, works[turn.w][s.at[turn.w].next])
  {
    if turn.w < |works| {
      assert WorkerOk(works, s, turn.w);
    }
  }

  /** Every step that changes the state brings the phase nearer to its end. */
  lemma StepDecreasesMeasure(works: Works, s: State, turn: Turn, b: Bags)
    requires Settled(b) && Paced(works, s, b) && Step(works, s, turn) != s
    ensures var s', cost := Step(works, s, turn), CostOf(TotalPushes(works));
            && Typed(works, s') && |s'.shared| == |b.shared|
            && Measure(works, s', Limits(works, b), cost) < Measure(works, s, Limits(works, b), cost)
  {
    hide Step, Settled, Measure, Balanced, Counts, Typed, TotalPushes, AtCall, Acts;
    var s', cost, fronts := Step(works, s, turn), CostOf(TotalPushes(works)), Limits(works, b);
    StepKeepsPace(works, s, turn, b);
    MovingBlock(works, s, turn);
    var push := works[turn.w][s.at[turn.w].next];
    if AtCall(works, s, turn.w, push) {
      FrontsWithin(works, s, b, push.d);
      FrontsWithin(works, s', b, push.d);
      if s.at[turn.w].doing.Idle? {
        BeginStep(works, s, turn, push, fronts, FrontsFor(TotalPushes(works)));
      } else {
        CallAwaited(works, s, turn.w, push);
        ActStep(works, s, turn, push, fronts, cost);
      }
    } else {
      OwnStep(works, s, turn, push, fronts, cost);
    }
  }

  lemma CallAwaited(works: Works, s: State, w: nat, push: Push)
    requires Typed(works, s) && AtCall(works, s, w, push)
    ensures w < |s.at| && (s.at[w].doing.Idle? || s.at[w].doing.Calling?)
  {
  }

  // ----- the moves of a phase

  /** The number of turns that change the state. */
  ghost function Moves(works: Works, b: Bags, turns: seq<Turn>): nat
    requires Settled(b) && InRange(works, |b.priv|)
  {
    if turns == [] then 0
    else
      var before := turns[..|turns| - 1];
      Moves(works, b, before) + if After(works, b, turns) != After(works, b, before) then 1 else 0
  }

  lemma NextMove(works: Works, b: Bags, turns: seq<Turn>, turn: Turn)
    requires Settled(b) && InRange(works, |b.priv|)
    ensures After(works, b, turns + [turn]) == Step(works, After(works, b, turns), turn)
    ensures Moves(works, b, turns + [turn])
         == Moves(works, b, turns) + if After(works, b, turns + [turn]) != After(works, b, turns) then 1 else 0
  {
    hide Step, Settled, Typed, InRange;
    assert (turns + [turn])[..|turns|] == turns;
  }

  lemma {:induction false} RankOfReturned(calls: seq<C.Call>, front: nat, left: nat)
    requires forall t :: 0 <= t < |calls| ==> calls[t].pc.Done?
    ensures P.TotalRank(calls, front, left) == 0
  {
    if calls != [] {
      RankOfReturned(calls[..|calls| - 1], front, left);
    }
  }

  lemma StartPaced(works: Works, b: Bags)
    requires Settled(b) && InRange(works, |b.priv|)
    ensures Paced(works, Start(works, b), b)
  {
    StartTyped(works, b);
    CountsOk(works, Start(works, b));
    hide Typed, C.Inv, S.AtRest, Balanced, Quiescent, Sum, Counts;
  }

  lemma StartMeasure(works: Works, b: Bags)
    requires Settled(b) && InRange(works, |b.priv|) && Typed(works, Start(works, b))
    ensures var n := TotalPushes(works); Measure(works, Start(works, b), Limits(works, b), CostOf(n)) == n * CostOf(n)
  {
    var s, cost, fronts := Start(works, b), CostOf(TotalPushes(works)), Limits(works, b);
    TypedWithin(works, s);
    SumTimes(Lengths(works), BlockRanks(works, s.at, cost), cost);
    forall d | 0 <= d < |s.shared|
      ensures BagRanks(s.shared, fronts)[d] == 0
    {
      RankOfReturned(s.shared[d].calls, s.shared[d].front, fronts[d] - s.shared[d].front);
    }
    SumTimes(BagRanks(s.shared, fronts), BagRanks(s.shared, fronts), 0);
  }

  lemma {:induction false} MovesAndMeasure(works: Works, b: Bags, turns: seq<Turn>)
    requires Settled(b) && InRange(works, |b.priv|)
    ensures Paced(works, After(works, b, turns), b)
    ensures var n := TotalPushes(works);
            Moves(works, b, turns) + Measure(works, After(works, b, turns), Limits(works, b),
                                             CostOf(n)) <= n * CostOf(n)
  {
    hide Step, Settled, Typed, InRange, Measure, TotalPushes, Balanced, Counts, CostOf;
    if turns == [] {
      StartPaced(works, b);
      StartMeasure(works, b);
    } else {
      var before, turn := turns[..|turns| - 1], turns[|turns| - 1];
      MovesAndMeasure(works, b, before);
      StepKeepsPace(works, After(works, b, before), turn, b);
      if Step(works, After(works, b, before), turn) != After(works, b, before) {
        StepDecreasesMeasure(works, After(works, b, before), turn, b);
      }
    }
  }

  /** However the blocks of a phase are interleaved, n pushes make at most n * (4 * (n / 256) + 19) moves. */
  lemma MovesAreBounded(works: Works, b: Bags, turns: seq<Turn>)
    requires Settled(b) && InRange(works, |b.priv|)
    ensures var n := TotalPushes(works); Moves(works, b, turns) <= n * (4 * (n / CHUNK_SIZE) + 19)
  {
    hide Moves, Measure, Paced, TotalPushes, Settled, InRange;
    MovesAndMeasure(works, b, turns);
    assert CostOf(TotalPushes(works)) == 4 * (TotalPushes(works) / CHUNK_SIZE) + 19;
  }

  // ----- fair schedules

  predicate HasTurn(round: seq<Turn>, w: nat) { exists i :: 0 <= i < |round| && round[i].w == w }

  /** Every block gets a turn. */
  predicate Fair(works: Works, round: seq<Turn>) { forall w :: 0 <= w < |works| ==> HasTurn(round, w) }

  function InOrder(rounds: seq<seq<Turn>>): seq<Turn> {
    if rounds == [] then [] else InOrder(rounds[..|rounds| - 1]) + rounds[|rounds| - 1]
  }

  lemma {:induction false} QuietSoFar(works: Works, b: Bags, turns: seq<Turn>, more: seq<Turn>)
    requires Settled(b) && InRange(works, |b.priv|)
    ensures Moves(works, b, turns) <= Moves(works, b, turns + more)
    ensures Moves(works, b, turns + more) == Moves(works, b, turns) ==>
              After(works, b, turns + more) == After(works, b, turns)
    ensures AllDone(works, After(works, b, turns)) ==> After(works, b, turns + more) == After(works, b, turns)
  {
    hide Settled, InRange, Typed, Moves, After;
    if more == [] {
      assert turns + more == turns;
    } else {
      var before, turn := more[..|more| - 1], more[|more| - 1];
      QuietSoFar(works, b, turns, before);
      NextMove(works, b, turns + before, turn);
      assert turns + more == turns + before + [turn];
      DoneStays(works, After(works, b, turns), turn);
      hide Step, AllDone;
    }
  }

  lemma DoneStays(works: Works, s: State, turn: Turn)
    requires Typed(works, s)
    ensures AllDone(works, s) ==> Step(works, s, turn) == s
  {
  }

  /** In a fair round that starts before the end, some block moves. */
  lemma RoundMoves(works: Works, b: Bags, turns: seq<Turn>, round: seq<Turn>)
    requires Settled(b) && InRange(works, |b.priv|) && Exclusive(works) && Fair(works, round)
    requires !AllDone(works, After(works, b, turns))
    ensures Moves(works, b, turns + round) > Moves(works, b, turns)
  {
    hide Settled, InRange, Exclusive, AllDone, Moves, After, Step, Typed;
    SomeBlockMoves(works, b, turns);
    var w: nat :| CanMove(works, After(works, b, turns), w);
    assert HasTurn(round, w);
    var i :| 0 <= i < |round| && round[i].w == w;
    QuietSoFar(works, b, turns, round[..i]);
    NextMove(works, b, turns + round[..i], round[i]);
    QuietSoFar(works, b, turns + round[..i] + [round[i]], round[i + 1..]);
    assert turns + round == turns + round[..i] + [round[i]] + round[i + 1..];
  }

  lemma {:induction false} RoundsMove(works: Works, b: Bags, rounds: seq<seq<Turn>>)
    requires Settled(b) && InRange(works, |b.priv|) && Exclusive(works)
    requires forall k :: 0 <= k < |rounds| ==> Fair(works, rounds[k])
    ensures AllDone(works, After(works, b, InOrder(rounds))) || Moves(works, b, InOrder(rounds)) >= |rounds|
  {
    hide Settled, InRange, Exclusive, AllDone, Moves, After, Typed, Fair;
    if rounds != [] {
      var before, round := rounds[..|rounds| - 1], rounds[|rounds| - 1];
      RoundsMove(works, b, before);
      if AllDone(works, After(works, b, InOrder(before))) {
        QuietSoFar(works, b, InOrder(before), round);
      } else {
        RoundMoves(works, b, InOrder(before), round);
      }
    }
  }

  /** A schedule of that many rounds, in each of which every block gets a turn, ends the phase. */
  lemma FairRoundsEndThePhase(works: Works, b: Bags, rounds: seq<seq<Turn>>)
    requires Settled(b) && InRange(works, |b.priv|) && Exclusive(works)
    requires forall k :: 0 <= k < |rounds| ==> Fair(works, rounds[k])
    requires var n := TotalPushes(works); |rounds| >= n * (4 * (n / CHUNK_SIZE) + 19)
    ensures AllDone(works, After(works, b, InOrder(rounds)))
  {
    hide Settled, InRange, Exclusive, AllDone, Moves, After, Typed, Fair, Step, TotalPushes;
    RoundsMove(works, b, rounds);
    var turns := InOrder(rounds);
    if !AllDone(works, After(works, b, turns)) {
      SomeBlockMoves(works, b, turns);
      var w: nat :| CanMove(works, After(works, b, turns), w);
      NextMove(works, b, turns, Turn(w, [], C.Chunk(None, 0, [], [])));
      MovesAreBounded(works, b, turns + [Turn(w, [], C.Chunk(None, 0, [], []))]);
    }
  }
}
