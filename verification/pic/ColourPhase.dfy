/**
 The pushes of the blocks of one colour, interleaved step by step. Every block pushes its
 particles in its own order; serial pushes go to PRIVATE bags in the small steps of module
 SerialPush, the others to SHARED bags in the steps of module ConcurrentBag.
 */
module ColourPhase {
  import opened Particles
  import opened ConcurrentBagBalance
  import opened ConcurrentBagTheorems
  import C = ConcurrentBag
  import P = ConcurrentBagProgress
  import S = SerialPush

  /** A particle on its way to one of the two next bags of cell d. */
  datatype Push = Push(d: nat, p: Particle, serial: bool)

  /** What a block does about its next push: nothing yet, or a serial push at pc, or call t of the concurrent push. */
  datatype Doing = Idle | Serial(pc: S.Pc) | Calling(t: nat)

  datatype Progress = Progress(next: nat, doing: Doing)

  datatype State = State(priv: seq<S.Chain>, shared: seq<C.State>, at: seq<Progress>)

  /** Block w takes its next step; the rest is what malloc returns, if it is called. */
  datatype Turn = Turn(w: nat, slots: seq<Particle>, chunk: C.Chunk)

  type Works = seq<seq<Push>>

  // ----- the transition system

  ghost predicate WorkerOk(works: Works, s: State, w: nat)
    requires w < |works| == |s.at|
  {
    var Progress(next, doing) := s.at[w];
    && next <= |works[w]| && (doing != Idle ==> next < |works[w]|)
    && (next < |works[w]| ==>
          var push := works[w][next];
          && push.d < |s.priv| && push.d < |s.shared|
          && (doing.Serial? ==> push.serial && S.InBounds(s.priv[push.d], doing.pc))
          && (doing.Calling? ==> !push.serial && doing.t < |s.shared[push.d].calls|))
  }

  ghost predicate Typed(works: Works, s: State) {
    && |s.priv| == |s.shared| && |s.at| == |works|
    && (forall w, i :: 0 <= w < |works| && 0 <= i < |works[w]| ==> works[w][i].d < |s.priv|)
    && (forall d :: 0 <= d < |s.priv| ==> S.InBounds(s.priv[d], S.LoadFront))
    && (forall d :: 0 <= d < |s.shared| ==> C.Inv(s.shared[d]) && C.WellFormed(s.shared[d]))
    && (forall w :: 0 <= w < |works| ==> WorkerOk(works, s, w))
  }

  function Moved(s: State, w: nat, next: nat, doing: Doing): State
    requires w < |s.at|
  {
    s.(at := s.at[w := Progress(next, doing)])
  }

  function Step(works: Works, s: State, turn: Turn): State
    requires Typed(works, s)
  {
    var w := turn.w;
    if w >= |works| then s
    else
      assert WorkerOk(works, s, w);
      var Progress(next, doing) := s.at[w];
      if next == |works[w]| then s
      else
        var Push(d, p, serial) := works[w][next];
        match doing
        case Idle =>
          if serial then Moved(s, w, next, Serial(S.LoadFront))
          else
            Moved(s.(shared := s.shared[d := C.Apply(s.shared[d], C.Begin(p))]), w, next, Calling(|s.shared[d].calls|))
        case Serial(pc) =>
          if pc.Returned? then Moved(s, w, next + 1, Idle)
          else
            var (chain, pc') := S.Exec(s.priv[d], pc, p, turn.slots);
            Moved(s.(priv := s.priv[d := chain]), w, next, Serial(pc'))
        case Calling(t) =>
          if s.shared[d].calls[t].pc.Done? then Moved(s, w, next + 1, Idle)
          else s.(shared := s.shared[d := C.Apply(s.shared[d], C.Act(t, turn.chunk))])
  }

  // ----- every step is well defined

  lemma SharedStaysOk(b: C.State, e: C.Event)
    requires C.Inv(b) && C.WellFormed(b)
    ensures C.Inv(C.Apply(b, e)) && C.WellFormed(C.Apply(b, e))
    ensures |C.Apply(b, e).calls| == |b.calls| + if e.Begin? then 1 else 0
  {
    C.ApplyKeepsInv(b, e);
    C.InvWellFormed(C.Apply(b, e));
    hide C.Inv;
  }

  /** No bag gets shorter of chunks or of calls. */
  ghost predicate Grows(s: State, s': State) {
    && |s'.priv| == |s.priv| == |s.shared| == |s'.shared|
    && (forall d, pc :: 0 <= d < |s.priv| && S.InBounds(s.priv[d], pc) ==> S.InBounds(s'.priv[d], pc))
    && (forall d :: 0 <= d < |s.shared| ==> |s.shared[d].calls| <= |s'.shared[d].calls|)
    && (forall d :: 0 <= d < |s.shared| ==> C.Inv(s'.shared[d]) && C.WellFormed(s'.shared[d]))
  }

  lemma StepGrows(works: Works, s: State, turn: Turn)
    requires Typed(works, s)
    ensures var s' := Step(works, s, turn); Grows(s, s') && |s'.at| == |s.at|
    ensures turn.w < |works| ==> WorkerOk(works, Step(works, s, turn), turn.w)
    ensures forall v :: 0 <= v < |works| && v != turn.w ==> Step(works, s, turn).at[v] == s.at[v]
  {
    hide C.Inv, C.WellFormed, C.Apply, S.InBounds, S.Exec;
    var w := turn.w;
    if w < |works| {
      assert WorkerOk(works, s, w);
      var next := s.at[w].next;
      if next < |works[w]| {
        var d := works[w][next].d;
        SharedStaysOk(s.shared[d], C.Begin(works[w][next].p));
        if s.at[w].doing.Calling? {
          SharedStaysOk(s.shared[d], C.Act(s.at[w].doing.t, turn.chunk));
        }
      }
    }
  }

  lemma StepKeepsTyped(works: Works, s: State, turn: Turn)
    requires Typed(works, s)
    ensures Typed(works, Step(works, s, turn))
  {
    var s' := Step(works, s, turn);
    StepGrows(works, s, turn);
    hide Step, C.Inv, C.WellFormed, S.InBounds;
    forall v | 0 <= v < |works|
      ensures WorkerOk(works, s', v)
    {
      assert WorkerOk(works, s, v);
    }
  }

  // ----- what has been sent where

  function Share(push: Push, d: nat, serial: bool): multiset<Particle> {
    if push.d == d && push.serial == serial then multiset{push.p} else multiset{}
  }

  /** Of the first k pushes, those to the given bag of cell d. */
  function To(work: seq<Push>, k: nat, d: nat, serial: bool): multiset<Particle>
    requires k <= |work|
  {
    if k == 0 then multiset{} else To(work, k - 1, d, serial) + Share(work[k - 1], d, serial)
  }

  ghost predicate Counts(works: Works, counts: seq<nat>) {
    |counts| == |works| && forall w :: 0 <= w < |works| ==> counts[w] <= |works[w]|
  }

  /** The same for the first counts[w] pushes of each block w below n. */
  function SentUpTo(works: Works, counts: seq<nat>, n: nat, d: nat, serial: bool): multiset<Particle>
    requires Counts(works, counts) && n <= |works|
  {
    if n == 0 then multiset{}
    else SentUpTo(works, counts, n - 1, d, serial) + To(works[n - 1], counts[n - 1], d, serial)
  }

  function SentTo(works: Works, counts: seq<nat>, d: nat, serial: bool): multiset<Particle>
    requires Counts(works, counts)
  {
    SentUpTo(works, counts, |works|, d, serial)
  }

  lemma SentUpToNext(works: Works, counts: seq<nat>, n: nat, d: nat, serial: bool)
    requires Counts(works, counts) && n <= |works|
    ensures n == 0 ==> SentUpTo(works, counts, n, d, serial) == multiset{}
    ensures n > 0 ==> SentUpTo(works, counts, n, d, serial)
                        == SentUpTo(works, counts, n - 1, d, serial) + To(works[n - 1], counts[n - 1], d, serial)
  {
  }

  lemma ToNext(work: seq<Push>, k: nat, d: nat, serial: bool)
    requires k < |work|
    ensures To(work, k + 1, d, serial) == To(work, k, d, serial) + Share(work[k], d, serial)
  {
  }

  lemma AddToEither(a: multiset<Particle>, a': multiset<Particle>, b: multiset<Particle>, b': multiset<Particle>,
                    x: multiset<Particle>)
    requires (a' == a + x && b' == b) || (a' == a && b' == b + x)
    ensures a' + b' == a + b + x
  {
  }

  lemma {:induction false} SentMoreUpTo(works: Works, counts: seq<nat>, w: nat, n: nat, d: nat, serial: bool)
    requires Counts(works, counts) && w < |works| && counts[w] < |works[w]| && n <= |works|
    ensures Counts(works, counts[w := counts[w] + 1])
    ensures SentUpTo(works, counts[w := counts[w] + 1], n, d, serial)
         == SentUpTo(works, counts, n, d, serial) + if w < n then Share(works[w][counts[w]], d, serial) else multiset{}
  {
    hide SentUpTo, To, Share;
    var counts' := counts[w := counts[w] + 1];
    SentUpToNext(works, counts, n, d, serial);
    SentUpToNext(works, counts', n, d, serial);
    if n > 0 {
      SentMoreUpTo(works, counts, w, n - 1, d, serial);
      if w < n {
        ToNext(works[w], counts[w], d, serial);
        AddToEither(SentUpTo(works, counts, n - 1, d, serial), SentUpTo(works, counts', n - 1, d, serial),
                    To(works[n - 1], counts[n - 1], d, serial), To(works[n - 1], counts'[n - 1], d, serial),
                    Share(works[w][counts[w]], d, serial));
      }
    }
  }

  lemma SentMore(works: Works, counts: seq<nat>, w: nat, d: nat, serial: bool)
    requires Counts(works, counts) && w < |works| && counts[w] < |works[w]|
    ensures Counts(works, counts[w := counts[w] + 1])
    ensures SentTo(works, counts[w := counts[w] + 1], d, serial)
         == SentTo(works, counts, d, serial) + Share(works[w][counts[w]], d, serial)
  {
    SentMoreUpTo(works, counts, w, |works|, d, serial);
  }

  /** How many pushes each block has finished, and has begun. */
  function Finished(at: seq<Progress>): (counts: seq<nat>)
    ensures |counts| == |at| && forall w :: 0 <= w < |at| ==> counts[w] == at[w].next
  {
    seq(|at|, w requires 0 <= w < |at| => at[w].next)
  }

  function Begun(at: seq<Progress>): (counts: seq<nat>)
    ensures |counts| == |at| && forall w :: 0 <= w < |at| ==>
              counts[w] == at[w].next + if at[w].doing.Idle? then 0 else 1
  {
    seq(|at|, w requires 0 <= w < |at| => at[w].next + if at[w].doing.Idle? then 0 else 1)
  }

  lemma CountsOk(works: Works, s: State)
    requires Typed(works, s)
    ensures Counts(works, Finished(s.at)) && Counts(works, Begun(s.at))
  {
    forall w | 0 <= w < |works|
      ensures Finished(s.at)[w] <= |works[w]| && Begun(s.at)[w] <= |works[w]|
    {
      assert WorkerOk(works, s, w);
    }
  }

  // ----- the invariant

  /** Block w is in the middle of a serial push to cell d. */
  ghost predicate Pushing(works: Works, s: State, w: nat, d: nat) {
    w < |works| == |s.at| && s.at[w].doing.Serial? && s.at[w].next < |works[w]| && works[w][s.at[w].next].d == d
  }

  /** Block w is in the middle of call t of the concurrent push to cell d. */
  ghost predicate Awaits(works: Works, s: State, w: nat, d: nat, t: nat) {
    && w < |works| == |s.at| && s.at[w].doing == Calling(t)
    && s.at[w].next < |works[w]| && works[w][s.at[w].next].d == d
  }

  /** The PRIVATE bag of cell d, which held `init`, has what the finished pushes sent there; a push under way is
      alone on it. */
  ghost predicate PrivOk(works: Works, s: State, d: nat, init: multiset<Particle>)
    requires Typed(works, s) && d < |s.priv| && Counts(works, Finished(s.at))
  {
    var base := init + SentTo(works, Finished(s.at), d, true);
    && (forall w: nat :: Pushing(works, s, w, d) ==>
          S.Busy(s.priv[d], s.at[w].doing.pc, works[w][s.at[w].next].p, base))
    && ((exists w: nat :: Pushing(works, s, w, d)) || (S.AtRest(s.priv[d]) && S.Held(s.priv[d]) == base))
  }

  /** The calls on the SHARED bag of cell d are those that were there and those the blocks have begun. */
  ghost predicate SharedOk(works: Works, s: State, d: nat, init: multiset<Particle>)
    requires Typed(works, s) && d < |s.shared| && Counts(works, Begun(s.at))
  {
    var b := s.shared[d];
    && Balanced(b)
    && ParticlesPushed(b.calls) == init + SentTo(works, Begun(s.at), d, false)
    && forall t: nat :: t < |b.calls| && !b.calls[t].pc.Done? ==> exists w: nat :: Awaits(works, s, w, d, t)
  }

  /** No cell is pushed to serially by two blocks. */
  ghost predicate Exclusive(works: Works) {
    forall v, w, i, j ::
      0 <= v < w < |works| && 0 <= i < |works[v]| && 0 <= j < |works[w]| && works[v][i].serial && works[w][j].serial ==>
      works[v][i].d != works[w][j].d
  }

  ghost predicate Ok(works: Works, s: State, priv0: seq<multiset<Particle>>, shared0: seq<multiset<Particle>>) {
    && Typed(works, s) && |priv0| == |shared0| == |s.priv|
    && Counts(works, Finished(s.at)) && Counts(works, Begun(s.at))
    && (forall d :: 0 <= d < |s.priv| ==> PrivOk(works, s, d, priv0[d]))
    && (forall d :: 0 <= d < |s.shared| ==> SharedOk(works, s, d, shared0[d]))
  }

  /** At most one block is pushing to the PRIVATE bag of a cell at any time. */
  lemma SinglePusher(works: Works, s: State, v: nat, w: nat, d: nat)
    requires Exclusive(works) && Typed(works, s) && Pushing(works, s, v, d) && Pushing(works, s, w, d)
    ensures v == w
  {
    assert WorkerOk(works, s, v) && WorkerOk(works, s, w);
  }

  // ----- a step leaves the other bags alone

  lemma PrivBeside(works: Works, s: State, s': State, w: nat, d: nat, init: multiset<Particle>)
    requires Typed(works, s) && Typed(works, s') && d < |s.priv| == |s'.priv| && s'.priv[d] == s.priv[d] && w < |works|
    requires s'.at == s.at[w := s'.at[w]] && !Pushing(works, s, w, d) && !Pushing(works, s', w, d)
    requires Counts(works, Finished(s.at)) && Counts(works, Finished(s'.at))
    requires SentTo(works, Finished(s'.at), d, true) == SentTo(works, Finished(s.at), d, true)
    requires PrivOk(works, s, d, init)
    ensures PrivOk(works, s', d, init)
  {
    assert w < |s.at| == |works|;
    hide Typed, Counts, SentTo, S.Busy, S.AtRest, S.Held;
    forall v: nat | v != w
      ensures Pushing(works, s', v, d) <==> Pushing(works, s, v, d)
    {
    }
  }

  lemma SharedBeside(works: Works, s: State, s': State, d: nat, init: multiset<Particle>)
    requires Typed(works, s) && Typed(works, s') && d < |s.shared| == |s'.shared| && s'.shared[d] == s.shared[d]
    requires forall v: nat, t: nat :: Awaits(works, s, v, d, t) ==>
               Awaits(works, s', v, d, t) || (t < |s.shared[d].calls| && s.shared[d].calls[t].pc.Done?)
    requires Counts(works, Begun(s.at)) && Counts(works, Begun(s'.at))
    requires SentTo(works, Begun(s'.at), d, false) == SentTo(works, Begun(s.at), d, false)
    requires SharedOk(works, s, d, init)
    ensures SharedOk(works, s', d, init)
  {
    hide Typed, Counts, SentTo, Balanced, ParticlesPushed;
    var b := s.shared[d];
    forall t: nat | t < |b.calls| && !b.calls[t].pc.Done?
      ensures exists v: nat :: Awaits(works, s', v, d, t)
    {
      var v: nat :| Awaits(works, s, v, d, t);
      assert Awaits(works, s', v, d, t);
    }
  }

  // ----- the steps of a serial push

  /** The only block that is pushing to the PRIVATE bag of cell d is w. */
  ghost predicate Alone(works: Works, s: State, w: nat, d: nat) {
    forall v: nat :: v != w ==> !Pushing(works, s, v, d)
  }

  lemma AloneWithIt(works: Works, s: State, w: nat, d: nat)
    requires Exclusive(works) && Typed(works, s) && w < |works|
    requires s.at[w].next < |works[w]| && works[w][s.at[w].next].serial && works[w][s.at[w].next].d == d
    ensures Alone(works, s, w, d)
  {
    hide S.InBounds, C.Inv, C.WellFormed;
    forall v: nat | v != w
      ensures !Pushing(works, s, v, d)
    {
      if v < |works| { assert WorkerOk(works, s, v); }
    }
  }

  /** What becomes of the PRIVATE bag when block w, alone on it, takes a step. */
  lemma PrivAlone(works: Works, s: State, s': State, w: nat, d: nat, init: multiset<Particle>)
    requires Typed(works, s) && Typed(works, s') && d < |s.priv| == |s'.priv| && w < |works|
    requires s'.at == s.at[w := s'.at[w]] && Alone(works, s, w, d)
    requires Counts(works, Finished(s'.at))
    requires var base := init + SentTo(works, Finished(s'.at), d, true);
             if Pushing(works, s', w, d) then S.Busy(s'.priv[d], s'.at[w].doing.pc, works[w][s'.at[w].next].p, base)
             else S.AtRest(s'.priv[d]) && S.Held(s'.priv[d]) == base
    ensures PrivOk(works, s', d, init)
  {
    assert w < |s.at| == |works|;
    hide Typed, Counts, SentTo, S.Busy, S.AtRest, S.Held;
    forall v: nat | v != w
      ensures !Pushing(works, s', v, d)
    {
      assert !Pushing(works, s, v, d);
    }
  }

  lemma SameCounts(at: seq<Progress>, w: nat, doing: Doing)
    requires w < |at| && (at[w].doing.Idle? <==> doing.Idle?)
    ensures Finished(at[w := Progress(at[w].next, doing)]) == Finished(at)
    ensures Begun(at[w := Progress(at[w].next, doing)]) == Begun(at)
  {
  }

  lemma BeginCounts(at: seq<Progress>, w: nat, doing: Doing)
    requires w < |at| && at[w].doing.Idle? && !doing.Idle?
    ensures Finished(at[w := Progress(at[w].next, doing)]) == Finished(at)
    ensures Begun(at[w := Progress(at[w].next, doing)]) == Begun(at)[w := Begun(at)[w] + 1]
            && Begun(at)[w] == at[w].next
  {
  }

  lemma EndCounts(at: seq<Progress>, w: nat)
    requires w < |at| && !at[w].doing.Idle?
    ensures Finished(at[w := Progress(at[w].next + 1, Idle)]) == Finished(at)[w := Finished(at)[w] + 1]
    ensures Begun(at[w := Progress(at[w].next + 1, Idle)]) == Begun(at)
  {
  }

  /** The turn is a step of block w towards its next push. */
  ghost predicate Acts(works: Works, s: State, w: nat, push: Push)
    requires Typed(works, s)
  {
    w < |works| && s.at[w].next < |works[w]| && works[w][s.at[w].next] == push
  }

  lemma StepAt(works: Works, s: State, turn: Turn)
    requires Typed(works, s) && turn.w < |works| && s.at[turn.w].next < |works[turn.w]|
    ensures var w, s' := turn.w, Step(works, s, turn);
            && |s.at| == |s'.at| == |works|
            && s'.at == s.at[w := s'.at[w]]
            && (s.at[w].doing.Idle? ==> !s'.at[w].doing.Idle?)
            && s'.at[w].next == s.at[w].next + if s'.at[w].doing.Idle? then 1 else 0
  {
    hide C.Apply, S.Exec, C.Inv, C.WellFormed, S.InBounds, WorkerOk;
    assert WorkerOk(works, s, turn.w);
  }

  /** Block w has moved on: it has begun its next push, is in the middle of it, or has ended it. */
  ghost predicate MovesOn(works: Works, at: seq<Progress>, at': seq<Progress>, w: nat, push: Push) {
    && w < |at| == |at'| == |works| && at' == at[w := at'[w]]
    && at[w].next < |works[w]| && works[w][at[w].next] == push
    && (at[w].doing.Idle? ==> !at'[w].doing.Idle?)
    && at'[w].next == at[w].next + if at'[w].doing.Idle? then 1 else 0
  }

  lemma FinishedAfter(works: Works, at: seq<Progress>, at': seq<Progress>, w: nat, push: Push, d: nat)
    requires |at| == |at'| && MovesOn(works, at, at', w, push) && Counts(works, Finished(at))
    ensures Counts(works, Finished(at'))
    ensures SentTo(works, Finished(at'), d, true) == SentTo(works, Finished(at), d, true)
              + (if !at[w].doing.Idle? && at'[w].doing.Idle? then Share(push, d, true) else multiset{})
  {
    hide SentTo, Share, Counts;
    if at[w].doing.Idle? {
      BeginCounts(at, w, at'[w].doing);
    } else if at'[w].doing.Idle? {
      EndCounts(at, w);
      SentMore(works, Finished(at), w, d, true);
    } else {
      SameCounts(at, w, at'[w].doing);
    }
  }

  lemma BegunAfter(works: Works, at: seq<Progress>, at': seq<Progress>, w: nat, push: Push, d: nat)
    requires |at| == |at'| && MovesOn(works, at, at', w, push) && Counts(works, Begun(at))
    ensures Counts(works, Begun(at'))
    ensures SentTo(works, Begun(at'), d, false) == SentTo(works, Begun(at), d, false)
              + (if at[w].doing.Idle? then Share(push, d, false) else multiset{})
  {
    hide SentTo, Share, Counts;
    if at[w].doing.Idle? {
      BeginCounts(at, w, at'[w].doing);
      SentMore(works, Begun(at), w, d, false);
    } else if at'[w].doing.Idle? {
      EndCounts(at, w);
    } else {
      SameCounts(at, w, at'[w].doing);
    }
  }

  lemma SentAfter(works: Works, s: State, turn: Turn, push: Push, d: nat)
    requires Typed(works, s) && Acts(works, s, turn.w, push)
    requires Counts(works, Finished(s.at)) && Counts(works, Begun(s.at))
    ensures var s' := Step(works, s, turn);
            && turn.w < |s.at| == |s'.at| && s'.at == s.at[turn.w := s'.at[turn.w]]
            && Counts(works, Finished(s'.at)) && Counts(works, Begun(s'.at))
            && SentTo(works, Finished(s'.at), d, true)
                 == SentTo(works, Finished(s.at), d, true)
                    + (if !s.at[turn.w].doing.Idle? && s'.at[turn.w].doing.Idle?
                       then Share(push, d, true) else multiset{})
            && SentTo(works, Begun(s'.at), d, false)
                 == SentTo(works, Begun(s.at), d, false)
                    + (if s.at[turn.w].doing.Idle? then Share(push, d, false) else multiset{})
  {
    hide SentTo, Share, Counts, Step, Typed;
    StepAt(works, s, turn);
    FinishedAfter(works, s.at, Step(works, s, turn).at, turn.w, push, d);
    BegunAfter(works, s.at, Step(works, s, turn).at, turn.w, push, d);
  }

  /** What a step of block w does to the bags other than the one it is pushing to. */
  lemma StepBeside(works: Works, s: State, turn: Turn, push: Push)
    requires Typed(works, s) && Acts(works, s, turn.w, push)
    ensures var s' := Step(works, s, turn);
            && (forall d :: 0 <= d < |s.priv| && (d != push.d || !push.serial) ==> s'.priv[d] == s.priv[d])
            && (forall d :: 0 <= d < |s.shared| && (d != push.d || push.serial) ==> s'.shared[d] == s.shared[d])
            && (!push.serial ==> !s.at[turn.w].doing.Serial? && !s'.at[turn.w].doing.Serial?)
            && (push.serial ==> !s.at[turn.w].doing.Calling? && !s'.at[turn.w].doing.Calling?)
  {
    hide C.Apply, S.Exec, C.Inv, C.WellFormed, S.InBounds;
    assert WorkerOk(works, s, turn.w);
  }

  lemma PrivOther(works: Works, s: State, turn: Turn, push: Push, d: nat, init: multiset<Particle>)
    requires Typed(works, s) && Typed(works, Step(works, s, turn)) && Acts(works, s, turn.w, push) && d < |s.priv|
    requires Counts(works, Finished(s.at)) && Counts(works, Begun(s.at)) && PrivOk(works, s, d, init)
    requires d != push.d || !push.serial
    ensures |s.priv| == |Step(works, s, turn).priv| && Counts(works, Finished(Step(works, s, turn).at))
    ensures PrivOk(works, Step(works, s, turn), d, init)
  {
    StepGrows(works, s, turn);
    StepAt(works, s, turn);
    StepBeside(works, s, turn, push);
    SentAfter(works, s, turn, push, d);
    hide Step, Typed, Counts, SentTo, PrivOk, Grows;
    PrivBeside(works, s, Step(works, s, turn), turn.w, d, init);
  }

  lemma SharedOther(works: Works, s: State, turn: Turn, push: Push, d: nat, init: multiset<Particle>)
    requires Typed(works, s) && Typed(works, Step(works, s, turn)) && Acts(works, s, turn.w, push) && d < |s.shared|
    requires Counts(works, Finished(s.at)) && Counts(works, Begun(s.at)) && SharedOk(works, s, d, init)
    requires d != push.d || push.serial
    ensures |s.shared| == |Step(works, s, turn).shared| && Counts(works, Begun(Step(works, s, turn).at))
    ensures SharedOk(works, Step(works, s, turn), d, init)
  {
    StepGrows(works, s, turn);
    StepAt(works, s, turn);
    StepBeside(works, s, turn, push);
    SentAfter(works, s, turn, push, d);
    hide Step, Typed, Counts, SentTo, SharedOk, Grows;
    var s' := Step(works, s, turn);
    forall v: nat, t: nat | Awaits(works, s, v, d, t)
      ensures Awaits(works, s', v, d, t)
    {
    }
    SharedBeside(works, s, s', d, init);
  }

  /** The bag that block w is pushing to serially. */
  lemma PrivOwn(works: Works, s: State, turn: Turn, push: Push, init: multiset<Particle>)
    requires Exclusive(works) && Typed(works, s) && Typed(works, Step(works, s, turn)) && Acts(works, s, turn.w, push)
    requires push.serial && push.d < |s.priv|
    requires Counts(works, Finished(s.at)) && Counts(works, Begun(s.at)) && PrivOk(works, s, push.d, init)
    ensures |s.priv| == |Step(works, s, turn).priv| && Counts(works, Finished(Step(works, s, turn).at))
    ensures PrivOk(works, Step(works, s, turn), push.d, init)
  {
    var w, d := turn.w, push.d;
    AloneWithIt(works, s, w, d);
    StepGrows(works, s, turn);
    StepAt(works, s, turn);
    SentAfter(works, s, turn, push, d);
    PrivChange(works, s, turn, push, init);
    hide Step, Typed, Counts, SentTo, PrivOk, Grows, S.Busy, S.AtRest, S.Held, Share;
    var s' := Step(works, s, turn);
    BaseAfter(init, SentTo(works, Finished(s.at), d, true), SentTo(works, Finished(s'.at), d, true), push,
              !s.at[w].doing.Idle? && s'.at[w].doing.Idle?);
    PrivAlone(works, s, Step(works, s, turn), w, d, init);
  }

  lemma BaseAfter(init: multiset<Particle>, sent: multiset<Particle>, sent': multiset<Particle>, push: Push,
                  ended: bool)
    requires push.serial && sent' == sent + if ended then Share(push, push.d, true) else multiset{}
    ensures init + sent' == if ended then init + sent + multiset{push.p} else init + sent
  {
  }

  lemma PrivChange(works: Works, s: State, turn: Turn, push: Push, init: multiset<Particle>)
    requires Typed(works, s) && Acts(works, s, turn.w, push) && push.serial && push.d < |s.priv|
    requires Counts(works, Finished(s.at)) && PrivOk(works, s, push.d, init) && Alone(works, s, turn.w, push.d)
    ensures var s', base := Step(works, s, turn), init + SentTo(works, Finished(s.at), push.d, true);
            && |s'.priv| == |s.priv|
            && match s'.at[turn.w].doing
               case Serial(pc) => S.Busy(s'.priv[push.d], pc, push.p, base)
               case _ =>
                 s.at[turn.w].doing.Serial? && S.AtRest(s'.priv[push.d])
                     && S.Held(s'.priv[push.d]) == base + multiset{push.p}
  {
    var w, d, base := turn.w, push.d, init + SentTo(works, Finished(s.at), push.d, true);
    assert WorkerOk(works, s, w);
    hide SentTo, Counts, C.Apply, C.Inv, C.WellFormed, S.InBounds, S.Exec, S.AtRest, S.Held;
    match s.at[w].doing
    case Serial(pc) =>
      assert Pushing(works, s, w, d);
      assert S.Busy(s.priv[d], pc, push.p, base);
      if !pc.Returned? {
        S.ExecKeepsBusy(s.priv[d], pc, push.p, base, turn.slots);
      }
    case Idle =>
      forall v: nat
        ensures !Pushing(works, s, v, d)
      {
      }
    case Calling(_) => assert false;
  }

  // ----- the steps of a concurrent push

  lemma BeginPushed(b: C.State, p: Particle)
    requires C.WellFormed(b)
    ensures ParticlesPushed(C.Apply(b, C.Begin(p)).calls) == ParticlesPushed(b.calls) + multiset{p}
  {
    var n, calls := |b.calls|, C.Apply(b, C.Begin(p)).calls;
    assert seq(n + 1, t requires 0 <= t < n + 1 => calls[t].p) == seq(n, t requires 0 <= t < n => b.calls[t].p) + [p];
  }

  /** A step of a call starts no call and returns at most that one. */
  lemma ActPushed(b: C.State, t: nat, chunk: C.Chunk)
    requires C.WellFormed(b) && t < |b.calls|
    ensures var calls := C.Apply(b, C.Act(t, chunk)).calls;
            && |calls| == |b.calls| && ParticlesPushed(calls) == ParticlesPushed(b.calls)
            && forall u :: 0 <= u < |calls| && !calls[u].pc.Done? ==> !b.calls[u].pc.Done?
  {
    var n, calls := |b.calls|, C.Apply(b, C.Act(t, chunk)).calls;
    assert forall u :: 0 <= u < n ==> calls[u].p == b.calls[u].p;
    assert seq(n, u requires 0 <= u < n => calls[u].p) == seq(n, u requires 0 <= u < n => b.calls[u].p);
  }

  lemma StepBegins(works: Works, s: State, turn: Turn, push: Push)
    requires Typed(works, s) && Acts(works, s, turn.w, push) && !push.serial && s.at[turn.w].doing.Idle?
    requires push.d < |s.shared|
    ensures C.WellFormed(s.shared[push.d])
    ensures var d, s', b := push.d, Step(works, s, turn), C.Apply(s.shared[push.d], C.Begin(push.p));
            && |s.at| == |s'.at| == |works| && s'.shared == s.shared[d := b]
            && s'.at == s.at[turn.w := Progress(s.at[turn.w].next, Calling(|s.shared[d].calls|))]
  {
    hide C.Inv, C.WellFormed, C.Apply, S.InBounds, S.Exec;
  }

  lemma SharedAfterBegin(works: Works, s: State, turn: Turn, push: Push, init: multiset<Particle>)
    requires Typed(works, s) && Typed(works, Step(works, s, turn)) && Acts(works, s, turn.w, push)
    requires !push.serial && push.d < |s.shared| && s.at[turn.w].doing.Idle?
    requires Counts(works, Finished(s.at)) && Counts(works, Begun(s.at)) && SharedOk(works, s, push.d, init)
    ensures |s.shared| == |Step(works, s, turn).shared| && Counts(works, Begun(Step(works, s, turn).at))
    ensures SharedOk(works, Step(works, s, turn), push.d, init)
  {
    hide Step, Typed, Counts, SentTo, Balanced, ParticlesPushed, C.Inv, C.WellFormed, S.InBounds, S.Exec;
    var w, d, s', b := turn.w, push.d, Step(works, s, turn), s.shared[push.d];
    StepBegins(works, s, turn, push);
    SentAfter(works, s, turn, push, d);
    BeginPushed(b, push.p);
    ApplyKeepsBalance(b, C.Begin(push.p));
    assert forall t :: 0 <= t < |b.calls| ==> s'.shared[d].calls[t] == b.calls[t];
    forall t: nat | t < |s'.shared[d].calls| && !s'.shared[d].calls[t].pc.Done?
      ensures exists v: nat :: Awaits(works, s', v, d, t)
    {
      if t == |b.calls| {
        assert Awaits(works, s', w, d, t);
      } else {
        var v: nat :| Awaits(works, s, v, d, t);
        assert Awaits(works, s', v, d, t);
      }
    }
  }

  lemma SharedAfterAct(works: Works, s: State, turn: Turn, push: Push, init: multiset<Particle>)
    requires Typed(works, s) && Typed(works, Step(works, s, turn)) && Acts(works, s, turn.w, push)
    requires !push.serial && push.d < |s.shared| && s.at[turn.w].doing.Calling?
    requires s.at[turn.w].doing.t < |s.shared[push.d].calls| && !s.shared[push.d].calls[s.at[turn.w].doing.t].pc.Done?
    requires Counts(works, Finished(s.at)) && Counts(works, Begun(s.at)) && SharedOk(works, s, push.d, init)
    ensures |s.shared| == |Step(works, s, turn).shared| && Counts(works, Begun(Step(works, s, turn).at))
    ensures SharedOk(works, Step(works, s, turn), push.d, init)
  {
    hide C.Inv, C.WellFormed, S.InBounds, S.Exec, Balanced;
    var w, d, s', b := turn.w, push.d, Step(works, s, turn), s.shared[push.d];
    var e := C.Act(s.at[w].doing.t, turn.chunk);
    SentAfter(works, s, turn, push, d);
    ActPushed(b, s.at[w].doing.t, turn.chunk);
    ApplyKeepsBalance(b, e);
    assert s' == s.(shared := s.shared[d := C.Apply(b, e)]);
    hide Step, Typed, Counts, SentTo, Balanced, ParticlesPushed, C.Apply, Share;
    forall t: nat | t < |s'.shared[d].calls| && !s'.shared[d].calls[t].pc.Done?
      ensures exists v: nat :: Awaits(works, s', v, d, t)
    {
      var v: nat :| Awaits(works, s, v, d, t);
      assert Awaits(works, s', v, d, t);
    }
  }

  lemma SharedAfterEnd(works: Works, s: State, turn: Turn, push: Push, init: multiset<Particle>)
    requires Typed(works, s) && Typed(works, Step(works, s, turn)) && Acts(works, s, turn.w, push)
    requires !push.serial && push.d < |s.shared| && s.at[turn.w].doing.Calling?
    requires s.at[turn.w].doing.t < |s.shared[push.d].calls| && s.shared[push.d].calls[s.at[turn.w].doing.t].pc.Done?
    requires Counts(works, Finished(s.at)) && Counts(works, Begun(s.at)) && SharedOk(works, s, push.d, init)
    ensures |s.shared| == |Step(works, s, turn).shared| && Counts(works, Begun(Step(works, s, turn).at))
    ensures SharedOk(works, Step(works, s, turn), push.d, init)
  {
    hide C.Inv, C.WellFormed, S.InBounds, S.Exec, Balanced;
    var w, d, s' := turn.w, push.d, Step(works, s, turn);
    SentAfter(works, s, turn, push, d);
    StepAt(works, s, turn);
    assert s'.shared == s.shared;
    hide Step, Typed, Counts, SentTo, SharedOk, Share;
    forall v: nat, t: nat | Awaits(works, s, v, d, t)
      ensures Awaits(works, s', v, d, t) || (t < |s.shared[d].calls| && s.shared[d].calls[t].pc.Done?)
    {
    }
    SharedBeside(works, s, s', d, init);
  }

  /** The bag that block w is pushing to concurrently. */
  lemma SharedOwn(works: Works, s: State, turn: Turn, push: Push, init: multiset<Particle>)
    requires Typed(works, s) && Typed(works, Step(works, s, turn)) && Acts(works, s, turn.w, push)
    requires !push.serial && push.d < |s.shared|
    requires Counts(works, Finished(s.at)) && Counts(works, Begun(s.at)) && SharedOk(works, s, push.d, init)
    ensures |s.shared| == |Step(works, s, turn).shared| && Counts(works, Begun(Step(works, s, turn).at))
    ensures SharedOk(works, Step(works, s, turn), push.d, init)
  {
    var doing := s.at[turn.w].doing;
    assert WorkerOk(works, s, turn.w);
    hide Typed, Step, Counts, SharedOk;
    match doing
    case Idle => SharedAfterBegin(works, s, turn, push, init);
    case Calling(t) =>
      if s.shared[push.d].calls[t].pc.Done? {
        SharedAfterEnd(works, s, turn, push, init);
      } else {
        SharedAfterAct(works, s, turn, push, init);
      }
    case Serial(_) => assert false;
  }

  /** Every step of every block keeps the invariant. */
  lemma StepKeepsOk(works: Works, s: State, turn: Turn, priv0: seq<multiset<Particle>>,
                    shared0: seq<multiset<Particle>>)
    requires Exclusive(works) && Ok(works, s, priv0, shared0)
    ensures Ok(works, Step(works, s, turn), priv0, shared0)
  {
    var w, s' := turn.w, Step(works, s, turn);
    StepKeepsTyped(works, s, turn);
    if w < |works| && s.at[w].next < |works[w]| {
      var push := works[w][s.at[w].next];
      assert push.d < |s.priv| == |s.shared|;
      StepGrows(works, s, turn);
      SentAfter(works, s, turn, push, 0);
      hide Step, Typed, Counts, PrivOk, SharedOk, Exclusive, Grows, SentTo;
      forall d: nat | d < |s.priv|
        ensures |s'.priv| == |s.priv| == |s'.shared| && PrivOk(works, s', d, priv0[d])
                && SharedOk(works, s', d, shared0[d])
      {
        if d == push.d && push.serial {
          PrivOwn(works, s, turn, push, priv0[d]);
        } else {
          PrivOther(works, s, turn, push, d, priv0[d]);
        }
        if d == push.d && !push.serial {
          SharedOwn(works, s, turn, push, shared0[d]);
        } else {
          SharedOther(works, s, turn, push, d, shared0[d]);
        }
      }
    }
  }

  // ----- whole phases

  /** The two next bags of every cell. */
  datatype Bags = Bags(priv: seq<S.Chain>, shared: seq<C.State>)

  /** No push is under way on any of them. */
  ghost predicate Settled(b: Bags) {
    && |b.priv| == |b.shared|
    && (forall d :: 0 <= d < |b.priv| ==> S.AtRest(b.priv[d]))
    && (forall d :: 0 <= d < |b.shared| ==> C.Inv(b.shared[d]) && Balanced(b.shared[d]) && Quiescent(b.shared[d]))
  }

  /** What the chunks of the two bags of cell d hold. */
  ghost function PrivateHeld(b: Bags, d: nat): multiset<Particle>
    requires Settled(b) && d < |b.priv|
  {
    S.Held(b.priv[d])
  }

  ghost function SharedHeld(b: Bags, d: nat): multiset<Particle>
    requires Settled(b) && d < |b.priv|
  {
    multiset(ContentsFrom(b.shared[d], b.shared[d].front))
  }

  predicate InRange(works: Works, n: int) {
    forall w, i :: 0 <= w < |works| && 0 <= i < |works[w]| ==> works[w][i].d < n
  }

  /** All blocks are about to begin. */
  function Start(works: Works, b: Bags): (s: State) {
    State(b.priv, b.shared, seq(|works|, _ => Progress(0, Idle)))
  }

  lemma RestInBounds(s: S.Chain)
    requires S.AtRest(s)
    ensures S.InBounds(s, S.LoadFront)
  {
    S.BusyInBounds(s, S.LoadFront, Particle(0.0, 0.0, 0.0, 0.0, 0.0, 0.0), S.Held(s));
  }

  lemma StartTyped(works: Works, b: Bags)
    requires Settled(b) && InRange(works, |b.priv|)
    ensures Typed(works, Start(works, b))
  {
    forall d | 0 <= d < |b.priv|
      ensures S.InBounds(b.priv[d], S.LoadFront) && C.WellFormed(b.shared[d])
    {
      RestInBounds(b.priv[d]);
      C.InvWellFormed(b.shared[d]);
    }
    hide S.InBounds, S.AtRest, C.Inv, C.WellFormed;
    forall w | 0 <= w < |works|
      ensures WorkerOk(works, Start(works, b), w)
    {
    }
  }

  lemma {:induction false} NothingSent(works: Works, counts: seq<nat>, n: nat, d: nat, serial: bool)
    requires Counts(works, counts) && n <= |works| && forall w :: 0 <= w < |works| ==> counts[w] == 0
    ensures SentUpTo(works, counts, n, d, serial) == multiset{}
  {
    if n > 0 {
      NothingSent(works, counts, n - 1, d, serial);
    }
  }

  ghost function PrivateInit(b: Bags): (init: seq<multiset<Particle>>)
    requires Settled(b)
    ensures |init| == |b.priv| && forall d :: 0 <= d < |init| ==> init[d] == PrivateHeld(b, d)
  {
    seq(|b.priv|, d requires 0 <= d < |b.priv| => PrivateHeld(b, d))
  }

  ghost function SharedInit(b: Bags): (init: seq<multiset<Particle>>)
    requires Settled(b)
    ensures |init| == |b.priv| && forall d :: 0 <= d < |init| ==> init[d] == SharedHeld(b, d)
  {
    seq(|b.priv|, d requires 0 <= d < |b.priv| => SharedHeld(b, d))
  }

  lemma StartOk(works: Works, b: Bags)
    requires Settled(b) && InRange(works, |b.priv|)
    ensures Ok(works, Start(works, b), PrivateInit(b), SharedInit(b))
  {
    var s := Start(works, b);
    StartTyped(works, b);
    CountsOk(works, s);
    hide Typed, Counts, C.Inv, S.AtRest, S.Held, Balanced;
    forall d: nat | d < |b.priv|
      ensures PrivOk(works, s, d, PrivateInit(b)[d]) && SharedOk(works, s, d, SharedInit(b)[d])
    {
      NothingSent(works, Finished(s.at), |works|, d, true);
      NothingSent(works, Begun(s.at), |works|, d, false);
      QuiescentState(b.shared[d]);
    }
  }

  /** The state after any interleaving of the blocks' steps, whether or not they race. */
  ghost function After(works: Works, b: Bags, turns: seq<Turn>): (s: State)
    requires Settled(b) && InRange(works, |b.priv|)
    ensures Typed(works, s)
  {
    if turns == [] then
      StartTyped(works, b);
      Start(works, b)
    else
      var before, turn := After(works, b, turns[..|turns| - 1]), turns[|turns| - 1];
      StepKeepsTyped(works, before, turn);
      Step(works, before, turn)
  }

  lemma {:induction false} AfterOk(works: Works, b: Bags, turns: seq<Turn>)
    requires Settled(b) && InRange(works, |b.priv|) && Exclusive(works)
    ensures Ok(works, After(works, b, turns), PrivateInit(b), SharedInit(b))
  {
    hide Step, Typed, Ok, Settled, InRange, Exclusive;
    if turns == [] {
      StartOk(works, b);
    } else {
      AfterOk(works, b, turns[..|turns| - 1]);
      StepKeepsOk(works, After(works, b, turns[..|turns| - 1]), turns[|turns| - 1], PrivateInit(b), SharedInit(b));
    }
  }

  /** Every block has finished all its pushes. */
  ghost predicate AllDone(works: Works, s: State) {
    |s.at| == |works| && forall w :: 0 <= w < |works| ==> s.at[w] == Progress(|works[w]|, Idle)
  }

  function Lengths(works: Works): (counts: seq<nat>)
    ensures Counts(works, counts)
  {
    seq(|works|, w requires 0 <= w < |works| => |works[w]|)
  }

  /** At every moment of every interleaving, at most one block is pushing to the PRIVATE bag of a cell. */
  lemma PrivateBagHasOnePusher(works: Works, b: Bags, turns: seq<Turn>, v: nat, w: nat, d: nat)
    requires Settled(b) && InRange(works, |b.priv|) && Exclusive(works)
    requires Pushing(works, After(works, b, turns), v, d) && Pushing(works, After(works, b, turns), w, d)
    ensures v == w
  {
    SinglePusher(works, After(works, b, turns), v, w, d);
  }

  /** The turn of the block that awaits a call that can move changes the bag. */
  lemma AwaitedCallMoves(works: Works, s: State, turn: Turn, d: nat, t: nat)
    requires Typed(works, s) && Awaits(works, s, turn.w, d, t) && d < |s.shared|
    requires t < |s.shared[d].calls| && !P.Idle(s.shared[d], t)
    ensures Step(works, s, turn) != s
  {
    assert WorkerOk(works, s, turn.w);
    var b := s.shared[d];
    P.IdleIff(b, t, turn.chunk);
    assert C.Apply(b, C.Act(t, turn.chunk)) != b;
    hide C.Apply, C.Inv, C.WellFormed, S.InBounds, S.Exec;
    assert Step(works, s, turn).shared[d] != b;
  }

  /** A block that is not in the middle of a concurrent push can always move. */
  lemma BlockMoves(works: Works, s: State, turn: Turn)
    requires Typed(works, s) && turn.w < |works| && s.at[turn.w].next < |works[turn.w]|
    requires var push := works[turn.w][s.at[turn.w].next];
             s.at[turn.w].doing.Calling? ==>
               push.d < |s.shared| && s.at[turn.w].doing.t < |s.shared[push.d].calls|
               && s.shared[push.d].calls[s.at[turn.w].doing.t].pc.Done?
    ensures Step(works, s, turn) != s
  {
    var w, push := turn.w, works[turn.w][s.at[turn.w].next];
    assert WorkerOk(works, s, w);
    if s.at[w].doing.Serial? && !s.at[w].doing.pc.Returned? {
      S.ExecMoves(s.priv[push.d], s.at[w].doing.pc, push.p, turn.slots);
    }
    hide C.Apply, C.Inv, C.WellFormed, S.InBounds, S.Exec;
    assert Step(works, s, turn).at[w] != s.at[w];
  }

  /** Every turn of block w changes the state, whatever malloc returns. */
  ghost predicate CanMove(works: Works, s: State, w: nat)
    requires Typed(works, s)
  {
    w < |works| && forall turn: Turn :: turn.w == w ==> Step(works, s, turn) != s
  }

  /** No deadlock: as long as a block has not finished, some block can move. */
  lemma SomeBlockMoves(works: Works, b: Bags, turns: seq<Turn>)
    requires Settled(b) && InRange(works, |b.priv|) && Exclusive(works) && !AllDone(works, After(works, b, turns))
    ensures exists w: nat :: CanMove(works, After(works, b, turns), w)
  {
    AfterOk(works, b, turns);
    BlockCanMove(works, After(works, b, turns), PrivateInit(b), SharedInit(b));
  }

  lemma BlockCanMove(works: Works, s: State, priv0: seq<multiset<Particle>>, shared0: seq<multiset<Particle>>)
    requires Ok(works, s, priv0, shared0) && !AllDone(works, s)
    ensures exists w: nat :: CanMove(works, s, w)
  {
    var w: nat :| w < |works| && s.at[w] != Progress(|works[w]|, Idle);
    assert WorkerOk(works, s, w);
    var push := works[w][s.at[w].next];
    var doing, d := s.at[w].doing, push.d;
    hide Step, C.Inv, C.WellFormed, S.InBounds, Balanced, SentTo, PrivOk;
    if doing.Calling? && !s.shared[d].calls[doing.t].pc.Done? {
      var u := P.CallThatMoves(s.shared[d], doing.t);
      assert SharedOk(works, s, d, shared0[d]);
      var v: nat :| Awaits(works, s, v, d, u);
      forall turn: Turn | turn.w == v
        ensures Step(works, s, turn) != s
      {
        AwaitedCallMoves(works, s, turn, d, u);
      }
      assert CanMove(works, s, v);
    } else {
      forall turn: Turn | turn.w == w
        ensures Step(works, s, turn) != s
      {
        BlockMoves(works, s, turn);
      }
      assert CanMove(works, s, w);
    }
  }

  lemma DoneBag(works: Works, s: State, d: nat, priv0: seq<multiset<Particle>>, shared0: seq<multiset<Particle>>)
    requires Ok(works, s, priv0, shared0) && AllDone(works, s) && d < |s.priv|
    ensures S.AtRest(s.priv[d]) && S.Held(s.priv[d]) == priv0[d] + SentTo(works, Lengths(works), d, true)
    ensures C.Inv(s.shared[d]) && Balanced(s.shared[d]) && Quiescent(s.shared[d])
    ensures multiset(ContentsFrom(s.shared[d], s.shared[d].front))
            == shared0[d] + SentTo(works, Lengths(works), d, false)
  {
    assert Finished(s.at) == Lengths(works) == Begun(s.at);
    assert PrivOk(works, s, d, priv0[d]) && SharedOk(works, s, d, shared0[d]);
    hide SentTo, C.Inv, S.AtRest, S.Held, S.Busy, Balanced, Counts, ParticlesPushed;
    forall w: nat
      ensures !Pushing(works, s, w, d)
    {
    }
    forall t: nat | t < |s.shared[d].calls|
      ensures s.shared[d].calls[t].pc.Done?
    {
      forall w: nat
        ensures !Awaits(works, s, w, d, t)
      {
      }
    }
    QuiescentState(s.shared[d]);
  }

  /**
   Whatever the interleaving, once all blocks have finished, every next bag holds exactly what
   it held before and the particles sent to it.
   */
  lemma PhaseDelivers(works: Works, b: Bags, turns: seq<Turn>)
    requires Settled(b) && InRange(works, |b.priv|) && Exclusive(works) && AllDone(works, After(works, b, turns))
    ensures var s := After(works, b, turns);
            var b' := Bags(s.priv, s.shared);
            && Settled(b') && |b'.priv| == |b.priv|
            && forall d: nat :: d < |b.priv| ==>
                 && PrivateHeld(b', d) == PrivateHeld(b, d) + SentTo(works, Lengths(works), d, true)
                 && SharedHeld(b', d) == SharedHeld(b, d) + SentTo(works, Lengths(works), d, false)
  {
    var s := After(works, b, turns);
    AfterOk(works, b, turns);
    forall d: nat | d < |s.priv|
      ensures S.AtRest(s.priv[d]) && S.Held(s.priv[d]) == PrivateHeld(b, d) + SentTo(works, Lengths(works), d, true)
      ensures C.Inv(s.shared[d]) && Balanced(s.shared[d]) && Quiescent(s.shared[d])
      ensures multiset(ContentsFrom(s.shared[d], s.shared[d].front))
              == SharedHeld(b, d) + SentTo(works, Lengths(works), d, false)
    {
      DoneBag(works, s, d, PrivateInit(b), SharedInit(b));
    }
    hide C.Inv, S.AtRest, S.Held, Balanced, Quiescent, SentTo;
  }

  // ----- in terms of the particles sent

  lemma ShareCounts(push: Push, d: nat, serial: bool, p: Particle)
    ensures Share(push, d, serial)[p] == multiset([push])[Push(d, p, serial)]
  {
  }

  lemma CountConcat<T>(a: seq<T>, b: seq<T>, x: T)
    ensures multiset(a + b)[x] == multiset(a)[x] + multiset(b)[x]
  {
  }

  lemma CountJoin<T>(a: multiset<T>, b: multiset<T>, x: T)
    ensures (a + b)[x] == a[x] + b[x]
  {
  }

  lemma {:induction false} ToCounts(work: seq<Push>, k: nat, d: nat, serial: bool, p: Particle)
    requires k <= |work|
    ensures To(work, k, d, serial)[p] == multiset(work[..k])[Push(d, p, serial)]
  {
    hide Share;
    if k > 0 {
      ToCounts(work, k - 1, d, serial, p);
      ShareCounts(work[k - 1], d, serial, p);
      assert work[..k] == work[..k - 1] + [work[k - 1]];
      CountConcat(work[..k - 1], [work[k - 1]], Push(d, p, serial));
      CountJoin(To(work, k - 1, d, serial), Share(work[k - 1], d, serial), p);
    }
  }

  function AllPushes(works: Works): seq<Push> {
    if works == [] then [] else AllPushes(works[..|works| - 1]) + works[|works| - 1]
  }

  lemma AllPushesNext(works: Works, n: nat)
    requires n < |works|
    ensures AllPushes(works[..n + 1]) == AllPushes(works[..n]) + works[n]
  {
    assert works[..n + 1][..n] == works[..n];
  }

  lemma {:induction false} SentUpToCounts(works: Works, n: nat, d: nat, serial: bool, p: Particle)
    requires n <= |works|
    ensures SentUpTo(works, Lengths(works), n, d, serial)[p] == multiset(AllPushes(works[..n]))[Push(d, p, serial)]
  {
    assert AllPushes(works[..0]) == [];
    hide To, AllPushes;
    if n > 0 {
      var work := works[n - 1];
      SentUpToCounts(works, n - 1, d, serial, p);
      ToCounts(work, |work|, d, serial, p);
      AllPushesNext(works, n - 1);
      CountConcat(AllPushes(works[..n - 1]), work, Push(d, p, serial));
      CountJoin(SentUpTo(works, Lengths(works), n - 1, d, serial), To(work, |work|, d, serial), p);
      assert work[..|work|] == work;
    }
  }

  lemma SentCounts(works: Works, d: nat, serial: bool, p: Particle)
    ensures SentTo(works, Lengths(works), d, serial)[p] == multiset(AllPushes(works))[Push(d, p, serial)]
  {
    SentUpToCounts(works, |works|, d, serial, p);
    assert works[..|works|] == works;
  }
}
