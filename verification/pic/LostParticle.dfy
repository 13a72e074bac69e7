/** What happens when two blocks push serially to one bag: a particle can be lost. */
module LostParticle {
  import opened Particles
  import opened Grid
  import opened Race
  import opened ColourPhase
  import opened SerialPush
  import C = ConcurrentBag

  // ----- n steps of one push

  function ExecTimes(s: Chain, pc: Pc, p: Particle, slots: seq<Particle>, n: nat): (r: (Chain, Pc))
    requires InBounds(s, pc)
    ensures InBounds(r.0, r.1) && forall other :: InBounds(s, other) ==> InBounds(r.0, other)
  {
    if n == 0 then (s, pc)
    else
      var (s', pc') := ExecTimes(s, pc, p, slots, n - 1);
      Exec(s', pc', p, slots)
  }

  function WithSize(s: Chain, n: nat): Chain
    requires s.front < |s.nodes|
  {
    SetNode(s, s.front, s.nodes[s.front].(size := n))
  }

  function WithSlot(s: Chain, i: nat, p: Particle): Chain
    requires s.front < |s.nodes| && i < |s.nodes[s.front].slots|
  {
    SetNode(s, s.front, s.nodes[s.front].(slots := s.nodes[s.front].slots[i := p]))
  }

  lemma ThreeLoads(s: Chain, p: Particle, slots: seq<Particle>)
    requires InBounds(s, LoadFront)
    ensures ExecTimes(s, LoadFront, p, slots, 1) == (s, LoadIndex(s.front))
    ensures ExecTimes(s, LoadFront, p, slots, 2) == (s, LoadSize(s.front, s.nodes[s.front].size))
    ensures ExecTimes(s, LoadFront, p, slots, 3)
         == (s, StoreSize(s.front, s.nodes[s.front].size, s.nodes[s.front].size))
  {
    assert ExecTimes(s, LoadFront, p, slots, 0) == (s, LoadFront);
  }

  function Partly(slot: Particle, p: Particle, k: nat): Particle
    requires k <= FIELDS
  {
    if k == 0 then slot else StoreField(Partly(slot, p, k - 1), p, k - 1)
  }

  lemma AllFields(slot: Particle, p: Particle)
    ensures Partly(slot, p, FIELDS) == p
  {
    assert Partly(slot, p, 1) == StoreField(slot, p, 0);
    assert Partly(slot, p, 3) == StoreField(StoreField(Partly(slot, p, 1), p, 1), p, 2);
    assert Partly(slot, p, 5) == StoreField(StoreField(Partly(slot, p, 3), p, 3), p, 4);
  }

  lemma {:induction false} Stores(s: Chain, i: nat, p: Particle, slots: seq<Particle>, k: nat)
    requires InBounds(s, StoreItem(s.front, i, 0)) && i < CHUNK_SIZE - 1 && k <= FIELDS
    ensures ExecTimes(s, StoreItem(s.front, i, 0), p, slots, k)
         == (WithSlot(s, i, Partly(s.nodes[s.front].slots[i], p, k)),
             if k < FIELDS then StoreItem(s.front, i, k) else Returned)
  {
    hide StoreField;
    if k > 0 {
      Stores(s, i, p, slots, k - 1);
      SlotAgain(s, i, Partly(s.nodes[s.front].slots[i], p, k - 1), Partly(s.nodes[s.front].slots[i], p, k));
    } else {
      SameSlot(s, i);
    }
  }

  lemma SameSlot(s: Chain, i: nat)
    requires s.front < |s.nodes| && i < |s.nodes[s.front].slots|
    ensures WithSlot(s, i, s.nodes[s.front].slots[i]) == s
  {
    var node := s.nodes[s.front];
    assert node.slots[i := node.slots[i]] == node.slots;
    assert s.nodes[s.front := node] == s.nodes;
  }

  lemma SlotAgain(s: Chain, i: nat, p: Particle, q: Particle)
    requires s.front < |s.nodes| && i < |s.nodes[s.front].slots|
    ensures WithSlot(WithSlot(s, i, p), i, q) == WithSlot(s, i, q)
  {
    var slots := s.nodes[s.front].slots;
    assert slots[i := p][i := q] == slots[i := q];
    assert WithSlot(WithSlot(s, i, p), i, q).nodes == WithSlot(s, i, q).nodes;
  }

  // ----- n steps of one block

  function Times(turn: Turn, n: nat): (turns: seq<Turn>)
    ensures |turns| == n
  {
    seq(n, _ => turn)
  }

  /** Block w stands at pc of its push to cell d, whose chain is given. */
  function Standing(s: State, w: nat, d: nat, chain: Chain, pc: Pc): State
    requires w < |s.at| && d < |s.priv|
  {
    Moved(s.(priv := s.priv[d := chain]), w, s.at[w].next, Serial(pc))
  }

  lemma StandingAgain(s: State, w: nat, d: nat, chain: Chain, pc: Pc, chain': Chain, pc': Pc)
    requires w < |s.at| && d < |s.priv|
    ensures Standing(Standing(s, w, d, chain, pc), w, d, chain', pc') == Standing(s, w, d, chain', pc')
    ensures s.at[w].doing == Serial(pc) && s.priv[d] == chain ==> Standing(s, w, d, chain, pc) == s
  {
  }

  lemma SerialStep(works: Works, s: State, turn: Turn, push: Push, chain: Chain, pc: Pc)
    requires Typed(works, s) && Acts(works, s, turn.w, push) && push.d < |s.priv| && InBounds(chain, pc)
             && !pc.Returned?
    requires s.priv[push.d] == chain && s.at[turn.w].doing == Serial(pc)
    ensures var (chain', pc') := Exec(chain, pc, push.p, turn.slots);
            Step(works, s, turn) == Standing(s, turn.w, push.d, chain', pc')
  {
    hide Exec, InBounds, C.Inv, C.WellFormed;
  }

  /** The same turn, n times. */
  ghost function StepTimes(works: Works, s: State, turn: Turn, n: nat): (s': State)
    requires Typed(works, s)
    ensures Typed(works, s')
  {
    if n == 0 then s
    else
      StepKeepsTyped(works, StepTimes(works, s, turn, n - 1), turn);
      Step(works, StepTimes(works, s, turn, n - 1), turn)
  }

  lemma {:induction false} AfterTimes(works: Works, b: Bags, turns: seq<Turn>, turn: Turn, n: nat)
    requires Settled(b) && InRange(works, |b.priv|)
    ensures After(works, b, turns + Times(turn, n)) == StepTimes(works, After(works, b, turns), turn, n)
  {
    hide Settled, InRange, Step, After, Typed;
    if n == 0 {
      assert turns + Times(turn, 0) == turns;
    } else {
      AfterTimes(works, b, turns, turn, n - 1);
      OneMoreTime(turns, turn, n);
      AfterNext(works, b, turns + Times(turn, n - 1), turn);
    }
  }

  /** Block turn.w, in the middle of a serial push, takes n steps that do not go beyond its end. */
  lemma {:induction false} BlockActs(works: Works, s: State, turn: Turn, push: Push, chain: Chain, pc: Pc, n: nat)
    requires Typed(works, s) && Acts(works, s, turn.w, push) && push.d < |s.priv| && turn.w < |s.at|
    requires InBounds(chain, pc) && s == Standing(s, turn.w, push.d, chain, pc)
    requires forall k: nat :: k < n ==> !ExecTimes(chain, pc, push.p, turn.slots, k).1.Returned?
    ensures var (chain', pc') := ExecTimes(chain, pc, push.p, turn.slots, n);
            StepTimes(works, s, turn, n) == Standing(s, turn.w, push.d, chain', pc')
  {
    hide Step, InBounds, Exec, Typed, Standing;
    if n > 0 {
      BlockActs(works, s, turn, push, chain, pc, n - 1);
      var (before, at) := ExecTimes(chain, pc, push.p, turn.slots, n - 1);
      OneMoreStep(works, s, StepTimes(works, s, turn, n - 1), turn, push, before, at);
    }
  }

  lemma OneMoreStep(works: Works, s: State, s': State, turn: Turn, push: Push, chain: Chain, pc: Pc)
    requires Typed(works, s) && Typed(works, s') && Acts(works, s, turn.w, push) && push.d < |s.priv| && turn.w < |s.at|
    requires InBounds(chain, pc) && !pc.Returned? && s' == Standing(s, turn.w, push.d, chain, pc)
    ensures var (chain', pc') := Exec(chain, pc, push.p, turn.slots);
            Step(works, s', turn) == Standing(s, turn.w, push.d, chain', pc')
  {
    hide Typed, InBounds, Exec, Step;
    SerialStep(works, s', turn, push, chain, pc);
    var (chain', pc') := Exec(chain, pc, push.p, turn.slots);
    StandingAgain(s, turn.w, push.d, chain, pc, chain', pc');
  }

  lemma OneMoreTime(turns: seq<Turn>, turn: Turn, n: nat)
    requires n > 0
    ensures turns + Times(turn, n) == turns + Times(turn, n - 1) + [turn]
  {
  }

  lemma AfterNext(works: Works, b: Bags, turns: seq<Turn>, turn: Turn)
    requires Settled(b) && InRange(works, |b.priv|)
    ensures After(works, b, turns + [turn]) == Step(works, After(works, b, turns), turn)
  {
    assert (turns + [turn])[..|turns|] == turns;
  }

  // ----- two blocks, one push each, to the same PRIVATE bag

  function TwoPushes(d: nat, p: Particle, q: Particle): (works: Works) {
    [[Push(d, p, true)], [Push(d, q, true)]]
  }

  function TurnOf(w: nat): Turn { Turn(w, [], C.Chunk(None, 0, [], [])) }

  /** Both blocks are in the middle of their push. */
  function Both(b: Bags, d: nat, chain: Chain, first: Pc, second: Pc): State
    requires d < |b.priv|
  {
    State(b.priv[d := chain], b.shared, [Progress(0, Serial(first)), Progress(0, Serial(second))])
  }

  lemma BothBegin(b: Bags, d: nat, p: Particle, q: Particle)
    requires Settled(b) && d < |b.priv|
    ensures InRange(TwoPushes(d, p, q), |b.priv|)
    ensures After(TwoPushes(d, p, q), b, [TurnOf(0)] + [TurnOf(1)]) == Both(b, d, b.priv[d], LoadFront, LoadFront)
  {
    var works := TwoPushes(d, p, q);
    AfterNext(works, b, [], TurnOf(0));
    AfterNext(works, b, [TurnOf(0)], TurnOf(1));
    assert [] + [TurnOf(0)] == [TurnOf(0)];
    assert After(works, b, []) == Start(works, b);
    hide Settled, C.Inv, C.WellFormed, InBounds, After, Step;
    FirstBegins(b, d, p, q, After(works, b, []));
    SecondBegins(b, d, p, q, After(works, b, [TurnOf(0)]));
  }

  lemma FirstBegins(b: Bags, d: nat, p: Particle, q: Particle, s: State)
    requires Typed(TwoPushes(d, p, q), s) && s == Start(TwoPushes(d, p, q), b)
    ensures Step(TwoPushes(d, p, q), s, TurnOf(0))
         == State(b.priv, b.shared, [Progress(0, Serial(LoadFront)), Progress(0, Idle)])
  {
    hide C.Inv, C.WellFormed, InBounds;
    assert s.at == [Progress(0, Idle), Progress(0, Idle)];
  }

  lemma SecondBegins(b: Bags, d: nat, p: Particle, q: Particle, s: State)
    requires d < |b.priv| && Typed(TwoPushes(d, p, q), s)
    requires s == State(b.priv, b.shared, [Progress(0, Serial(LoadFront)), Progress(0, Idle)])
    ensures Step(TwoPushes(d, p, q), s, TurnOf(1)) == Both(b, d, b.priv[d], LoadFront, LoadFront)
  {
    hide C.Inv, C.WellFormed, InBounds;
    assert b.priv[d := b.priv[d]] == b.priv;
  }

  /** Block w of the two takes n steps; it does not go beyond the end of its push. */
  lemma BothAct(b: Bags, d: nat, p: Particle, q: Particle, turns: seq<Turn>, w: nat, chain: Chain, first: Pc,
                second: Pc, n: nat)
    requires Settled(b) && d < |b.priv| && w < 2 && InRange(TwoPushes(d, p, q), |b.priv|)
    requires After(TwoPushes(d, p, q), b, turns) == Both(b, d, chain, first, second)
    requires var own, pc := if w == 0 then p else q, if w == 0 then first else second;
             InBounds(chain, pc) && forall k: nat :: k < n ==> !ExecTimes(chain, pc, own, [], k).1.Returned?
    ensures var (chain', pc') := ExecTimes(chain, if w == 0 then first else second, if w == 0 then p else q, [], n);
            After(TwoPushes(d, p, q), b, turns + Times(TurnOf(w), n))
              == Both(b, d, chain', if w == 0 then pc' else first, if w == 0 then second else pc')
  {
    var works, s, pc := TwoPushes(d, p, q), Both(b, d, chain, first, second), if w == 0 then first else second;
    var push := Push(d, if w == 0 then p else q, true);
    assert Acts(works, s, w, push) && d < |s.priv| && w < |s.at|;
    hide Settled, InRange, Typed, InBounds, ExecTimes, StepTimes, After, Both, Standing, Acts, TwoPushes;
    AfterTimes(works, b, turns, TurnOf(w), n);
    BothStanding(b, d, chain, first, second, w, chain, pc);
    BlockActs(works, s, TurnOf(w), push, chain, pc, n);
    var (chain', pc') := ExecTimes(chain, pc, push.p, [], n);
    BothStanding(b, d, chain, first, second, w, chain', pc');
  }

  lemma BothStanding(b: Bags, d: nat, chain: Chain, first: Pc, second: Pc, w: nat, chain': Chain, pc': Pc)
    requires d < |b.priv| && w < 2
    ensures Standing(Both(b, d, chain, first, second), w, d, chain', pc')
         == Both(b, d, chain', if w == 0 then pc' else first, if w == 0 then second else pc')
  {
  }

  lemma BothEnd(b: Bags, d: nat, p: Particle, q: Particle, turns: seq<Turn>, chain: Chain)
    requires Settled(b) && d < |b.priv| && InRange(TwoPushes(d, p, q), |b.priv|)
    requires After(TwoPushes(d, p, q), b, turns) == Both(b, d, chain, Returned, Returned)
    ensures var s := After(TwoPushes(d, p, q), b, turns + [TurnOf(0)] + [TurnOf(1)]);
            && AllDone(TwoPushes(d, p, q), s)
            && s == State(b.priv[d := chain], b.shared, [Progress(1, Idle), Progress(1, Idle)])
  {
    var works := TwoPushes(d, p, q);
    AfterNext(works, b, turns, TurnOf(0));
    AfterNext(works, b, turns + [TurnOf(0)], TurnOf(1));
    hide Settled, After, C.Inv, C.WellFormed, InBounds;
  }

  /** Two blocks read the same index and the same size, and fill the same slot. */
  lemma RaceOnSlot(s: Chain, p: Particle, q: Particle)
    requires AtRest(s) && s.nodes[s.front].size < CHUNK_SIZE - 1
    ensures var i, s1 := s.nodes[s.front].size, WithSize(s, s.nodes[s.front].size + 1);
            && InBounds(s, LoadFront) && InBounds(s1, StoreItem(s.front, i, 0))
            && InBounds(WithSlot(s1, i, p), StoreItem(s.front, i, 0))
            && WithSize(s1, i + 1) == s1
            && var s2 := WithSlot(WithSlot(s1, i, p), i, q);
               AtRest(s2) && Held(s2) == Held(s) + multiset{q}
  {
    RestInBounds(s);
    var i, s1 := s.nodes[s.front].size, WithSize(s, s.nodes[s.front].size + 1);
    assert s1.nodes[s.front := s1.nodes[s.front]] == s1.nodes;
    StoreSizeStep(s, q);
    SlotAgain(s1, i, p, q);
    HeldInTwo(s);
    FrontChanged(s1, WithSlot(s1, i, q).nodes[s.front]) by { assert NodeOk(s1, s1.front); }
    HeldInTwo(WithSlot(s1, i, q));
    assert WithSlot(s1, i, q).nodes[s.front].slots[..i + 1] == s1.nodes[s.front].slots[..i] + [q];
  }

  // both begin, and load the front, the index and the size
  function Loaded(): seq<Turn> { [TurnOf(0)] + [TurnOf(1)] + Times(TurnOf(0), 3) + Times(TurnOf(1), 3) }

  // both store the size, plus one
  function Resized(): seq<Turn> { Loaded() + Times(TurnOf(0), 1) + Times(TurnOf(1), 1) }

  // both fill the same slot
  function Filled(): seq<Turn> { Resized() + Times(TurnOf(0), FIELDS) + Times(TurnOf(1), FIELDS) }

  /** An interleaving after which both pushes have returned and one of the two particles is gone. */
  function RacingTurns(): seq<Turn> { Filled() + [TurnOf(0)] + [TurnOf(1)] }

  lemma BothLoad(b: Bags, d: nat, p: Particle, q: Particle, turns: seq<Turn>, s: Chain)
    requires Settled(b) && d < |b.priv| && InRange(TwoPushes(d, p, q), |b.priv|) && InBounds(s, LoadFront)
    requires After(TwoPushes(d, p, q), b, turns) == Both(b, d, s, LoadFront, LoadFront)
    ensures var pc := StoreSize(s.front, s.nodes[s.front].size, s.nodes[s.front].size);
            After(TwoPushes(d, p, q), b, turns + Times(TurnOf(0), 3) + Times(TurnOf(1), 3)) == Both(b, d, s, pc, pc)
  {
    var pc := StoreSize(s.front, s.nodes[s.front].size, s.nodes[s.front].size);
    hide Settled, InRange, After, Both, Exec, InBounds;
    ThreeLoads(s, p, []);
    ThreeLoads(s, q, []);
    BothAct(b, d, p, q, turns, 0, s, LoadFront, LoadFront, 3);
    BothAct(b, d, p, q, turns + Times(TurnOf(0), 3), 1, s, pc, LoadFront, 3);
  }

  lemma BothResize(b: Bags, d: nat, p: Particle, q: Particle, turns: seq<Turn>, s: Chain, i: nat)
    requires Settled(b) && d < |b.priv| && InRange(TwoPushes(d, p, q), |b.priv|)
    requires InBounds(s, StoreSize(s.front, i, i)) && WithSize(WithSize(s, i + 1), i + 1) == WithSize(s, i + 1)
    requires After(TwoPushes(d, p, q), b, turns) == Both(b, d, s, StoreSize(s.front, i, i), StoreSize(s.front, i, i))
    ensures After(TwoPushes(d, p, q), b, turns + Times(TurnOf(0), 1) + Times(TurnOf(1), 1))
         == Both(b, d, WithSize(s, i + 1), StoreItem(s.front, i, 0), StoreItem(s.front, i, 0))
  {
    var pc, pc', s1 := StoreSize(s.front, i, i), StoreItem(s.front, i, 0), WithSize(s, i + 1);
    assert ExecTimes(s, pc, p, [], 0) == (s, pc) && ExecTimes(s, pc, p, [], 1) == (s1, pc');
    assert InBounds(s1, pc);
    assert ExecTimes(s1, pc, q, [], 0) == (s1, pc) && ExecTimes(s1, pc, q, [], 1) == (s1, pc');
    hide Settled, InRange, After, Both, InBounds, ExecTimes;
    BothAct(b, d, p, q, turns, 0, s, pc, pc, 1);
    BothAct(b, d, p, q, turns + Times(TurnOf(0), 1), 1, s1, pc', pc, 1);
  }

  lemma BothFill(b: Bags, d: nat, p: Particle, q: Particle, turns: seq<Turn>, s: Chain, i: nat)
    requires Settled(b) && d < |b.priv| && InRange(TwoPushes(d, p, q), |b.priv|) && i < CHUNK_SIZE - 1
    requires InBounds(s, StoreItem(s.front, i, 0)) && InBounds(WithSlot(s, i, p), StoreItem(s.front, i, 0))
    requires After(TwoPushes(d, p, q), b, turns) == Both(b, d, s, StoreItem(s.front, i, 0), StoreItem(s.front, i, 0))
    ensures After(TwoPushes(d, p, q), b, turns + Times(TurnOf(0), FIELDS) + Times(TurnOf(1), FIELDS))
         == Both(b, d, WithSlot(WithSlot(s, i, p), i, q), Returned, Returned)
  {
    var pc, s1 := StoreItem(s.front, i, 0), WithSlot(s, i, p);
    AllFields(s.nodes[s.front].slots[i], p);
    AllFields(s1.nodes[s.front].slots[i], q);
    forall k: nat | k <= FIELDS
      ensures !ExecTimes(s, pc, p, [], k).1.Returned? || k == FIELDS
      ensures !ExecTimes(s1, pc, q, [], k).1.Returned? || k == FIELDS
    {
      Stores(s, i, p, [], k);
      Stores(s1, i, q, [], k);
    }
    Stores(s, i, p, [], FIELDS);
    Stores(s1, i, q, [], FIELDS);
    hide Settled, InRange, After, Both, InBounds, ExecTimes, WithSlot;
    BothAct(b, d, p, q, turns, 0, s, pc, pc, FIELDS);
    BothAct(b, d, p, q, turns + Times(TurnOf(0), FIELDS), 1, s1, Returned, pc, FIELDS);
  }

  /**
   Two serial pushes to one bag, interleaved: both return, and the bag has gained one particle only.
   The bag is any that is at rest and has room for both in its front chunk.
   */
  lemma SerialPushesRace(b: Bags, d: nat, p: Particle, q: Particle) returns (chain: Chain)
    requires Settled(b) && d < |b.priv| && b.priv[d].front < |b.priv[d].nodes|
    requires b.priv[d].nodes[b.priv[d].front].size < CHUNK_SIZE - 1
    ensures InRange(TwoPushes(d, p, q), |b.priv|)
    ensures var s := After(TwoPushes(d, p, q), b, RacingTurns());
            && AllDone(TwoPushes(d, p, q), s)
            && s == State(b.priv[d := chain], b.shared, [Progress(1, Idle), Progress(1, Idle)])
    ensures AtRest(b.priv[d]) && AtRest(chain) && Held(chain) == Held(b.priv[d]) + multiset{q}
  {
    hide Settled, InRange, After, Both, AtRest, InBounds, Held, AllDone, Typed, RacingTurns, TwoPushes, WithSize,
         WithSlot;
    var s, i := b.priv[d], b.priv[d].nodes[b.priv[d].front].size;
    chain := RaceReady(b, d, p, q);
    RunRace(b, d, p, q, s, i, WithSize(s, i + 1));
  }

  lemma RaceReady(b: Bags, d: nat, p: Particle, q: Particle) returns (chain: Chain)
    requires Settled(b) && d < |b.priv| && b.priv[d].front < |b.priv[d].nodes|
    requires b.priv[d].nodes[b.priv[d].front].size < CHUNK_SIZE - 1
    ensures InRange(TwoPushes(d, p, q), |b.priv|) && AtRest(b.priv[d])
    ensures var s := b.priv[d];
            var i, s1 := s.nodes[s.front].size, WithSize(s, s.nodes[s.front].size + 1);
            && InBounds(s, StoreSize(s.front, i, i)) && WithSize(s1, i + 1) == s1 && s1.front == s.front
            && InBounds(s1, StoreItem(s.front, i, 0)) && InBounds(WithSlot(s1, i, p), StoreItem(s.front, i, 0))
            && After(TwoPushes(d, p, q), b, Loaded())
               == Both(b, d, s, StoreSize(s.front, i, i), StoreSize(s.front, i, i))
            && chain == WithSlot(WithSlot(s1, i, p), i, q) && AtRest(chain) && Held(chain) == Held(s) + multiset{q}
  {
    assert AtRest(b.priv[d]);
    hide Settled, AtRest, Held, After, Both, Loaded, InRange;
    RaceOnSlot(b.priv[d], p, q);
    BothReady(b, d, p, q);
    var s, i := b.priv[d], b.priv[d].nodes[b.priv[d].front].size;
    chain := WithSlot(WithSlot(WithSize(s, i + 1), i, p), i, q);
  }

  lemma RunRace(b: Bags, d: nat, p: Particle, q: Particle, s: Chain, i: nat, s1: Chain)
    requires Settled(b) && d < |b.priv| && InRange(TwoPushes(d, p, q), |b.priv|)
             && InBounds(s, StoreSize(s.front, i, i))
    requires s1 == WithSize(s, i + 1) == WithSize(s1, i + 1) && i < CHUNK_SIZE - 1 && s1.front == s.front
    requires InBounds(s1, StoreItem(s.front, i, 0)) && InBounds(WithSlot(s1, i, p), StoreItem(s.front, i, 0))
    requires After(TwoPushes(d, p, q), b, Loaded()) == Both(b, d, s, StoreSize(s.front, i, i), StoreSize(s.front, i, i))
    ensures var s' := After(TwoPushes(d, p, q), b, RacingTurns());
            && AllDone(TwoPushes(d, p, q), s')
            && s' == State(b.priv[d := WithSlot(WithSlot(s1, i, p), i, q)], b.shared,
                           [Progress(1, Idle), Progress(1, Idle)])
  {
    var s2 := WithSlot(WithSlot(s1, i, p), i, q);
    hide Settled, InRange, After, Both, InBounds, WithSlot, WithSize, Times, TurnOf, Loaded, AllDone, Typed, TwoPushes;
    BothResize(b, d, p, q, Loaded(), s, i);
    BothFill(b, d, p, q, Resized(), s1, i);
    BothEnd(b, d, p, q, Filled(), s2);
  }

  lemma BothReady(b: Bags, d: nat, p: Particle, q: Particle)
    requires Settled(b) && d < |b.priv| && InBounds(b.priv[d], LoadFront)
    ensures InRange(TwoPushes(d, p, q), |b.priv|)
    ensures var s := b.priv[d];
            var pc := StoreSize(s.front, s.nodes[s.front].size, s.nodes[s.front].size);
            After(TwoPushes(d, p, q), b, Loaded()) == Both(b, d, s, pc, pc)
  {
    hide Settled, After, Both, InBounds;
    BothBegin(b, d, p, q);
    BothLoad(b, d, p, q, [TurnOf(0)] + [TurnOf(1)], b.priv[d]);
  }

  // ----- beside blocks that push nothing

  /** n more blocks, which push nothing. */
  function Padded(works: Works, n: nat): (padded: Works)
    ensures |padded| == |works| + n
  {
    works + seq(n, _ => [])
  }

  function PaddedState(s: State, n: nat): State { s.(at := s.at + seq(n, _ => Progress(0, Idle))) }

  lemma StepPadded(works: Works, s: State, turn: Turn, n: nat)
    requires Typed(works, s) && Typed(Padded(works, n), PaddedState(s, n)) && turn.w < |works|
    ensures Step(Padded(works, n), PaddedState(s, n), turn) == PaddedState(Step(works, s, turn), n)
  {
    hide Exec, InBounds, C.Inv, C.WellFormed, C.Apply;
    assert WorkerOk(works, s, turn.w);
    assert Padded(works, n)[turn.w] == works[turn.w] && PaddedState(s, n).at[turn.w] == s.at[turn.w];
    var at := Step(works, s, turn).at[turn.w];
    assert PaddedState(s, n).at[turn.w := at] == s.at[turn.w := at] + seq(n, _ => Progress(0, Idle));
  }

  /** They do not matter to a run of the others. */
  lemma {:induction false} AfterPadded(works: Works, b: Bags, turns: seq<Turn>, n: nat)
    requires Settled(b) && InRange(works, |b.priv|) && forall i :: 0 <= i < |turns| ==> turns[i].w < |works|
    ensures InRange(Padded(works, n), |b.priv|)
    ensures After(Padded(works, n), b, turns) == PaddedState(After(works, b, turns), n)
  {
    hide Settled, Step, Typed;
    if turns == [] {
      assert Start(Padded(works, n), b) == PaddedState(Start(works, b), n);
    } else {
      AfterPadded(works, b, turns[..|turns| - 1], n);
      StepPadded(works, After(works, b, turns[..|turns| - 1]), turns[|turns| - 1], n);
    }
  }
}
