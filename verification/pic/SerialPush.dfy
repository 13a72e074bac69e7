/**
 The serial push, one access to memory at a time. Nothing in it is atomic: `c->size++`
 is a load and a store. Alone on its bag it adds its particle; two of them interleaved
 can lose one.
 */
module SerialPush {
  import opened Particles

  datatype Node = Node(next: Option<nat>, size: nat, slots: seq<Particle>)

  /** The chunks of one bag, named by their rank in allocation order. */
  datatype Chain = Chain(nodes: seq<Node>, front: nat)

  /** Where a call stands in the body of the push. */
  datatype Pc =
    | LoadFront                        // about to load the front pointer
    | LoadIndex(c: nat)                // about to load the size of c as the index
    | LoadSize(c: nat, i: nat)         // about to load the size of c, to increment it
    | StoreSize(c: nat, i: nat, n: nat)  // about to store n + 1 into the size of c
    | StoreItem(c: nat, i: nat, k: nat)  // about to store field k into slot i of c
    | NewChunk                         // filled the last slot, about to allocate
    | Link(node: nat)                  // about to read front into node.next
    | Install(node: nat)               // about to store node into front
    | Returned

  predicate InBounds(s: Chain, pc: Pc) {
    && s.front < |s.nodes|
    && (forall c :: 0 <= c < |s.nodes| ==> |s.nodes[c].slots| == CHUNK_SIZE)
    && (pc.LoadIndex? || pc.LoadSize? || pc.StoreSize? || pc.StoreItem? ==> pc.c < |s.nodes|)
    && (pc.StoreItem? ==> pc.k < FIELDS)
    && (pc.Link? || pc.Install? ==> pc.node < |s.nodes|)
  }

  function FreshSlots(junk: seq<Particle>): (slots: seq<Particle>)
    ensures |slots| == CHUNK_SIZE
  {
    if |junk| == CHUNK_SIZE then junk else seq(CHUNK_SIZE, _ => Particle(0.0, 0.0, 0.0, 0.0, 0.0, 0.0))
  }

  function SetNode(s: Chain, c: nat, node: Node): Chain
    requires c < |s.nodes|
  {
    s.(nodes := s.nodes[c := node])
  }

  /** The bag that bag_init leaves. */
  function Empty(junk: seq<Particle>): Chain { Chain([Node(None, 0, FreshSlots(junk))], 0) }

  /** One step of a push of p; junk is what a fresh chunk holds. A store beyond the last slot is not modelled. */
  function Exec(s: Chain, pc: Pc, p: Particle, junk: seq<Particle>): (r: (Chain, Pc))
    requires InBounds(s, pc)
    ensures InBounds(r.0, r.1) && forall other :: InBounds(s, other) ==> InBounds(r.0, other)
  {
    match pc
    case LoadFront => (s, LoadIndex(s.front))
    case LoadIndex(c) => (s, LoadSize(c, s.nodes[c].size))
    case LoadSize(c, i) => (s, StoreSize(c, i, s.nodes[c].size))
    case StoreSize(c, i, n) => (SetNode(s, c, s.nodes[c].(size := n + 1)), StoreItem(c, i, 0))
    case StoreItem(c, i, k) =>
      var node := s.nodes[c];
      var s' := if i < CHUNK_SIZE then
                  SetNode(s, c, node.(slots := node.slots[i := StoreField(node.slots[i], p, k)]))
                else s;
      (s', if k + 1 < FIELDS then StoreItem(c, i, k + 1) else if i == CHUNK_SIZE - 1 then NewChunk else Returned)
    case NewChunk => (s.(nodes := s.nodes + [Node(None, 0, FreshSlots(junk))]), Link(|s.nodes|))
    case Link(node) => (SetNode(s, node, s.nodes[node].(next := Some(s.front))), Install(node))
    case Install(node) => (s.(front := node), Returned)
    case Returned => (s, Returned)
  }

  // ----- one push at a time

  /** The chunk of rank c is full if it is behind the front, and linked to the one before it. */
  predicate NodeOk(s: Chain, c: nat)
    requires c < |s.nodes|
  {
    var node := s.nodes[c];
    && |node.slots| == CHUNK_SIZE && node.size <= CHUNK_SIZE
    && (c <= s.front ==> node.next == if c == 0 then None else Some(c - 1))
    && (c < s.front ==> node.size == CHUNK_SIZE)
  }

  predicate Linked(s: Chain) {
    s.front < |s.nodes| && forall c :: 0 <= c < |s.nodes| ==> NodeOk(s, c)
  }

  /** What the chunks met by following next from c hold. */
  function HeldFrom(s: Chain, c: nat): multiset<Particle>
    requires Linked(s) && c <= s.front
    decreases c
  {
    assert NodeOk(s, c);
    multiset(s.nodes[c].slots[..s.nodes[c].size]) +
    match s.nodes[c].next case None => multiset{} case Some(n) => HeldFrom(s, n)
  }

  function Held(s: Chain): multiset<Particle>
    requires Linked(s)
  {
    HeldFrom(s, s.front)
  }

  /** What all chunks but the front one hold. */
  function HeldBehind(s: Chain): multiset<Particle>
    requires Linked(s)
  {
    if s.front == 0 then multiset{} else HeldFrom(s, s.front - 1)
  }

  /** No push is under way: there is room in the front chunk, and nothing beyond it. */
  predicate AtRest(s: Chain) {
    Linked(s) && |s.nodes| == s.front + 1 && s.nodes[s.front].size < CHUNK_SIZE
  }

  /** A single push of p is at pc, on a bag that held `base` when it started. */
  predicate Busy(s: Chain, pc: Pc, p: Particle, base: multiset<Particle>) {
    match pc
    case LoadFront => AtRest(s) && Held(s) == base
    case LoadIndex(c) => AtRest(s) && Held(s) == base && c == s.front
    case LoadSize(c, i) => AtRest(s) && Held(s) == base && c == s.front && i == s.nodes[c].size
    case StoreSize(c, i, n) => AtRest(s) && Held(s) == base && c == s.front && i == n == s.nodes[c].size
    case StoreItem(c, i, k) => Storing(s, c, i, k, p, base)
    case NewChunk => IsFull(s) && Held(s) == base + multiset{p}
    case Link(node) => HasSpare(s, node) && Held(s) == base + multiset{p}
    case Install(node) => HasSpare(s, node) && s.nodes[node].next == Some(s.front) && Held(s) == base + multiset{p}
    case Returned => AtRest(s) && Held(s) == base + multiset{p}
  }

  /** Slot i is taken, and k fields of p are in it. */
  predicate Storing(s: Chain, c: nat, i: nat, k: nat, p: Particle, base: multiset<Particle>) {
    && Linked(s) && |s.nodes| == s.front + 1 && c == s.front && i + 1 == s.nodes[c].size && k < FIELDS
    && |s.nodes[c].slots| == CHUNK_SIZE >= i + 1 && Agree(s.nodes[c].slots[i], p, k)
    && multiset(s.nodes[c].slots[..i]) + HeldBehind(s) == base
  }

  predicate IsFull(s: Chain) {
    Linked(s) && |s.nodes| == s.front + 1 && s.nodes[s.front].size == CHUNK_SIZE
  }

  /** The front is full and the next chunk is allocated. */
  predicate HasSpare(s: Chain, node: nat) {
    && Linked(s) && |s.nodes| == s.front + 2 && node == s.front + 1
    && s.nodes[s.front].size == CHUNK_SIZE && s.nodes[node].size == 0
  }

  lemma BusyInBounds(s: Chain, pc: Pc, p: Particle, base: multiset<Particle>)
    requires Busy(s, pc, p, base)
    ensures InBounds(s, pc)
  {
    assert Linked(s);
    forall c | 0 <= c < |s.nodes|
      ensures |s.nodes[c].slots| == CHUNK_SIZE
    {
      assert NodeOk(s, c);
    }
  }

  /** What is held only depends on the chunks met. */
  lemma {:induction false} HeldAgain(s: Chain, s': Chain, c: nat)
    requires Linked(s) && Linked(s') && c <= s.front && c <= s'.front
    requires forall b :: 0 <= b <= c ==> s'.nodes[b] == s.nodes[b]
    ensures HeldFrom(s', c) == HeldFrom(s, c)
  {
    assert NodeOk(s, c);
    if c > 0 {
      HeldAgain(s, s', c - 1);
    }
  }

  lemma HeldInTwo(s: Chain)
    requires Linked(s)
    ensures s.nodes[s.front].size <= CHUNK_SIZE == |s.nodes[s.front].slots|
    ensures Held(s) == multiset(s.nodes[s.front].slots[..s.nodes[s.front].size]) + HeldBehind(s)
  {
    assert NodeOk(s, s.front);
  }

  /** Changing the front chunk leaves the ones behind it as they are. */
  lemma FrontChanged(s: Chain, node: Node)
    requires Linked(s) && |node.slots| == CHUNK_SIZE >= node.size && node.next == s.nodes[s.front].next
    ensures var s' := SetNode(s, s.front, node); Linked(s') && HeldBehind(s') == HeldBehind(s)
  {
    var s' := SetNode(s, s.front, node);
    forall c | 0 <= c < |s'.nodes|
      ensures NodeOk(s', c)
    {
      assert NodeOk(s, c) && NodeOk(s, s.front);
    }
    if s.front > 0 {
      HeldAgain(s, s', s.front - 1);
    }
  }

  lemma StoreSizeStep(s: Chain, p: Particle)
    requires AtRest(s)
    ensures var c, i := s.front, s.nodes[s.front].size;
            Storing(SetNode(s, c, s.nodes[c].(size := i + 1)), c, i, 0, p, Held(s))
  {
    HeldInTwo(s);
    FrontChanged(s, s.nodes[s.front].(size := s.nodes[s.front].size + 1));
    hide HeldBehind, NodeOk, Held;
  }

  lemma StoreOne(slots: seq<Particle>, i: nat, p: Particle, k: nat)
    requires i < |slots| && k < FIELDS && Agree(slots[i], p, k)
    ensures var slots' := slots[i := StoreField(slots[i], p, k)];
            && Agree(slots'[i], p, k + 1) && slots'[..i] == slots[..i]
            && (k + 1 == FIELDS ==> multiset(slots'[..i + 1]) == multiset(slots[..i]) + multiset{p})
  {
    var slots' := slots[i := StoreField(slots[i], p, k)];
    if k + 1 == FIELDS {
      assert slots'[..i + 1] == slots[..i] + [p];
    }
  }

  lemma StoringBounds(s: Chain, c: nat, i: nat, k: nat, p: Particle, base: multiset<Particle>)
    requires Storing(s, c, i, k, p, base)
    ensures c < |s.nodes| && i < CHUNK_SIZE && k < FIELDS
  {
  }

  lemma StoreItemStep(s: Chain, c: nat, i: nat, k: nat, p: Particle, base: multiset<Particle>)
    requires Storing(s, c, i, k, p, base)
    ensures var node := s.nodes[c];
            var s' := SetNode(s, c, node.(slots := node.slots[i := StoreField(node.slots[i], p, k)]));
            && (k + 1 < FIELDS ==> Storing(s', c, i, k + 1, p, base))
            && (k + 1 == FIELDS ==>
                  (if i == CHUNK_SIZE - 1 then IsFull(s') else AtRest(s')) && Held(s') == base + multiset{p})
  {
    var node := s.nodes[c].(slots := s.nodes[c].slots[i := StoreField(s.nodes[c].slots[i], p, k)]);
    StoreOne(s.nodes[c].slots, i, p, k);
    FrontChanged(s, node) by { assert NodeOk(s, c); }
    hide StoreField, Agree, Linked, HeldBehind, Held;
    if k + 1 == FIELDS {
      HeldInTwo(SetNode(s, c, node));
    }
  }

  lemma NewChunkStep(s: Chain, pc: Pc, p: Particle, base: multiset<Particle>, junk: seq<Particle>)
    requires Busy(s, pc, p, base) && InBounds(s, pc) && (pc.NewChunk? || pc.Link?)
    ensures Busy(Exec(s, pc, p, junk).0, Exec(s, pc, p, junk).1, p, base)
  {
    var s' := Exec(s, pc, p, junk).0;
    forall c | 0 <= c < |s'.nodes|
      ensures NodeOk(s', c)
    {
      if c < |s.nodes| { assert NodeOk(s, c); }
    }
    HeldAgain(s, s', s.front);
  }

  lemma InstallStep(s: Chain, pc: Pc, p: Particle, base: multiset<Particle>, junk: seq<Particle>)
    requires Busy(s, pc, p, base) && InBounds(s, pc) && pc.Install?
    ensures Busy(Exec(s, pc, p, junk).0, Exec(s, pc, p, junk).1, p, base)
  {
    var s' := Exec(s, pc, p, junk).0;
    forall c | 0 <= c < |s'.nodes|
      ensures NodeOk(s', c)
    {
      if c < |s.nodes| { assert NodeOk(s, c); }
    }
    HeldAgain(s, s', s.front);
    HeldInTwo(s');
    assert s'.nodes[s'.front].slots[..0] == [];
  }

  /** A push that is alone on its bag stays on course, whatever the other bags are doing. */
  lemma ExecKeepsBusy(s: Chain, pc: Pc, p: Particle, base: multiset<Particle>, junk: seq<Particle>)
    requires Busy(s, pc, p, base) && InBounds(s, pc)
    ensures Busy(Exec(s, pc, p, junk).0, Exec(s, pc, p, junk).1, p, base)
  {
    hide Storing, AtRest, IsFull, HasSpare, Held, Linked, StoreField;
    match pc
    case StoreSize(_, _, _) => StoreSizeStep(s, p);
    case StoreItem(c, i, k) => StoringBounds(s, c, i, k, p, base); StoreItemStep(s, c, i, k, p, base);
    case NewChunk => NewChunkStep(s, pc, p, base, junk);
    case Link(_) => NewChunkStep(s, pc, p, base, junk);
    case Install(_) => InstallStep(s, pc, p, base, junk);
    case _ =>
  }

  /** A push never waits. */
  lemma ExecMoves(s: Chain, pc: Pc, p: Particle, junk: seq<Particle>)
    requires InBounds(s, pc) && !pc.Returned?
    ensures Exec(s, pc, p, junk).1 != pc
  {
  }

  lemma EmptyAtRest(junk: seq<Particle>)
    ensures AtRest(Empty(junk)) && Held(Empty(junk)) == multiset{}
  {
    assert Empty(junk).nodes[0].slots[..0] == [];
  }
}
