/**
 Nothing is lost and nothing is duplicated: at every moment the particles of the
 calls that were given a slot are, as a multiset, the particles whose slots the
 chunks have handed out.
 */
module ConcurrentBagBalance {
  import opened Particles
  import opened ConcurrentBag
  import opened Multisets

  // ----- what is counted: particles of the calls that were given a slot

  function Claim(call: Call): multiset<Particle> {
    if HasSlot(call.pc) then multiset{call.p} else multiset{}
  }

  function Pushed(calls: seq<Call>): multiset<Particle> {
    if calls == [] then multiset{} else Pushed(calls[..|calls| - 1]) + Claim(calls[|calls| - 1])
  }

  ghost predicate IdsValid(calls: seq<Call>, ids: seq<nat>) {
    forall i :: 0 <= i < |ids| ==> ids[i] < |calls|
  }

  function ParticlesOf(calls: seq<Call>, ids: seq<nat>): (ps: seq<Particle>)
    requires IdsValid(calls, ids)
    ensures |ps| == |ids|
  {
    seq(|ids|, i requires 0 <= i < |ids| => calls[ids[i]].p)
  }

  ghost predicate AllIdsValid(calls: seq<Call>, chunks: seq<Chunk>) {
    forall c :: 0 <= c < |chunks| ==> IdsValid(calls, chunks[c].claimed)
  }

  function Claimed(calls: seq<Call>, chunks: seq<Chunk>): multiset<Particle>
    requires AllIdsValid(calls, chunks)
  {
    if chunks == [] then multiset{}
    else Claimed(calls, chunks[..|chunks| - 1]) + multiset(ParticlesOf(calls, chunks[|chunks| - 1].claimed))
  }

  lemma {:induction false} PushedAfterUpdate(calls: seq<Call>, t: nat, call: Call)
    requires t < |calls|
    ensures Pushed(calls[t := call]) + Claim(calls[t]) == Pushed(calls) + Claim(call)
  {
    var n := |calls| - 1;
    if t == n {
      assert calls[t := call][..n] == calls[..n];
    } else {
      assert calls[t := call][..n] == calls[..n][t := call];
      PushedAfterUpdate(calls[..n], t, call);
      Exchange(Pushed(calls[..n][t := call]), Claim(calls[t]), Pushed(calls[..n]), Claim(call), Claim(calls[n]));
    }
  }

  /** The claims only depend on the particles of the calls and on the claimed ids. */
  lemma {:induction false} ClaimedDependsOn(calls: seq<Call>, calls': seq<Call>, chunks: seq<Chunk>,
                                            chunks': seq<Chunk>)
    requires AllIdsValid(calls, chunks) && |calls| <= |calls'| && |chunks| == |chunks'|
    requires forall t :: 0 <= t < |calls| ==> calls'[t].p == calls[t].p
    requires forall c :: 0 <= c < |chunks| ==> chunks'[c].claimed == chunks[c].claimed
    ensures AllIdsValid(calls', chunks')
    ensures Claimed(calls', chunks') == Claimed(calls, chunks)
  {
    if chunks != [] {
      var n := |chunks| - 1;
      ClaimedDependsOn(calls, calls', chunks[..n], chunks'[..n]);
      assert ParticlesOf(calls', chunks'[n].claimed) == ParticlesOf(calls, chunks[n].claimed);
    }
  }

  lemma OneMoreId(calls: seq<Call>, ids: seq<nat>, t: nat)
    requires IdsValid(calls, ids) && t < |calls|
    ensures IdsValid(calls, ids + [t]) && multiset(ParticlesOf(calls, ids + [t]))
            == multiset(ParticlesOf(calls, ids)) + multiset{calls[t].p}
  {
    assert ParticlesOf(calls, ids + [t]) == ParticlesOf(calls, ids) + [calls[t].p];
  }

  lemma SwapLast(a: multiset<Particle>, b: multiset<Particle>, c: multiset<Particle>)
    ensures a + b + c == a + c + b
  {
  }

  lemma {:induction false} ClaimedAfterClaim(calls: seq<Call>, chunks: seq<Chunk>, c: nat, chunk: Chunk, t: nat)
    requires AllIdsValid(calls, chunks) && c < |chunks| && t < |calls|
    requires chunk.claimed == chunks[c].claimed + [t]
    ensures AllIdsValid(calls, chunks[c := chunk])
    ensures Claimed(calls, chunks[c := chunk]) == Claimed(calls, chunks) + multiset{calls[t].p}
  {
    var n, chunks' := |chunks| - 1, chunks[c := chunk];
    OneMoreId(calls, chunks[c].claimed, t);
    hide IdsValid, ParticlesOf;
    if c == n {
      assert chunks'[..n] == chunks[..n];
    } else {
      assert chunks'[..n] == chunks[..n][c := chunk];
      ClaimedAfterClaim(calls, chunks[..n], c, chunk, t);
      SwapLast(Claimed(calls, chunks[..n]), multiset{calls[t].p}, multiset(ParticlesOf(calls, chunks[n].claimed)));
    }
  }

  /** The particles of the calls that own a slot are the particles the chunks have given slots to. */
  ghost predicate Balanced(s: State) {
    AllIdsValid(s.calls, s.chunks) && Pushed(s.calls) == Claimed(s.calls, s.chunks)
  }

  /** A step that changes no claim changes neither side of the balance. */
  lemma NeutralKeepsBalance(s: State, t: nat, pc: Pc, chunks': seq<Chunk>)
    requires Balanced(s) && t < |s.calls|
    requires HasSlot(pc) == HasSlot(s.calls[t].pc)
    requires |s.chunks| == |chunks'|
    requires forall c :: 0 <= c < |s.chunks| ==> chunks'[c].claimed == s.chunks[c].claimed
    ensures Balanced(SetPc(s, t, pc).(chunks := chunks'))
  {
    var calls' := SetPc(s, t, pc).calls;
    PushedAfterUpdate(s.calls, t, calls'[t]);
    Cancel(Pushed(calls'), Pushed(s.calls), Claim(s.calls[t]));
    ClaimedDependsOn(s.calls, calls', s.chunks, chunks');
  }

  lemma ClaimKeepsBalance(s: State, t: nat, junk: Chunk)
    requires WellFormed(s) && Balanced(s) && t < |s.calls|
    requires s.calls[t].pc.Increment? && s.chunks[s.calls[t].pc.c].size < CHUNK_SIZE
    ensures Balanced(Exec(s, t, junk))
  {
    var s', c := Exec(s, t, junk), s.calls[t].pc.c;
    PushedAfterUpdate(s.calls, t, s'.calls[t]);
    ClaimedAfterClaim(s.calls, s.chunks, c, s'.chunks[c], t);
    ClaimedDependsOn(s.calls, s'.calls, s'.chunks, s'.chunks);
  }

  lemma AllocateKeepsBalance(s: State, t: nat, junk: Chunk)
    requires WellFormed(s) && Balanced(s) && t < |s.calls| && s.calls[t].pc.Allocate?
    ensures Balanced(Exec(s, t, junk))
  {
    var s' := Exec(s, t, junk);
    NeutralKeepsBalance(s, t, s'.calls[t].pc, s.chunks);
    assert s'.chunks[..|s.chunks|] == s.chunks;
    assert ParticlesOf(s'.calls, s'.chunks[|s.chunks|].claimed) == [];
  }

  lemma BeginKeepsBalance(s: State, p: Particle)
    requires WellFormed(s) && Balanced(s)
    ensures Balanced(Apply(s, Begin(p)))
  {
    var calls' := Apply(s, Begin(p)).calls;
    assert calls'[..|s.calls|] == s.calls;
    ClaimedDependsOn(s.calls, calls', s.chunks, s.chunks);
  }

  lemma ExecKeepsBalance(s: State, t: nat, junk: Chunk)
    requires WellFormed(s) && Balanced(s) && t < |s.calls|
    ensures Balanced(Exec(s, t, junk))
  {
    var s' := Exec(s, t, junk);
    hide Balanced;
    match s.calls[t].pc
    case Increment(c) =>
      if s.chunks[c].size < CHUNK_SIZE {
        ClaimKeepsBalance(s, t, junk);
      } else {
        NeutralKeepsBalance(s, t, Repair(c), s'.chunks);
      }
    case Allocate(_, _) => AllocateKeepsBalance(s, t, junk);
    case Spin(c) => if s.front != c { NeutralKeepsBalance(s, t, ReadFront, s.chunks); }
    case Done(_, _) =>
    case _ => NeutralKeepsBalance(s, t, s'.calls[t].pc, s'.chunks);
  }

  lemma ApplyKeepsBalance(s: State, e: Event)
    requires WellFormed(s) && Balanced(s)
    ensures Balanced(Apply(s, e))
  {
    match e
    case Begin(p) => BeginKeepsBalance(s, p);
    case Act(t, junk) => if t < |s.calls| { ExecKeepsBalance(s, t, junk); }
  }

  lemma {:induction false} AfterBalanced(junk: Chunk, events: seq<Event>)
    ensures Balanced(After(junk, events))
  {
    if events == [] {
      var s := Initial(junk);
      assert s.chunks[..0] == [];
    } else {
      AfterBalanced(junk, events[..|events| - 1]);
      ApplyKeepsBalance(After(junk, events[..|events| - 1]), events[|events| - 1]);
    }
  }
}
