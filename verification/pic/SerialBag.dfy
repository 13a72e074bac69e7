/**
 Bags of particles as the serial code uses them: chains of fixed-capacity chunks
 on the heap. `alive` records whether a chunk has been freed; every access to a
 chunk needs it.
 */
module SerialBag {
  import opened Particles

  class Chunk {
    var next: Chunk?
    var size: nat
    const items: array2<real>  // row f holds field number f of every slot
    ghost var alive: bool

    /** bag_chunk_alloc: nothing is initialised but the storage itself. */
    constructor ()
      ensures alive && items.Length0 == FIELDS && items.Length1 == CHUNK_SIZE && fresh(items)
    {
      items := new real[FIELDS, CHUNK_SIZE];
      alive := true;
    }

    ghost predicate Shaped() {
      items.Length0 == FIELDS && items.Length1 == CHUNK_SIZE
    }

    function Slot(i: nat): Particle
      requires items.Length0 == FIELDS && i < items.Length1
      reads items
    {
      Particle(items[0, i], items[1, i], items[2, i], items[3, i], items[4, i], items[5, i])
    }

    method StoreSlot(i: nat, p: Particle)
      requires alive && Shaped() && i < CHUNK_SIZE
      modifies items
      ensures Slot(i) == p
      ensures forall k :: 0 <= k < CHUNK_SIZE && k != i ==> Slot(k) == old(Slot(k))
    {
      items[0, i] := p.posX;
      items[1, i] := p.posY;
      items[2, i] := p.posZ;
      items[3, i] := p.speedX;
      items[4, i] := p.speedY;
      items[5, i] := p.speedZ;
    }

    method LoadSlot(i: nat) returns (p: Particle)
      requires alive && Shaped() && i < CHUNK_SIZE
      ensures p == Slot(i)
    {
      p := Particle(items[0, i], items[1, i], items[2, i], items[3, i], items[4, i], items[5, i]);
    }
  }

  method ChunkFree(c: Chunk)
    requires c.alive
    modifies c`alive
    ensures !c.alive
  {
    c.alive := false;
  }

  /** chunk_next: the link is read before the chunk is freed. */
  method ChunkNext(c: Chunk, destructive: bool) returns (cnext: Chunk?)
    requires c.alive
    modifies c`alive
    ensures cnext == c.next && c.alive == !destructive
  {
    cnext := c.next;
    if destructive {
      ChunkFree(c);
    }
  }

  function Flatten<T>(parts: seq<seq<T>>): seq<T> {
    if parts == [] then [] else parts[0] + Flatten(parts[1..])
  }

  lemma {:induction false} FlattenConcat<T>(a: seq<seq<T>>, b: seq<seq<T>>)
    ensures Flatten(a + b) == Flatten(a) + Flatten(b)
  {
    if a == [] {
      assert a + b == b;
    } else {
      assert (a + b)[1..] == a[1..] + b;
      FlattenConcat(a[1..], b);
    }
  }

  class Bag {
    var front: Chunk?
    var back: Chunk?
    ghost var spine: seq<Chunk>           // the chain, from front to back
    ghost var parts: seq<seq<Particle>>   // what each chunk of the chain holds
    ghost var Repr: set<object>

    ghost predicate Valid()
      reads this, Repr
      ensures Valid() ==> this in Repr
    {
      && this in Repr
      && |parts| == |spine|
      && (front == null ==> back == null && spine == [])
      && (front != null ==>
            spine != [] && front == spine[0] && back == spine[|spine| - 1] && |parts[0]| < CHUNK_SIZE)
      && (forall i :: 0 <= i < |spine| ==> ChunkOk(i))
      && (forall i, j :: 0 <= i < j < |spine| ==> spine[i] != spine[j] && spine[i].items != spine[j].items)
    }

    ghost predicate ChunkOk(i: nat)
      requires |parts| == |spine| && i < |spine|
      reads this, Repr
    {
      var c := spine[i];
      && c in Repr && c.items in Repr && c.Shaped() && c.alive
      && c.next == (if i + 1 < |spine| then spine[i + 1] else null)
      && c.size == |parts[i]| <= CHUNK_SIZE
      && (forall k :: 0 <= k < c.size ==> c.Slot(k) == parts[i][k])
    }

    /** The particles of the bag, in the order in which the chain is read. */
    ghost function Contents(): seq<Particle>
      reads this
    {
      Flatten(parts)
    }

    /** Every chunk but the front is full: true as long as the bag only grows by pushes. */
    ghost predicate Packed()
      reads this
    {
      forall i :: 1 <= i < |parts| ==> |parts[i]| == CHUNK_SIZE
    }

    constructor ()
      ensures Valid() && fresh(Repr) && Contents() == [] && Packed() && front != null
    {
      new;
      Init();
    }

    /** bag_init, on a bag in any state. */
    method Init()
      modifies this
      ensures Valid() && fresh(Repr - {this}) && Contents() == [] && Packed() && front != null
    {
      var c := new Chunk();
      InitUsing(c);
    }

    /** bag_init_using. */
    method InitUsing(c: Chunk)
      requires c.alive && c.Shaped()
      modifies this, c
      ensures Valid() && Repr == {this, c, c.items} && Contents() == [] && Packed() && front != null
    {
      c.size := 0;
      c.next := null;
      front := c;
      back := c;
      spine, parts, Repr := [c], [[]], {this, c, c.items};
      assert parts[1..] == [];
    }

    /** bag_nullify. */
    method Nullify()
      modifies this
      ensures Valid() && front == null && Contents() == [] && Repr == {this}
    {
      front := null;
      back := null;
      spine, parts, Repr := [], [], {this};
    }

    /** bag_add_front_chunk_serial, called when the front has just been filled. */
    method AddFrontChunk()
      requires this in Repr && front != null && |parts| == |spine| > 0 && front == spine[0]
               && back == spine[|spine| - 1]
      requires forall i :: 0 <= i < |spine| ==> ChunkOk(i)
      requires forall i, j :: 0 <= i < j < |spine| ==> spine[i] != spine[j] && spine[i].items != spine[j].items
      modifies this
      ensures Valid() && fresh(Repr - old(Repr)) && old(Repr) <= Repr
      ensures parts == [[]] + old(parts) && front != null
    {
      var c := new Chunk();
      c.size := 0;
      c.next := front;
      front := c;
      ghost var spine0, parts0 := spine, parts;
      spine, parts, Repr := [c] + spine, [[]] + parts, Repr + {c, c.items};
      forall i | 0 <= i < |spine|
        ensures ChunkOk(i)
      {
        if i > 0 {
          assert spine[i] == spine0[i - 1] && parts[i] == parts0[i - 1];
          assert old(ChunkOk(i - 1));
        }
      }
    }

    /** bag_push_serial. */
    method PushSerial(p: Particle)
      requires Valid() && front != null
      modifies Repr
      ensures Valid() && fresh(Repr - old(Repr)) && front != null
      ensures Contents() == old(parts)[0] + [p] + Flatten(old(parts)[1..])
      ensures old(Packed()) ==> Packed()
    {
      var c := front;
      assert ChunkOk(0);
      var index := c.size;
      c.size := c.size + 1;
      c.StoreSlot(index, p);
      parts := parts[0 := parts[0] + [p]];
      forall i | 0 <= i < |spine|
        ensures ChunkOk(i)
      {
        assert old(ChunkOk(i));
      }
      ghost var full := parts;
      assert full[1..] == old(parts)[1..];
      assert Flatten(full) == old(parts)[0] + [p] + Flatten(old(parts)[1..]);
      if index == CHUNK_SIZE - 1 {
        AddFrontChunk();
        assert parts[0] == [] && parts[1..] == full;
      }
    }

    /** bag_push_concurrent when no other push is under way: the first fetch-and-add succeeds.
        The interleaved runs of many such calls are the subject of module ConcurrentBag. */
    method PushConcurrent(p: Particle)
      requires Valid() && front != null
      modifies Repr
      ensures Valid() && fresh(Repr - old(Repr)) && front != null
      ensures Contents() == old(parts)[0] + [p] + Flatten(old(parts)[1..])
      ensures old(Packed()) ==> Packed()
    {
      assert ChunkOk(0);
      if front.size < CHUNK_SIZE {
        PushSerial(p);
      } else {
        assert false;
      }
    }

    lemma ChainsApart(other: Bag)
      requires Valid() && other.Valid() && Repr !! other.Repr
      ensures forall i, j :: 0 <= i < |spine| && 0 <= j < |other.spine| ==>
                spine[i] != other.spine[j] && spine[i].items != other.spine[j].items
    {
      forall i, j | 0 <= i < |spine| && 0 <= j < |other.spine|
        ensures spine[i] != other.spine[j] && spine[i].items != other.spine[j].items
      {
        assert ChunkOk(i) && other.ChunkOk(j);
      }
    }

    /** The splice of bag_append: the chain of `other` goes behind this one. */
    method Splice(other: Bag)
      requires Valid() && other.Valid() && Repr !! other.Repr && front != null && other.front != null
      modifies this, back`next
      ensures Valid() && front != null && back == old(other.back)
      ensures Repr == old(Repr) + (old(other.Repr) - {other})
      ensures Contents() == old(Contents()) + old(other.Contents())
    {
      ghost var m := |spine|;
      ghost var spine0, parts0 := spine, parts;
      ChainsApart(other);
      assert ChunkOk(m - 1);
      back.next := other.front;
      back := other.back;
      spine, parts, Repr := spine + other.spine, parts + other.parts, Repr + (other.Repr - {other});
      forall i | 0 <= i < |spine|
        ensures ChunkOk(i)
      {
        if i < m {
          assert spine[i] == spine0[i] && parts[i] == parts0[i] && old(ChunkOk(i));
        } else {
          assert spine[i] == other.spine[i - m] && parts[i] == other.parts[i - m] && old(other.ChunkOk(i - m));
        }
      }
      forall i, j | 0 <= i < j < |spine|
        ensures spine[i] != spine[j] && spine[i].items != spine[j].items
      {
        assert i < m <= j ==> spine[i] == spine0[i] && spine[j] == other.spine[j - m];
      }
      FlattenConcat(parts0, other.parts);
    }

    /** bag_append: `other` is spliced behind this bag and starts afresh. */
    method Append(other: Bag)
      requires Valid() && other.Valid() && Repr !! other.Repr && front != null
      modifies Repr, other.Repr
      ensures Valid() && other.Valid() && Repr !! other.Repr && front != null
      ensures Repr <= old(Repr + other.Repr) && fresh(other.Repr - old(other.Repr))
      ensures Contents() == old(Contents()) + old(other.Contents())
      ensures other.Contents() == []
      ensures old(other.front) != null ==> other.front != null && other.Packed()
    {
      if other.front != null {
        assert ChunkOk(|spine| - 1);
        Splice(other);
        other.Init();
      }
    }

    /** bag_size. */
    method Size() returns (size: nat)
      requires Valid()
      ensures size == |Contents()|
    {
      var c := front;
      size := 0;
      ghost var i := 0;
      assert parts[0..] == parts;
      while c != null
        invariant 0 <= i <= |spine|
        invariant c == if i < |spine| then spine[i] else null
        invariant size + |Flatten(parts[i..])| == |Contents()|
        decreases |spine| - i
      {
        assert ChunkOk(i);
        assert parts[i..][1..] == parts[i + 1..];
        size := size + c.size;
        c := c.next;
        i := i + 1;
      }
    }

    /** bag_free: every chunk is freed, each once. */
    method Free()
      requires Valid()
      modifies Repr
      ensures forall i :: 0 <= i < |old(spine)| ==> !old(spine)[i].alive
    {
      var c := front;
      ghost var i := 0;
      while c != null
        invariant 0 <= i <= |spine|
        invariant spine == old(spine) && parts == old(parts) && Repr == old(Repr)
        invariant c == if i < |spine| then spine[i] else null
        invariant forall j :: 0 <= j < i ==> !spine[j].alive
        invariant forall j :: i <= j < |spine| ==> spine[j].alive == old(spine[j].alive)
        invariant forall j :: 0 <= j < |spine| ==> spine[j].next == old(spine[j].next)
        decreases |spine| - i
      {
        assert old(ChunkOk(i));
        c := ChunkNext(c, true);
        i := i + 1;
      }
    }
  }
}
