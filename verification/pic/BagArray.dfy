/**
 The bags of all the cells, side by side. `owner` says which bag each heap object
 belongs to, so that no two bags share storage. Bag number `open`, if any, is being
 read destructively: its storage is still its own, but its chain is not whole.
 */
module BagArray {
  import opened Particles
  import opened SerialBag

  type Owner = map<object, nat>

  ghost predicate Extends(small: Owner, big: Owner) {
    forall o :: o in small ==> o in big && big[o] == small[o]
  }

  ghost predicate Owned(bags: seq<Bag>, i: nat, owner: Owner)
    requires i < |bags|
    reads bags[i]
  {
    bags[i] in bags[i].Repr && forall o :: o in bags[i].Repr ==> o in owner && owner[o] == i
  }

  ghost predicate Whole(b: Bag)
    reads b, b.Repr
  {
    b.Valid() && b.front != null
  }

  ghost predicate Separate(bags: seq<Bag>, owner: Owner, open: int)
    reads owner.Keys
  {
    forall i :: 0 <= i < |bags| ==>
      bags[i] in owner && Owned(bags, i, owner) && bags[i].Repr <= owner.Keys && (i != open ==> Whole(bags[i]))
  }

  /** What each bag holds, in no particular order. */
  ghost function Holdings(bags: seq<Bag>): (h: seq<multiset<Particle>>)
    reads bags
    ensures |h| == |bags|
    ensures forall i :: 0 <= i < |bags| ==> h[i] == multiset(bags[i].Contents())
  {
    seq(|bags|, i requires 0 <= i < |bags| reads bags => multiset(bags[i].Contents()))
  }

  /** What may change when bags other than `open` are worked on. */
  ghost function NotOf(owner: Owner, open: int): set<object> {
    set o | o in owner && owner[o] != open
  }

  /** A push, serial or concurrent, adds its particle to what the bag holds. */
  method PushInto(b: Bag, serial: bool, p: Particle)
    requires Whole(b)
    modifies b.Repr
    ensures Whole(b) && fresh(b.Repr - old(b.Repr))
    ensures multiset(b.Contents()) == multiset(old(b.Contents())) + multiset{p}
  {
    ghost var parts0 := b.parts;
    if serial {
      b.PushSerial(p);
    } else {
      b.PushConcurrent(p);
    }
    assert Flatten(parts0) == parts0[0] + Flatten(parts0[1..]);
  }

  /** A push into bag k leaves the other bags alone. */
  method PushAt(bags: seq<Bag>, k: nat, serial: bool, p: Particle, ghost owner: Owner, ghost open: int)
    returns (ghost owner': Owner)
    requires k < |bags| && k != open && Separate(bags, owner, open)
    modifies NotOf(owner, open)
    ensures Separate(bags, owner', open) && Extends(owner, owner') && fresh(owner'.Keys - owner.Keys)
    ensures multiset(bags[k].Contents()) == multiset(old(bags[k].Contents())) + multiset{p}
    ensures forall i :: 0 <= i < |bags| && i != k ==> bags[i].parts == old(bags[i].parts)
  {
    hide Flatten;
    var b := bags[k];
    ghost var repr0 := b.Repr;
    assert Owned(bags, k, owner) && Whole(b);
    PushInto(b, serial, p);
    owner' := owner + map o | o in b.Repr :: k;
    forall i | 0 <= i < |bags|
      ensures Owned(bags, i, owner') && bags[i].Repr <= owner'.Keys && (i != open ==> Whole(bags[i]))
    {
      assert old(Owned(bags, i, owner)) && (i != open ==> old(Whole(bags[i])));
      if i != k {
        assert bags[i].Repr !! repr0;
      }
    }
  }

  /** bag_init on bag k, after its chunks have been freed. */
  method InitAt(bags: seq<Bag>, k: nat, ghost owner: Owner) returns (ghost owner': Owner)
    requires k < |bags| && Separate(bags, owner, k)
    modifies bags[k]
    ensures Separate(bags, owner', -1) && Extends(owner, owner') && fresh(owner'.Keys - owner.Keys)
    ensures bags[k].Contents() == []
    ensures forall i :: 0 <= i < |bags| && i != k ==> bags[i].parts == old(bags[i].parts)
  {
    var b := bags[k];
    assert Owned(bags, k, owner);
    b.Init();
    owner' := owner + map o | o in b.Repr :: k;
    forall i | 0 <= i < |bags|
      ensures Owned(bags, i, owner') && bags[i].Repr <= owner'.Keys && Whole(bags[i])
    {
      assert old(Owned(bags, i, owner)) && (i != k ==> old(Whole(bags[i])));
    }
  }

  /** bag_append of bag j behind bag k: the storage of j changes hands, and j starts afresh. */
  method AppendAt(bags: seq<Bag>, k: nat, j: nat, ghost owner: Owner) returns (ghost owner': Owner)
    requires k < |bags| && j < |bags| && k != j && Separate(bags, owner, -1)
    modifies bags[k].Repr, bags[j].Repr
    ensures Separate(bags, owner', -1) && owner.Keys <= owner'.Keys && fresh(owner'.Keys - owner.Keys)
    ensures bags[k].Contents() == old(bags[k].Contents()) + old(bags[j].Contents())
    ensures bags[j].Contents() == []
    ensures forall i :: 0 <= i < |bags| && i != k && i != j ==> bags[i].parts == old(bags[i].parts)
  {
    var b, other := bags[k], bags[j];
    ghost var repr0 := b.Repr + other.Repr;
    assert Owned(bags, k, owner) && Owned(bags, j, owner) && Whole(b) && Whole(other);
    b.Append(other);
    owner' := owner + (map o | o in b.Repr :: k) + (map o | o in other.Repr :: j);
    forall i | 0 <= i < |bags|
      ensures Owned(bags, i, owner') && bags[i].Repr <= owner'.Keys && Whole(bags[i])
    {
      assert old(Owned(bags, i, owner)) && old(Whole(bags[i]));
      if i != k && i != j {
        assert bags[i].Repr !! repr0;
      }
    }
  }
}
