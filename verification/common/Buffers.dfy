/** Copying stretches of flat buffers, element by element. */
module Buffers {
  import opened Mindex

  /** dst[o + e] = src[so + e] for e below width, from read-only memory */
  method CopyRow<T>(width: nat, dst: array<T>, o: nat, src: seq<T>, so: nat)
    requires o + width <= dst.Length && so + width <= |src|
    modifies dst
    ensures dst[..] == Splice(old(dst[..]), o, src[so..so + width])
  {
    ghost var was, done := dst[..], src[so..so + width];
    for e := 0 to width
      invariant Written(dst[..], was, o, done, e)
    {
      dst[o + e] := src[so + e];
    }
    WrittenIsSplice(dst[..], was, o, done);
  }

  /** The same from another buffer. */
  method CopyCells<T>(width: nat, dst: array<T>, o: nat, src: array<T>, so: nat)
    requires dst != src && o + width <= dst.Length && so + width <= src.Length
    modifies dst
    ensures dst[..] == Splice(old(dst[..]), o, src[so..so + width])
  {
    ghost var was, done := dst[..], src[so..so + width];
    for e := 0 to width
      invariant Written(dst[..], was, o, done, e)
    {
      dst[o + e] := src[so + e];
    }
    WrittenIsSplice(dst[..], was, o, done);
  }
}
