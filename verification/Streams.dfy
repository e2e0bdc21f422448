/** Readers that observe the bytes passing through them: the hash of internal/hash/sha256.go and the
    byte count of adapters/storage/s3/adapter.go. */
module Streams {
  import opened Entities

  /** Wraps a source and feeds the hasher every byte it hands out. The hash function itself is a
      parameter, applied to the bytes fed so far. */
  class HashingReader {
    const source: Bytes
    const digest: Bytes -> string
    var pos: nat
    var fed: Bytes

    constructor (source: Bytes, digest: Bytes -> string)
      ensures Valid() && this.source == source && this.digest == digest && pos == 0
    {
      this.source, this.digest, pos, fed := source, digest, 0, [];
    }

    /** The hasher has seen exactly what was read. */
    ghost predicate Valid()
      reads this
    {
      pos <= |source| && fed == source[..pos]
    }

    ghost predicate Drained()
      reads this
    {
      pos == |source|
    }

    /** A read of at most `max` bytes: any non-empty chunk, or none at the end of the source. */
    method Read(max: nat) returns (chunk: Bytes)
      requires Valid() && max > 0
      modifies this
      ensures Valid() && old(pos) <= pos && chunk == source[old(pos)..pos] && |chunk| <= max
      ensures chunk == [] <==> old(pos) == |source|
    {
      var n: nat := 0;
      if pos < |source| {
        n :| 1 <= n <= max && n <= |source| - pos;
      }
      chunk := source[pos..pos + n];
      fed := fed + chunk;
      pos := pos + n;
    }

    function Sum(): string
      reads this
    {
      digest(fed)
    }
  }

  class CountingReader {
    const r: HashingReader
    var n: nat

    constructor (r: HashingReader)
      ensures this.r == r && n == 0
    {
      this.r, n := r, 0;
    }

    method Read(max: nat) returns (chunk: Bytes)
      requires r.Valid() && max > 0
      modifies this, r
      ensures r.Valid() && old(r.pos) <= r.pos && chunk == r.source[old(r.pos)..r.pos]
      ensures chunk == [] <==> old(r.pos) == |r.source|
      ensures n == old(n) + |chunk|
    {
      chunk := r.Read(max);
      n := n + |chunk|;
    }
  }
}
