/** The byte buffers, readers and buffer pool that relaying works with. */
module Buffers {

  /** `bytes.Buffer`. */
  class Buffer {
    var data: string

    constructor ()
      ensures data == ""
    {
      data := "";
    }

    method Reset()
      modifies this
      ensures data == ""
    {
      data := "";
    }

    method WriteString(s: string)
      modifies this
      ensures data == old(data) + s
    {
      data := data + s;
    }

    /** Appends what the reader has left, and leaves the reader at its end. */
    method ReadFrom(r: Reader)
      requires r.Valid()
      modifies this, r
      ensures data == old(data) + old(r.Rest())
      ensures r.Valid() && r.Rest() == ""
    {
      data := data + r.bytes[r.at..];
      r.at := |r.bytes|;
    }
  }

  /** `bytes.Reader`. */
  class Reader {
    const bytes: string
    var at: nat

    ghost predicate Valid()
      reads this
    {
      at <= |bytes|
    }

    function Rest(): string
      requires Valid()
      reads this
    {
      bytes[at..]
    }

    constructor (s: string)
      ensures Valid() && bytes == s && Rest() == s
    {
      bytes, at := s, 0;
    }

    /** Some other code reads as far as it likes. */
    method Consume(n: nat)
      requires Valid()
      modifies this
      ensures Valid()
    {
      at := if at + n <= |bytes| then at + n else |bytes|;
    }

    /** `Seek(0, io.SeekStart)`. */
    method Rewind()
      modifies this
      ensures Valid() && Rest() == bytes
    {
      at := 0;
    }
  }

  /** `sync.Pool`: an item is free or lent, never both, and only a lent one goes back. */
  class Pool<T(==)> {
    var free: set<T>
    ghost var lent: set<T>

    ghost predicate Valid()
      reads this
    {
      free !! lent
    }

    constructor ()
      ensures Valid() && free == {} && lent == {}
    {
      free, lent := {}, {};
    }

    /** A free item or, when there is none, the one that `New` made. */
    method Get(made: T) returns (x: T)
      requires Valid() && made !in free && made !in lent
      modifies this
      ensures Valid() && x !in old(lent) && (x in old(free) || x == made)
      ensures free == old(free) - {x} && lent == old(lent) + {x}
    {
      if free != {} {
        x :| x in free;
        free := free - {x};
      } else {
        x := made;
      }
      lent := lent + {x};
    }

    method Put(x: T)
      requires Valid() && x in lent
      modifies this
      ensures Valid() && free == old(free) + {x} && lent == old(lent) - {x}
    {
      free := free + {x};
      lent := lent - {x};
    }

    /** The deferred Puts of a call, last taken first. */
    method PutAll(deferred: seq<T>)
      requires Valid()
      requires forall i :: 0 <= i < |deferred| ==> deferred[i] in lent
      requires forall i, j :: 0 <= i < j < |deferred| ==> deferred[i] != deferred[j]
      modifies this
      ensures Valid()
      ensures lent == old(lent) - (set x | x in deferred)
      ensures free == old(free) + (set x | x in deferred)
    {
      var k := |deferred|;
      while k > 0
        invariant 0 <= k <= |deferred| && Valid()
        invariant lent == old(lent) - (set x | x in deferred[k..])
        invariant free == old(free) + (set x | x in deferred[k..])
      {
        k := k - 1;
        assert deferred[k..] == [deferred[k]] + deferred[k + 1..];
        Put(deferred[k]);
      }
      assert deferred[0..] == deferred;
    }
  }
}
