/**
  engine/execrunner/execrunner.go: the buffer that collects what a program prints, up to a bound.
 */
module CappedBuffers {
  // What is held of what was printed: all of it when there is no bound.
  function Held(max: int, printed: seq<char>): (r: seq<char>)
    ensures r <= printed
    ensures |r| == if max > 0 && |printed| > max then max else |printed|
  {
    if max > 0 && |printed| > max then printed[..max] else printed
  }

  class CappedBuffer {
    var buf: seq<char>
    const max: int
    var over: bool
    var cancelled: bool
    // Everything that was given to Write so far.
    ghost var printed: seq<char>

    ghost predicate Valid()
      reads this
    {
      && buf == Held(max, printed)
      && (over <==> max > 0 && |printed| > max)
      && (cancelled <==> over)
    }

    constructor (max: int)
      ensures Valid() && printed == [] && this.max == max
    {
      buf, this.max, over, cancelled, printed := [], max, false, false, [];
    }

    /** After any writes the buffer holds exactly the first max bytes of all that was printed, or all of it, and it is
        over if and only if more was printed than the bound; a short write says how much of it was kept. */
    method Write(p: seq<char>) returns (n: nat, tooLarge: bool)
      requires Valid()
      modifies this
      ensures Valid() && printed == old(printed) + p
      ensures n <= |p| && buf == old(buf) + p[..n]
      ensures tooLarge <==> n < |p|
    {
      printed := printed + p;
      if max > 0 && |buf| + |p| > max {
        var room := max - |buf|;
        buf := buf + p[..room];
        over := true;
        cancelled := true;
        return room, true;
      }
      buf := buf + p;
      return |p|, false;
    }
  }

  // Chunks written one after the other.
  function Joined(chunks: seq<seq<char>>): seq<char> {
    if chunks == [] then [] else Joined(chunks[..|chunks| - 1]) + chunks[|chunks| - 1]
  }

  method WriteAll(c: CappedBuffer, chunks: seq<seq<char>>)
    requires c.Valid() && c.printed == []
    modifies c
    ensures c.buf == Held(c.max, Joined(chunks))
    ensures c.over <==> c.max > 0 && |Joined(chunks)| > c.max
  {
    for i := 0 to |chunks|
      invariant c.Valid() && c.printed == Joined(chunks[..i])
    {
      assert chunks[..i + 1][..i] == chunks[..i];
      var n, tooLarge := c.Write(chunks[i]);
    }
    assert chunks[..|chunks|] == chunks;
  }

  /** How what is printed is cut into writes does not matter. */
  lemma {:induction false} HeldInPieces(max: int, a: seq<char>, b: seq<char>)
    ensures Held(max, Held(max, a) + b) == Held(max, a + b)
  {
    if max > 0 && |a| > max {
      assert (a[..max] + b)[..max] == (a + b)[..max];
    }
  }
}
