/** The fixed-capacity ring that retains the tail of a terminal's output. */
module ByteRings {

  type Byte = bv8

  /** The last `size` elements of `s`, or all of them. */
  function Suffix<T>(s: seq<T>, size: nat): (t: seq<T>)
    ensures |t| == if |s| < size then |s| else size
  {
    if |s| <= size then s else s[|s| - size..]
  }

  /** Elements that left the tail never come back. */
  lemma SuffixOfSuffix<T>(s: seq<T>, more: seq<T>, size: nat)
    ensures Suffix(Suffix(s, size) + more, size) == Suffix(s + more, size)
  {
    if |s| > size {
      assert Suffix(s, size) + more == (s + more)[|s| - size..];
    }
  }

  /** What the fields of a ring stand for. */
  function Retained<T>(buf: seq<T>, w: nat, full: bool): seq<T>
    requires w <= |buf|
  {
    if full then buf[w..] + buf[..w] else buf[..w]
  }

  /** `b` with `p` copied in at index `at`. */
  function Patched<T>(b: seq<T>, at: nat, p: seq<T>): seq<T>
    requires at + |p| <= |b|
  {
    b[..at] + p + b[at + |p|..]
  }

  lemma SplitAt<T>(s: seq<T>, t: seq<T>)
    ensures (s + t)[..|s|] == s && (s + t)[|s|..] == t
  {
  }

  lemma DropFront<T>(front: seq<T>, rest: seq<T>)
    ensures Suffix(front + rest, |rest|) == rest
  {
  }

  /** Writing `p` over `y` in a buffer `x + y + z` whose write position is after `x`. */
  lemma WriteInPlace<T>(x: seq<T>, y: seq<T>, z: seq<T>, p: seq<T>, full: bool)
    requires |y| == |p|
    ensures Retained(x + p + z, |x| + |p|, full) == Suffix(Retained(x + y + z, |x|, full) + p, |x + y + z|)
  {
    SplitAt(x + p, z);
    SplitAt(x, y + z);
    assert x + y + z == x + (y + z);
    if full {
      DropFront(y, z + x + p);
      assert y + (z + x + p) == y + z + x + p;
      assert z + (x + p) == z + x + p;
    }
  }

  /** Writing `p` up to the end of the buffer `x + y`, the next write position being its start. */
  lemma WriteToTheEnd<T>(x: seq<T>, y: seq<T>, p: seq<T>, full: bool)
    requires |y| == |p|
    ensures Retained(x + p, 0, true) == Suffix(Retained(x + y, |x|, full) + p, |x + y|)
  {
    SplitAt(x, y);
    assert Retained(x + p, 0, true) == x + p;
    if full {
      DropFront(y, x + p);
      assert y + (x + p) == y + x + p;
    }
  }

  /** Writing `p1 + p2` over `z` and then over `x` in a buffer `x + y + z`. */
  lemma WriteAround<T>(x: seq<T>, y: seq<T>, z: seq<T>, p1: seq<T>, p2: seq<T>, full: bool)
    requires |p1| == |z| && |p2| == |x|
    ensures Retained(p2 + y + p1, |p2|, true)
            == Suffix(Retained(x + y + z, |x + y|, full) + (p1 + p2), |x + y + z|)
  {
    SplitAt(p2, y + p1);
    SplitAt(x + y, z);
    assert p2 + y + p1 == p2 + (y + p1);
    var rest := y + (p1 + p2);
    assert y + p1 + p2 == rest;
    if full {
      DropFront(z + x, rest);
      assert z + x + rest == z + (x + y) + (p1 + p2);
    } else {
      DropFront(x, rest);
      assert x + rest == x + y + (p1 + p2);
    }
  }

  /** The read-out after a write that does not go past the end of the buffer. */
  lemma StoreAhead<T>(b: seq<T>, w: nat, full: bool, p: seq<T>)
    requires |p| < |b| && w + |p| <= |b| && w < |b|
    ensures var end := w + |p|;
            Retained(Patched(b, w, p), if end < |b| then end else 0, full || end == |b|)
            == Suffix(Retained(b, w, full) + p, |b|)
  {
    var x, y, z := b[..w], b[w..w + |p|], b[w + |p|..];
    assert b == x + y + z;
    if z != [] {
      WriteInPlace(x, y, z, p, full);
    } else {
      assert b == x + y && Patched(b, w, p) == x + p;
      WriteToTheEnd(x, y, p, full);
    }
  }

  /** The read-out after a write that wraps. */
  lemma StoreAround<T>(b: seq<T>, w: nat, full: bool, p: seq<T>)
    requires |p| < |b| && w + |p| > |b| && w < |b|
    ensures var k := |b| - w;
            Retained(Patched(Patched(b, w, p[..k]), 0, p[k..]), w + |p| - |b|, true)
            == Suffix(Retained(b, w, full) + p, |b|)
  {
    var k := |b| - w;
    var e := |p| - k;
    var x, y, z := b[..e], b[e..w], b[w..];
    assert b == x + y + z by {
      assert b[..w] == x + y;
    }
    WriteAround(x, y, z, p[..k], p[k..], full);
    PatchAround(x, y, z, p[..k], p[k..]);
    assert p == p[..k] + p[k..];
  }

  lemma PatchAround<T>(x: seq<T>, y: seq<T>, z: seq<T>, p1: seq<T>, p2: seq<T>)
    requires |p1| == |z| && |p2| == |x|
    ensures Patched(Patched(x + y + z, |x + y|, p1), 0, p2) == p2 + y + p1
  {
    SplitAt(x + y, z);
    assert Patched(x + y + z, |x + y|, p1) == x + y + p1;
    SplitAt(x, y + p1);
    assert x + y + p1 == x + (y + p1);
    assert p2 + (y + p1) == p2 + y + p1;
  }

  lemma WriteOver<T>(b: seq<T>, kept: seq<T>, p: seq<T>)
    requires 0 < |b| <= |p|
    ensures Retained(Patched(b, 0, p[|p| - |b|..]), 0, true) == Suffix(kept + p, |b|)
  {
    assert (kept + p)[|kept| + |p| - |b|..] == p[|p| - |b|..];
    assert Patched(b, 0, p[|p| - |b|..]) == p[|p| - |b|..];
  }

  lemma WrapIndex(end: nat, size: nat)
    requires 0 < size && end < 2 * size
    ensures end % size == if end < size then end else end - size
  {
    if end >= size {
      assert (end - size) % size == end - size;
    }
  }

  class ByteRing {
    const buf: array<Byte>
    var w: nat
    var full: bool
    /** Everything ever written. */
    ghost var written: seq<Byte>

    ghost predicate Valid()
      reads this, buf
    {
      && w <= buf.Length && (buf.Length > 0 ==> w < buf.Length)
      && Retained(buf[..], w, full) == Suffix(written, buf.Length)
      && (buf.Length > 0 && !full ==> |written| == w)
    }

    constructor (size: nat)
      ensures Valid() && fresh(buf) && buf.Length == size && written == []
    {
      buf := new Byte[size](_ => 0);
      w, full, written := 0, false, [];
    }

    /** Copies `p` into the buffer from index `at` on. */
    method Copy(at: nat, p: seq<Byte>)
      requires at + |p| <= buf.Length
      modifies buf
      ensures buf[..] == Patched(old(buf[..]), at, p)
    {
      forall i | 0 <= i < |p| {
        buf[at + i] := p[i];
      }
      assert buf[..at] == old(buf[..at]) && buf[at + |p|..] == old(buf[at + |p|..]);
      assert buf[at..at + |p|] == p;
      assert buf[..] == buf[..at] + buf[at..at + |p|] + buf[at + |p|..];
    }

    method Write(p: seq<Byte>)
      requires Valid()
      modifies this, buf
      ensures Valid() && written == old(written) + p
    {
      var size := buf.Length;
      SuffixOfSuffix(written, p, size);
      written := written + p;
      if size == 0 {
        return;
      }
      if |p| >= size {
        WriteOver(buf[..], Suffix(old(written), size), p);
        Copy(0, p[|p| - size..]);
        w := 0;
        full := true;
        return;
      }
      WriteShort(p);
      assert Retained(buf[..], w, full) == Suffix(Suffix(old(written), size) + p, size);
    }

    /** A write shorter than the buffer. */
    method WriteShort(p: seq<Byte>)
      requires w < buf.Length && |p| < buf.Length
      modifies `w, `full, buf
      ensures w < buf.Length && (!full ==> !old(full) && w == old(w) + |p|)
      ensures Retained(buf[..], w, full) == Suffix(old(Retained(buf[..], w, full)) + p, buf.Length)
    {
      ghost var want := Suffix(Retained(buf[..], w, full) + p, buf.Length);
      CopyAround(p);
      var end := w + |p|;
      if end >= buf.Length {
        full := true;
      }
      MoveTo(end);
      assert Retained(buf[..], w, full) == want;
    }

    /** Moves the write position, which wraps to the start at the end of the buffer. */
    method MoveTo(end: nat)
      requires end < 2 * buf.Length
      modifies `w
      ensures w == if end < buf.Length then end else end - buf.Length
    {
      WrapIndex(end, buf.Length);
      w := end % buf.Length;
    }

    /** Copies a short `p` from the write position on, going round to the start if it does not fit. */
    method CopyAround(p: seq<Byte>)
      requires w < buf.Length && |p| < buf.Length
      modifies this`full, buf
      ensures var end := w + |p|;
              Retained(buf[..], if end < buf.Length then end else end - buf.Length, old(full) || end >= buf.Length)
              == Suffix(old(Retained(buf[..], w, full)) + p, buf.Length)
      ensures w + |p| <= buf.Length ==> full == old(full)
    {
      var size, end := buf.Length, w + |p|;
      ghost var before := buf[..];
      if end <= size {
        StoreAhead(before, w, full, p);
        Copy(w, p);
      } else {
        StoreAround(before, w, full, p);
        var k := size - w;
        Copy(w, p[..k]);
        Copy(0, p[k..]);
        full := true;
      }
    }

    method Bytes() returns (out: seq<Byte>)
      requires Valid()
      ensures out == Suffix(written, buf.Length)
    {
      if !full {
        return buf[..w];
      }
      out := buf[w..];
      out := out + buf[..w];
    }
  }

  /** The chunks laid end to end. */
  function Flatten<T>(chunks: seq<seq<T>>): seq<T> {
    if chunks == [] then [] else Flatten(chunks[..|chunks| - 1]) + chunks[|chunks| - 1]
  }

  lemma FlattenSnoc<T>(chunks: seq<seq<T>>, c: seq<T>)
    ensures Flatten(chunks + [c]) == Flatten(chunks) + c
  {
    assert (chunks + [c])[..|chunks|] == chunks;
  }

  lemma {:induction false} FlattenCons<T>(c: seq<T>, chunks: seq<seq<T>>)
    ensures Flatten([c] + chunks) == c + Flatten(chunks)
  {
    if chunks == [] {
      assert [c] + chunks == [c] && [c][..0] == [];
    } else {
      var front, last := chunks[..|chunks| - 1], chunks[|chunks| - 1];
      FlattenCons(c, front);
      assert [c] + chunks == ([c] + front) + [last] by {
        assert chunks == front + [last];
      }
      FlattenSnoc([c] + front, last);
      assert Flatten(chunks) == Flatten(front) + last;
      assert c + Flatten(front) + last == c + (Flatten(front) + last);
    }
  }

  /** Any sequence of writes of any lengths leaves exactly the tail of everything written. */
  method TailOf(size: nat, chunks: seq<seq<Byte>>) returns (tail: seq<Byte>)
    ensures tail == Suffix(Flatten(chunks), size)
  {
    var ring := new ByteRing(size);
    var i := 0;
    while i < |chunks|
      invariant 0 <= i <= |chunks|
      invariant fresh(ring) && fresh(ring.buf) && ring.Valid() && ring.buf.Length == size
      invariant ring.written == Flatten(chunks[..i])
    {
      ring.Write(chunks[i]);
      assert chunks[..i + 1] == chunks[..i] + [chunks[i]];
      FlattenSnoc(chunks[..i], chunks[i]);
      i := i + 1;
    }
    assert chunks[..i] == chunks;
    tail := ring.Bytes();
  }
}
