/** Fixed-width big-endian integers, and the reader that consumes octets. */
module BigEndian {
  import opened Model

  function Pow256(w: nat): (r: nat)
    ensures r > 0
  {
    if w == 0 then 1 else 256 * Pow256(w - 1)
  }

  lemma Widths()
    ensures Pow256(2) == 0x1_0000 && Pow256(4) == 0x1_0000_0000 && Pow256(8) == 0x1_0000_0000_0000_0000
  {
    assert Pow256(1) == 256;
    assert Pow256(3) == 0x100_0000;
    assert Pow256(4) == 0x1_0000_0000;
    assert Pow256(5) == 0x100_0000_0000;
    assert Pow256(6) == 0x1_0000_0000_0000;
    assert Pow256(7) == 0x100_0000_0000_0000;
  }

  /** The w low-order octets of n, high-order first: a Go conversion to a w-octet
      integer followed by binary.Write in big-endian order. */
  function Put(n: nat, w: nat): (r: Bytes)
    ensures |r| == w
  {
    if w == 0 then [] else Put(n / 256, w - 1) + [n % 256]
  }

  function Get(b: Bytes): nat {
    if b == [] then 0 else 256 * Get(b[..|b| - 1]) + b[|b| - 1]
  }

  lemma {:induction false} GetBound(b: Bytes)
    ensures Get(b) < Pow256(|b|)
  {
    if b != [] {
      GetBound(b[..|b| - 1]);
    }
  }

  lemma {:induction false} PutFits(n: nat, w: nat)
    requires n < Pow256(w)
    ensures Get(Put(n, w)) == n
  {
    if w > 0 {
      PutFits(n / 256, w - 1);
      assert Put(n, w)[..w - 1] == Put(n / 256, w - 1);
    }
  }

  /** What was written is read back exactly when it fits the width. */
  lemma GetPut(n: nat, w: nat)
    ensures Get(Put(n, w)) == n <==> n < Pow256(w)
  {
    GetBound(Put(n, w));
    if n < Pow256(w) {
      PutFits(n, w);
    }
  }

  lemma {:induction false} PutGet(b: Bytes)
    ensures Put(Get(b), |b|) == b
  {
    if b != [] {
      PutGet(b[..|b| - 1]);
      assert Get(b) / 256 == Get(b[..|b| - 1]) && Get(b) % 256 == b[|b| - 1];
    }
  }

  /** Go's conversion of a signed integer to uint64, and back. */
  function ToUint64(n: int): nat {
    n % 0x1_0000_0000_0000_0000
  }

  function ToInt64(n: nat): int {
    if n < 0x8000_0000_0000_0000 then n else n - 0x1_0000_0000_0000_0000
  }

  predicate IsInt64(n: int) {
    -0x8000_0000_0000_0000 <= n < 0x8000_0000_0000_0000
  }

  lemma SignedRoundTrip(n: int)
    ensures ToUint64(n) < 0x1_0000_0000_0000_0000
    ensures IsInt64(n) <==> ToInt64(ToUint64(n)) == n
  {
  }

  lemma UnsignedRoundTrip(n: nat)
    requires n < 0x1_0000_0000_0000_0000
    ensures ToUint64(ToInt64(n)) == n && IsInt64(ToInt64(n))
  {
  }

  /** The first n octets and the rest, or nothing when there are fewer. */
  function Take(b: Bytes, n: nat): Option<(Bytes, Bytes)> {
    if n <= |b| then Some((b[..n], b[n..])) else None
  }

  lemma TakeConcat(a: Bytes, b: Bytes)
    ensures Take(a + b, |a|) == Some((a, b))
  {
    assert (a + b)[..|a|] == a && (a + b)[|a|..] == b;
  }

  /** bytes.Reader. */
  class Reader {
    const buf: Bytes
    var pos: nat

    ghost predicate Valid()
      reads this
    {
      pos <= |buf|
    }

    /** What has not been read yet. */
    ghost function Rest(): Bytes
      requires Valid()
      reads this
    {
      buf[pos..]
    }

    constructor (buf: Bytes)
      ensures Valid() && Rest() == buf
    {
      this.buf := buf;
      pos := 0;
    }

    method Len() returns (n: nat)
      requires Valid()
      ensures n == |Rest()|
    {
      n := |buf| - pos;
    }

    /** io.ReadFull; None when too few octets are left. */
    method ReadFull(n: nat) returns (b: Option<Bytes>)
      requires Valid()
      modifies this
      ensures Valid()
      ensures match Take(old(Rest()), n)
              case Some(p) => b == Some(p.0) && Rest() == p.1
              case None => b == None
    {
      if |buf| - pos < n {
        return None;
      }
      b := Some(buf[pos..pos + n]);
      ghost var rest := Rest();
      assert rest[..n] == buf[pos..pos + n] && rest[n..] == buf[pos + n..];
      pos := pos + n;
    }
  }
}
