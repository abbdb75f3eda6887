// Fields in network byte order, and writing a packet into a buffer front to
// back.
module Wire {
  import opened Types

  function Be16(x: uint16): seq<byte> {
    [x / 256, x % 256]
  }

  function Be32(x: uint32): seq<byte> {
    [x / 0x100_0000, x / 0x1_0000 % 256, x / 256 % 256, x % 256]
  }

  function Be24(x: nat): seq<byte>
    requires x < 0x100_0000
  {
    [x / 0x1_0000, x / 256 % 256, x % 256]
  }

  function Get16(s: seq<byte>, i: nat): uint16
    requires i + 2 <= |s|
  {
    s[i] as int * 256 + s[i + 1] as int
  }

  function Get24(s: seq<byte>, i: nat): nat
    requires i + 3 <= |s|
  {
    s[i] as int * 0x1_0000 + s[i + 1] as int * 256 + s[i + 2] as int
  }

  function Get32(s: seq<byte>, i: nat): uint32
    requires i + 4 <= |s|
  {
    s[i] as int * 0x100_0000 + s[i + 1] as int * 0x1_0000 + s[i + 2] as int * 256 + s[i + 3] as int
  }

  lemma Get16Back(a: seq<byte>, x: uint16, b: seq<byte>)
    ensures Get16(a + Be16(x) + b, |a|) == x
  {
  }

  lemma Get24Back(a: seq<byte>, x: nat, b: seq<byte>)
    requires x < 0x100_0000
    ensures Get24(a + Be24(x) + b, |a|) == x
  {
    var s := a + Be24(x) + b;
    assert s[|a|] == x / 0x1_0000 && s[|a| + 1] == x / 256 % 256 && s[|a| + 2] == x % 256;
    assert x == x / 256 * 256 + x % 256 && x / 256 == x / 0x1_0000 * 256 + x / 256 % 256;
  }

  lemma Get32Back(a: seq<byte>, x: uint32, b: seq<byte>)
    ensures Get32(a + Be32(x) + b, |a|) == x
  {
    var s := a + Be32(x) + b;
    assert s[|a|] == x / 0x100_0000 && s[|a| + 1] == x / 0x1_0000 % 256 && s[|a| + 2] == x / 256 % 256
           && s[|a| + 3] == x % 256;
    assert x == x / 256 * 256 + x % 256;
    assert x / 256 == x / 0x1_0000 * 256 + x / 256 % 256;
    assert x / 0x1_0000 == x / 0x100_0000 * 256 + x / 0x1_0000 % 256;
  }

  // A field of a part of a packet.
  lemma GetInside(a: seq<byte>, m: seq<byte>, b: seq<byte>, i: nat)
    ensures i + 2 <= |m| ==> Get16(a + m + b, |a| + i) == Get16(m, i)
    ensures i + 3 <= |m| ==> Get24(a + m + b, |a| + i) == Get24(m, i)
    ensures i + 4 <= |m| ==> Get32(a + m + b, |a| + i) == Get32(m, i)
  {
    assert forall j :: 0 <= j < |m| ==> (a + m + b)[|a| + j] == m[j];
  }

  // A list of 32-bit words.
  function Be32s(xs: seq<uint32>): (s: seq<byte>)
    ensures |s| == 4 * |xs|
  {
    if xs == [] then [] else Be32(xs[0]) + Be32s(xs[1..])
  }

  lemma {:induction false} Be32sAt(xs: seq<uint32>, i: nat)
    requires i < |xs|
    ensures Get32(Be32s(xs), 4 * i) == xs[i]
  {
    if i == 0 {
      Get32Back([], xs[0], Be32s(xs[1..]));
      assert [] + Be32(xs[0]) + Be32s(xs[1..]) == Be32s(xs);
    } else {
      Be32sAt(xs[1..], i - 1);
      GetInside(Be32(xs[0]), Be32s(xs[1..]), [], 4 * (i - 1));
      assert Be32(xs[0]) + Be32s(xs[1..]) + [] == Be32s(xs);
    }
  }

  function Get32s(s: seq<byte>, i: nat, n: nat): (xs: seq<uint32>)
    requires i + 4 * n <= |s|
    ensures |xs| == n && forall k :: 0 <= k < n ==> xs[k] == Get32(s, i + 4 * k)
  {
    seq(n, k requires 0 <= k < n => Get32(s, i + 4 * k))
  }

  lemma Get32sAt(a: seq<byte>, xs: seq<uint32>, b: seq<byte>, k: nat)
    requires k < |xs|
    ensures Get32(a + Be32s(xs) + b, |a| + 4 * k) == xs[k]
  {
    Be32sAt(xs, k);
    GetInside(a, Be32s(xs), b, 4 * k);
  }

  lemma Get32sBack(s: seq<byte>, a: seq<byte>, xs: seq<uint32>, b: seq<byte>)
    requires s == a + Be32s(xs) + b
    ensures Get32s(s, |a|, |xs|) == xs
  {
    forall k | 0 <= k < |xs| ensures Get32(s, |a| + 4 * k) == xs[k] {
      Get32sAt(a, xs, b, k);
    }
  }

  // The bytes m stand in s at offset o.
  ghost predicate Holds(s: seq<byte>, o: nat, m: seq<byte>) {
    o + |m| <= |s| && forall k {:trigger m[k]} :: 0 <= k < |m| ==> s[o + k] == m[k]
  }

  lemma HoldsParts(s: seq<byte>, o: nat, a: seq<byte>, b: seq<byte>)
    requires Holds(s, o, a + b)
    ensures Holds(s, o, a) && Holds(s, o + |a|, b)
  {
    forall k | 0 <= k < |a| ensures s[o + k] == a[k] {
      assert (a + b)[k] == a[k];
    }
    forall k | 0 <= k < |b| ensures s[o + |a| + k] == b[k] {
      assert (a + b)[|a| + k] == b[k];
    }
  }

  lemma HoldsWhole(s: seq<byte>)
    ensures Holds(s, 0, s)
  {
  }

  lemma HeldSlice(s: seq<byte>, o: nat, m: seq<byte>)
    requires Holds(s, o, m)
    ensures s[o..o + |m|] == m
  {
    assert forall k :: 0 <= k < |m| ==> s[o..o + |m|][k] == m[k];
  }

  lemma Held24(s: seq<byte>, o: nat, x: nat)
    requires x < 0x100_0000 && Holds(s, o, Be24(x))
    ensures Get24(s, o) == x
  {
    var m := Be24(x);
    assert s[o] == m[0] && s[o + 1] == m[1] && s[o + 2] == m[2];
    Get24Back([], x, []);
    assert [] + m + [] == m;
  }

  lemma Held32(s: seq<byte>, o: nat, x: uint32)
    requires Holds(s, o, Be32(x))
    ensures Get32(s, o) == x
  {
    var m := Be32(x);
    assert s[o] == m[0] && s[o + 1] == m[1] && s[o + 2] == m[2] && s[o + 3] == m[3];
    Get32Back([], x, []);
    assert [] + m + [] == m;
  }

  lemma {:induction false} Held32s(s: seq<byte>, o: nat, xs: seq<uint32>)
    requires Holds(s, o, Be32s(xs))
    ensures forall k :: 0 <= k < |xs| ==> Get32(s, o + 4 * k) == xs[k]
    decreases |xs|
  {
    if xs != [] {
      HoldsParts(s, o, Be32(xs[0]), Be32s(xs[1..]));
      Held32(s, o, xs[0]);
      Held32s(s, o + 4, xs[1..]);
      forall k | 0 <= k < |xs| ensures Get32(s, o + 4 * k) == xs[k] {
        assert k > 0 ==> Get32(s, o + 4 + 4 * (k - 1)) == xs[1..][k - 1];
      }
    }
  }

  lemma HeadTail<T>(xs: seq<T>)
    requires xs != []
    ensures [xs[0]] + xs[1..] == xs
  {
  }

  // Write bytes at pos.
  method Put(buf: array<byte>, pos: nat, bytes: seq<byte>) returns (end: nat)
    requires pos + |bytes| <= buf.Length
    modifies buf
    ensures end == pos + |bytes| && buf[..end] == old(buf[..pos]) + bytes
  {
    end := pos + |bytes|;
    forall i | 0 <= i < |bytes| {
      buf[pos + i] := bytes[i];
    }
  }
}
