/**
 Machine types, and the byte and word views of memory that the programmed-I/O copy mixes: the data
 port moves 32-bit words, buffers and the card hold bytes (little-endian, as on the Arm boards the
 driver runs on).
 */
module Base {
  type u32 = x: int | 0 <= x < 0x1_0000_0000
  type u64 = x: int | 0 <= x < 0x1_0000_0000_0000_0000
  type byte = x: int | 0 <= x < 256

  datatype Option<+T> = None | Some(value: T)

  /** The word stored at address `a`. */
  function WordAt(m: seq<byte>, a: nat): u32
    requires a + 4 <= |m|
  {
    var b0: int, b1: int, b2: int, b3: int := m[a], m[a + 1], m[a + 2], m[a + 3];
    b0 + 0x100 * (b1 + 0x100 * (b2 + 0x100 * b3))
  }

  /** Byte `k` of a word. */
  function ByteOf(w: u32, k: nat): byte
    requires k < 4
  {
    if k == 0 then w % 0x100
    else if k == 1 then w / 0x100 % 0x100
    else if k == 2 then w / 0x100 / 0x100 % 0x100
    else w / 0x100 / 0x100 / 0x100
  }

  /** The `n` words starting at address `a`. */
  function Words(m: seq<byte>, a: nat, n: nat): (ws: seq<u32>)
    requires a + 4 * n <= |m|
    ensures |ws| == n
  {
    seq(n, i requires 0 <= i < n => WordAt(m, a + 4 * i))
  }

  function Bytes(ws: seq<u32>): (bs: seq<byte>)
    ensures |bs| == 4 * |ws|
  {
    seq(4 * |ws|, i requires 0 <= i < 4 * |ws| => ByteOf(ws[i / 4], i % 4))
  }

  /** `m` with the bytes from address `a` on replaced by `b`. */
  function Splice(m: seq<byte>, a: nat, b: seq<byte>): (r: seq<byte>)
    requires a + |b| <= |m|
    ensures |r| == |m|
    ensures r[a..a + |b|] == b
    ensures forall i :: 0 <= i < |m| && !(a <= i < a + |b|) ==> r[i] == m[i]
  {
    m[..a] + b + m[a + |b|..]
  }

  /** The byte at the lowest address is the lowest of the word. */
  lemma LittleEndian()
    ensures WordAt([0x78, 0x56, 0x34, 0x12], 0) == 0x1234_5678
    ensures Bytes([0x1234_5678]) == [0x78, 0x56, 0x34, 0x12]
  {
  }

  lemma ByteOfWordAt(m: seq<byte>, a: nat, k: nat)
    requires a + 4 <= |m| && k < 4
    ensures ByteOf(WordAt(m, a), k) == m[a + k]
  {
    var b0: int, b1: int, b2: int, b3: int := m[a], m[a + 1], m[a + 2], m[a + 3];
    var w: int := WordAt(m, a);
    assert w == b0 + 0x100 * (b1 + 0x100 * (b2 + 0x100 * b3));
    assert w / 0x100 == b1 + 0x100 * (b2 + 0x100 * b3);
    assert w / 0x100 / 0x100 == b2 + 0x100 * b3;
  }

  /** Reading memory as words and writing the words back as bytes is the identity. */
  lemma BytesOfWords(m: seq<byte>, a: nat, n: nat)
    requires a + 4 * n <= |m|
    ensures Bytes(Words(m, a, n)) == m[a..a + 4 * n]
  {
    forall i | 0 <= i < 4 * n
      ensures Bytes(Words(m, a, n))[i] == m[a + i]
    {
      ByteOfWordAt(m, a + 4 * (i / 4), i % 4);
      assert a + 4 * (i / 4) + i % 4 == a + i;
    }
  }

  lemma BytesSnoc(ws: seq<u32>, n: nat)
    requires n < |ws|
    ensures Bytes(ws[..n + 1]) == Bytes(ws[..n]) + Bytes([ws[n]])
  {
    forall i | 0 <= i < 4 * n + 4
      ensures Bytes(ws[..n + 1])[i] == (Bytes(ws[..n]) + Bytes([ws[n]]))[i]
    {
      if i >= 4 * n {
        assert i / 4 == n && i % 4 == i - 4 * n && (i - 4 * n) % 4 == i - 4 * n;
      }
    }
  }

  /** Two adjacent splices are one. */
  lemma SpliceAdjacent(m: seq<byte>, a: nat, b: seq<byte>, c: seq<byte>)
    requires a + |b| + |c| <= |m|
    ensures Splice(Splice(m, a, b), a + |b|, c) == Splice(m, a, b + c)
  {
  }
}
