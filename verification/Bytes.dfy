/** Bytes, big-endian numbers and 32-byte hashes. */
module Bytes {
  type byte = b: nat | b < 256

  function Zeros(n: nat): (z: seq<byte>)
    ensures |z| == n
    ensures forall i :: 0 <= i < n ==> z[i] == 0
  {
    if n == 0 then [] else [0] + Zeros(n - 1)
  }

  /** `256^k`: the number of values of a `k`-byte word. */
  function Pow256(k: nat): (p: nat)
    ensures p >= 1
  {
    if k == 0 then 1 else 256 * Pow256(k - 1)
  }

  const TWO_TO_16: nat := 0x1_0000
  const TWO_TO_32: nat := 0x1_0000_0000
  const TWO_TO_64: nat := 0x1_0000_0000_0000_0000

  type uint16 = n: nat | n < TWO_TO_16
  type uint32 = n: nat | n < TWO_TO_32
  type uint64 = n: nat | n < TWO_TO_64

  lemma {:induction false} WordSizes()
    ensures Pow256(2) == TWO_TO_16 && Pow256(4) == TWO_TO_32 && Pow256(8) == TWO_TO_64
  {
    assert Pow256(6) == 256 * 256 * Pow256(4);
  }

  type Hash = s: seq<byte> | |s| == 32 witness Zeros(32)

  const ZERO_HASH: Hash := Zeros(32)

  /** The low `k` bytes of `n`, most significant first. */
  function BigEndian(n: nat, k: nat): (bytes: seq<byte>)
    ensures |bytes| == k
  {
    if k == 0 then [] else BigEndian(n / 256, k - 1) + [n % 256]
  }

  function FromBigEndian(bytes: seq<byte>): nat {
    if bytes == [] then 0 else 256 * FromBigEndian(bytes[..|bytes| - 1]) + bytes[|bytes| - 1]
  }

  lemma {:induction false} FromBigEndianBound(bytes: seq<byte>)
    ensures FromBigEndian(bytes) < Pow256(|bytes|)
  {
    if bytes != [] {
      FromBigEndianBound(bytes[..|bytes| - 1]);
    }
  }

  lemma {:induction false} DecodeEncode(n: nat, k: nat)
    requires n < Pow256(k)
    ensures FromBigEndian(BigEndian(n, k)) == n
  {
    if k > 0 {
      DecodeEncode(n / 256, k - 1);
      assert BigEndian(n, k)[..k - 1] == BigEndian(n / 256, k - 1);
    }
  }

  lemma {:induction false} EncodeDecode(bytes: seq<byte>)
    ensures BigEndian(FromBigEndian(bytes), |bytes|) == bytes
  {
    if bytes != [] {
      EncodeDecode(bytes[..|bytes| - 1]);
    }
  }

  /** Encoding keeps the low bytes only. */
  lemma {:induction false} LowBytes(n: nat, k: nat)
    ensures FromBigEndian(BigEndian(n, k)) == n % Pow256(k)
  {
    if k > 0 {
      LowBytes(n / 256, k - 1);
      assert BigEndian(n, k)[..k - 1] == BigEndian(n / 256, k - 1);
      LowByteFirst(n, Pow256(k - 1));
    }
  }

  lemma {:induction false} LowByteFirst(n: nat, p: nat)
    requires p > 0
    ensures n % (256 * p) == 256 * (n / 256 % p) + n % 256
  {
    var h := n / 256;
    var q, r := h / p, 256 * (h % p) + n % 256;
    assert h == p * q + h % p;
    assert n == 256 * p * q + r;
    RemainderOf(256 * p, q, r);
  }

  lemma {:induction false} RemainderOf(m: nat, q: nat, r: nat)
    requires r < m
    ensures (m * q + r) % m == r
  {
    var q', r' := (m * q + r) / m, (m * q + r) % m;
    var d := q - q';
    assert m * q + r == m * q' + r';
    assert m * d == r' - r;
    assert d >= 1 ==> m * d >= m;
    assert d <= -1 ==> m * d <= 0 - m;
  }

  lemma SliceOfSlice<T>(s: seq<T>, a: nat, b: nat, i: nat, j: nat)
    requires a <= b <= |s| && i <= j <= b - a
    ensures s[a..b][i..j] == s[a + i..a + j]
  {
    var whole := s[a..b];
    forall k | 0 <= k < j - i ensures whole[i..j][k] == s[a + i..a + j][k] {
      assert whole[i..j][k] == whole[i + k];
    }
  }

  /** Copies `bytes` into `buffer` at `at`. */
  method CopyInto(buffer: array<byte>, at: nat, bytes: seq<byte>)
    requires at + |bytes| <= buffer.Length
    modifies buffer
    ensures buffer[..] == old(buffer[..at]) + bytes + old(buffer[at + |bytes|..])
  {
    for i := 0 to |bytes|
      invariant buffer[..at] == old(buffer[..at])
      invariant buffer[at..at + i] == bytes[..i]
      invariant buffer[at + i..] == old(buffer[at + i..])
    {
      buffer[at + i] := bytes[i];
    }
    assert bytes[..|bytes|] == bytes;
    assert buffer[..] == buffer[..at] + buffer[at..at + |bytes|] + buffer[at + |bytes|..];
  }

  /** The zeroed buffer has been written up to the end of `s`. */
  ghost predicate Written(buffer: array<byte>, s: seq<byte>)
    reads buffer
  {
    |s| <= buffer.Length && buffer[..] == s + Zeros(buffer.Length - |s|)
  }

  /** Writes a field of a zeroed buffer at or after the end of what is written. */
  method WriteAt(buffer: array<byte>, at: nat, bytes: seq<byte>, ghost s: seq<byte>)
    requires Written(buffer, s) && |s| <= at && at + |bytes| <= buffer.Length
    modifies buffer
    ensures Written(buffer, s + Zeros(at - |s|) + bytes)
  {
    CopyInto(buffer, at, bytes);
    assert old(buffer[..at]) == s + Zeros(at - |s|);
    assert old(buffer[at + |bytes|..]) == Zeros(buffer.Length - at - |bytes|);
  }

  method ZeroedBuffer(n: nat) returns (buffer: array<byte>)
    ensures fresh(buffer) && buffer.Length == n && Written(buffer, [])
  {
    buffer := new byte[n](_ => 0);
  }

  lemma WholeBuffer(buffer: array<byte>, s: seq<byte>)
    requires Written(buffer, s) && |s| == buffer.Length
    ensures buffer[..] == s
  {
  }

  /** The two-to-one hash used by the withdraw trie. */
  type Keccak2 = (Hash, Hash) -> Hash
}
