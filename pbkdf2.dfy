/** PBKDF2 as defined in section 5.2 of RFC 2898, as computed by `Rfc2898DeriveBytes`.
    The pseudorandom function (HMAC-SHA1, whose output is 20 bytes) is a parameter. */
module Pbkdf2 {
  import opened Wrappers

  /** The output length of the pseudorandom function, hLen (20 for HMAC-SHA1). */
  const HLen: nat := 20

  /** One output of the pseudorandom function. */
  type Block = s: seq<byte> | |s| == HLen witness seq(HLen, k => 0)

  /** The pseudorandom function, keyed by the password: PRF(P, message). */
  type Prf = (seq<byte>, seq<byte>) -> Block

  /** INT(i): the four-octet big-endian encoding of a block index. */
  function Int32BigEndian(i: nat): (s: seq<byte>)
    ensures |s| == 4
  {
    [i / 0x100_0000 % 256, i / 0x1_0000 % 256, i / 0x100 % 256, i % 256]
  }

  /** The exclusive-or of two blocks, byte by byte. */
  function Xor(a: Block, b: Block): (r: Block)
    ensures forall k | 0 <= k < HLen :: r[k] == ((a[k] as bv8) ^ (b[k] as bv8)) as int
  {
    seq(HLen, k requires 0 <= k < HLen => ((a[k] as bv8) ^ (b[k] as bv8)) as byte)
  }

  /** U_j of block i: U_1 = PRF(P, S || INT(i)) and U_j = PRF(P, U_{j-1}). */
  function U(prf: Prf, password: seq<byte>, salt: seq<byte>, i: nat, j: nat): Block
    requires j >= 1
  {
    if j == 1 then prf(password, salt + Int32BigEndian(i))
    else prf(password, U(prf, password, salt, i, j - 1))
  }

  /** F(P, S, c, i) = U_1 xor U_2 xor ... xor U_c. */
  function F(prf: Prf, password: seq<byte>, salt: seq<byte>, c: nat, i: nat): Block
    requires c >= 1
  {
    if c == 1 then U(prf, password, salt, i, 1)
    else Xor(F(prf, password, salt, c - 1, i), U(prf, password, salt, i, c))
  }

  /** T_1 || T_2 || ... || T_n. */
  function Blocks(prf: Prf, password: seq<byte>, salt: seq<byte>, c: nat, n: nat): (t: seq<byte>)
    requires c >= 1
    ensures |t| == n * HLen
  {
    if n == 0 then [] else Blocks(prf, password, salt, c, n - 1) + F(prf, password, salt, c, n)
  }

  /** The number of blocks needed for a key of `dkLen` bytes: the ceiling of dkLen / hLen. */
  function BlockCount(dkLen: nat): (n: nat)
    ensures n * HLen >= dkLen
    ensures n == 0 || (n - 1) * HLen < dkLen
  {
    (dkLen + HLen - 1) / HLen
  }

  /** DK = the first dkLen octets of T_1 || T_2 || ... || T_l (step 4 of section 5.2). */
  function DeriveKey(prf: Prf, password: seq<byte>, salt: seq<byte>, c: nat, dkLen: nat): (dk: seq<byte>)
    requires c >= 1
    ensures |dk| == dkLen
  {
    Blocks(prf, password, salt, c, BlockCount(dkLen))[..dkLen]
  }

  /** `new Rfc2898DeriveBytes(password, salt, iterations).GetBytes(length)`: the
      library refuses a salt shorter than 8 bytes and an iteration count below 1,
      and otherwise gives the first `length` bytes of the derived key. */
  function Rfc2898DeriveBytes(prf: Prf, password: seq<byte>, salt: seq<byte>, iterations: int, length: nat)
    : (r: Result<seq<byte>>)
    ensures r.Ok? <==> |salt| >= 8 && iterations >= 1
    ensures r.Ok? ==> |r.value| == length
  {
    if |salt| < 8 then Throws(ArgumentException("salt"))
    else if iterations < 1 then Throws(ArgumentOutOfRangeException("iterations"))
    else Ok(DeriveKey(prf, password, salt, iterations, length))
  }

  /** Fewer blocks are a prefix of more blocks. */
  lemma {:induction false} BlocksPrefix(prf: Prf, password: seq<byte>, salt: seq<byte>, c: nat, n: nat, m: nat)
    requires c >= 1 && n <= m
    ensures Blocks(prf, password, salt, c, m)[..n * HLen] == Blocks(prf, password, salt, c, n)
    decreases m
  {
    if n < m {
      BlocksPrefix(prf, password, salt, c, n, m - 1);
      var shorter := Blocks(prf, password, salt, c, m - 1);
      assert Blocks(prf, password, salt, c, m)[..(m - 1) * HLen] == shorter;
    }
  }

  /** Byte k of a derived key does not depend on the requested length: asking for
      fewer bytes gives a prefix of a longer key. */
  lemma DeriveKeyPrefix(prf: Prf, password: seq<byte>, salt: seq<byte>, c: nat, short: nat, long: nat)
    requires c >= 1 && short <= long
    ensures DeriveKey(prf, password, salt, c, long)[..short] == DeriveKey(prf, password, salt, c, short)
  {
    var n, m := BlockCount(short), BlockCount(long);
    assert n <= m;
    BlocksPrefix(prf, password, salt, c, n, m);
  }

  /** The first hLen bytes of every key of at least that length are T_1 = F(P, S, c, 1). */
  lemma DeriveKeyFirstBlock(prf: Prf, password: seq<byte>, salt: seq<byte>, c: nat, dkLen: nat)
    requires c >= 1 && dkLen >= HLen
    ensures DeriveKey(prf, password, salt, c, dkLen)[..HLen] == F(prf, password, salt, c, 1)
  {
    DeriveKeyPrefix(prf, password, salt, c, HLen, dkLen);
    assert BlockCount(HLen) == 1;
  }
}
