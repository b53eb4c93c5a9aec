/** Pixel samples and the two shared input buffers: their size, the bit
    depth and the masking of the values drawn from `rand()`. */
module Pixels {

  function Pow2(k: nat): (r: nat)
    ensures r >= 1
  {
    if k == 0 then 1 else 2 * Pow2(k - 1)
  }

  /** Bitwise `a & b` on non-negative integers, one bit at a time from the
      least significant end; the result never exceeds either operand. */
  function BitAnd(a: nat, b: nat): (r: nat)
    ensures r <= a && r <= b
  {
    if a == 0 || b == 0 then 0
    else 2 * BitAnd(a / 2, b / 2) + (if a % 2 == 1 && b % 2 == 1 then 1 else 0)
  }

  /** The low `k` bits of `x`, read off one bit at a time. */
  function LowBits(x: nat, k: nat): nat
  {
    if k == 0 then 0 else 2 * LowBits(x / 2, k - 1) + x % 2
  }

  /** Masking with `2^k - 1` keeps the low `k` bits: it is reduction
      modulo `2^k`. */
  lemma MaskIsMod(x: nat, k: nat)
    ensures BitAnd(x, Pow2(k) - 1) == x % Pow2(k)
  {
    MaskIsLowBits(x, k);
    LowBitsIsMod(x, k);
  }

  lemma {:induction false} MaskIsLowBits(x: nat, k: nat)
    ensures BitAnd(x, Pow2(k) - 1) == LowBits(x, k)
  {
    if k > 0 {
      var m := Pow2(k - 1);
      assert Pow2(k) - 1 == 2 * (m - 1) + 1;
      MaskIsLowBits(x / 2, k - 1);
      if x != 0 {
        BitAndOdd(x, m - 1);
      } else {
        LowBitsOfZero(k);
      }
    }
  }

  lemma {:induction false} LowBitsOfZero(k: nat)
    ensures LowBits(0, k) == 0
  {
    if k > 0 {
      LowBitsOfZero(k - 1);
    }
  }

  lemma {:induction false} LowBitsIsMod(x: nat, k: nat)
    ensures LowBits(x, k) == x % Pow2(k)
  {
    if k > 0 {
      LowBitsIsMod(x / 2, k - 1);
      ModHalves(x, Pow2(k - 1));
    }
  }

  /** Masking with an odd `2 c + 1` keeps the lowest bit and masks the
      rest with `c`. */
  lemma BitAndOdd(x: nat, c: nat)
    requires x != 0
    ensures BitAnd(x, 2 * c + 1) == 2 * BitAnd(x / 2, c) + x % 2
  {
    assert (2 * c + 1) / 2 == c && (2 * c + 1) % 2 == 1;
  }

  /** `x mod 2m` from `x/2 mod m` and the lowest bit of `x`. */
  lemma ModHalves(x: nat, m: nat)
    requires m >= 1
    ensures x % (2 * m) == 2 * ((x / 2) % m) + x % 2
  {
    var q, r := (x / 2) / m, (x / 2) % m;
    assert x / 2 == m * q + r;
    var s := 2 * r + x % 2;
    assert x == 2 * (x / 2) + x % 2;
    assert x == (2 * m) * q + s by {
      assert 2 * (m * q) == (2 * m) * q;
    }
    DivModUnique(x, 2 * m, q, s);
  }

  /** The remainder is determined by any decomposition `x = d q + s` with
      `0 <= s < d`. */
  lemma DivModUnique(x: nat, d: nat, q: int, s: int)
    requires d >= 1 && x == d * q + s && 0 <= s < d
    ensures x % d == s
  {
    var q', s' := x / d, x % d;
    assert x == d * q' + s' && 0 <= s' < d;
    var t := q - q';
    assert d * t == s' - s by {
      MulSub(d, q, q');
    }
    if t >= 1 {
      MulAtLeast(d, t);
    } else if t <= -1 {
      MulAtLeast(d, -t);
      MulSub(d, 0, t);
    }
  }

  lemma MulSub(d: int, a: int, b: int)
    ensures d * (a - b) == d * a - d * b
  {
  }

  lemma MulAtLeast(d: int, t: int)
    requires d >= 1 && t >= 1
    ensures d * t >= d
  {
    assert d * t == d * (t - 1) + d;
  }

  /** Build-time configuration: HIGH_BIT_DEPTH and which optimised variants
      are compiled in (ENABLE_VECTOR_PRIMITIVES, ENABLE_ASM_PRIMITIVES). */
  datatype Config = Config(highBitDepth: bool, vectorEnabled: bool, asmEnabled: bool)

  function BitDepth(cfg: Config): nat
  {
    if cfg.highBitDepth then 10 else 8
  }

  /** PIXEL_MAX, `(1 << depth) - 1`: 255 at 8-bit depth, 1023 at high bit
      depth. */
  function PixelMax(cfg: Config): (m: nat)
    ensures m == if cfg.highBitDepth then 1023 else 255
  {
    assert Pow2(8) == 256 && Pow2(10) == 1024;
    Pow2(BitDepth(cfg)) - 1
  }

  /** sizeof(pixel): a byte at 8-bit depth, two bytes at high bit depth. */
  function PixelBytes(cfg: Config): nat
  {
    if cfg.highBitDepth then 2 else 1
  }

  /** Samples written by the fill loop (0x1e00). */
  const FILL_SAMPLES: nat := 0x1e00

  /** BENCH_ALIGNS: alignment slack, in units of 16 bytes. */
  const BENCH_ALIGNS: nat := 16

  /** Samples in each allocation of `0x1e00 * sizeof(pixel) + 16 * BENCH_ALIGNS` bytes. */
  function BufferSamples(cfg: Config): (n: nat)
    ensures n > FILL_SAMPLES
  {
    FILL_SAMPLES + (16 * BENCH_ALIGNS) / PixelBytes(cfg)
  }

  /** `rand() & PIXEL_MAX` for the `n`-th call of `rand`; `rand(n)` is the
      value that call returns. */
  function Sample(cfg: Config, rand: nat -> nat, n: nat): (v: nat)
    ensures v <= PixelMax(cfg) && v <= rand(n)
  {
    BitAnd(rand(n), PixelMax(cfg))
  }

  /** Every sample is a pixel value of the configured depth: it lies in
      [0, PIXEL_MAX], it is the random value reduced modulo PIXEL_MAX + 1,
      and it fits the pixel type without truncation. */
  lemma SampleInRange(cfg: Config, rand: nat -> nat, n: nat)
    ensures Sample(cfg, rand, n) <= PixelMax(cfg)
    ensures Sample(cfg, rand, n) == rand(n) % (PixelMax(cfg) + 1)
    ensures Sample(cfg, rand, n) < Pow2(8 * PixelBytes(cfg))
  {
    MaskIsMod(rand(n), BitDepth(cfg));
    assert Pow2(8) == 256;
    assert Pow2(10) == 1024;
    assert Pow2(16) == 65536;
  }

  /** The buffer contents the fill loop promises: sample `i` of `pbuf1`
      comes from call `2 i` of `rand`, sample `i` of `pbuf2` from call
      `2 i + 1` (the loop draws for the two buffers in turn). */
  ghost predicate Filled(cfg: Config, rand: nat -> nat, b1: seq<int>, b2: seq<int>)
  {
    |b1| >= FILL_SAMPLES && |b2| >= FILL_SAMPLES &&
    (forall i :: 0 <= i < FILL_SAMPLES ==> b1[i] == Sample(cfg, rand, 2 * i)) &&
    (forall i :: 0 <= i < FILL_SAMPLES ==> b2[i] == Sample(cfg, rand, 2 * i + 1))
  }

  /** In filled buffers every written sample is in [0, PIXEL_MAX]. */
  lemma FilledInRange(cfg: Config, rand: nat -> nat, b1: seq<int>, b2: seq<int>, i: nat)
    requires Filled(cfg, rand, b1, b2) && i < FILL_SAMPLES
    ensures 0 <= b1[i] <= PixelMax(cfg) && 0 <= b2[i] <= PixelMax(cfg)
  {
    SampleInRange(cfg, rand, 2 * i);
    SampleInRange(cfg, rand, 2 * i + 1);
  }
}
