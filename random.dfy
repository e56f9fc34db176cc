/** The linear congruential generator of src/math/random.c: one step of
    seed := (multiplier * seed + increment) mod modulus on uint32 fields,
    with the product taken in 64 bits. */
module Random {
  const UINT32: nat := 0x1_0000_0000
  const UINT64: nat := 0x1_0000_0000_0000_0000

  type U32 = x: nat | x < UINT32

  /** The constant fields of rand_lcg_t. */
  datatype Params = Params(multiplier: U32, increment: U32, modulus: U32)

  /** LCG_DEFAULT_INIT: Park and Miller's MINSTD, 48271 * seed mod 2^31 - 1. */
  const MINSTD: Params := Params(48271, 0, 0x7FFF_FFFF)

  /** rand_lcg_next's arithmetic as the C code does it: the product in
      uint64, the increment added in uint64, the remainder stored in a
      uint32. Every wrap-around is written out. */
  function NextSeed(p: Params, seed: U32): (r: U32)
    requires p.modulus > 0
    ensures r < p.modulus
  {
    var product := (p.multiplier * seed) % UINT64;
    var sum := (product + p.increment) % UINT64;
    (sum % p.modulus) % UINT32
  }

  /** None of those wrap-arounds ever happens: the exact value
      multiplier * seed + increment stays below 2^64, so the step is the
      textbook LCG step. */
  lemma NoOverflow(p: Params, seed: U32)
    requires p.modulus > 0
    ensures p.multiplier * seed + p.increment < UINT64
    ensures NextSeed(p, seed) == (p.multiplier * seed + p.increment) % p.modulus
  {
    var product := p.multiplier * seed;
    ProductBound(p.multiplier, seed);
    ModSmall(product, UINT64);
    ModSmall(product + p.increment, UINT64);
    ModSmall((product + p.increment) % p.modulus, UINT32);
  }

  lemma ModSmall(x: nat, m: nat)
    requires x < m
    ensures x % m == x
  {
  }

  /** (2^32 - 1)^2 + 2^32 - 1 < 2^64. */
  lemma ProductBound(a: U32, b: U32)
    ensures a * b <= (UINT32 - 1) * (UINT32 - 1)
    ensures a * b + (UINT32 - 1) < UINT64
  {
    MulLe(a, b, UINT32 - 1);
    MulLe(UINT32 - 1, a, UINT32 - 1);
    assert (UINT32 - 1) * (UINT32 - 1) + (UINT32 - 1) == UINT64 - UINT32;
  }

  lemma MulLe(a: nat, b: nat, c: nat)
    requires b <= c
    ensures a * b <= a * c && b * a <= c * a
  {
    assert a * c == a * b + a * (c - b);
  }

  /** The seeds a generator goes through: the i-th call to rand_lcg_next
      returns the (i+1)-th element, and the first is the initial seed. */
  function Seeds(p: Params, seed: U32, n: nat): (s: seq<U32>)
    requires p.modulus > 0
    ensures |s| == n + 1 && s[0] == seed
    ensures forall i | 0 < i <= n :: s[i] < p.modulus && s[i] == NextSeed(p, s[i - 1])
  {
    if n == 0 then [seed] else Seeds(p, seed, n - 1) + [NextSeed(p, Seeds(p, seed, n - 1)[n - 1])]
  }

  /** Under MINSTD, 0 is a fixed point: a generator seeded with 0 returns
      0 for ever. */
  lemma {:induction false} MinstdZeroFixed(n: nat)
    ensures forall i | 0 <= i <= n :: Seeds(MINSTD, 0, n)[i] == 0
  {
    assert NextSeed(MINSTD, 0) == 0;
    if n > 0 {
      MinstdZeroFixed(n - 1);
    }
  }

  /** Under MINSTD every value returned is below 2^31 - 1, whatever the
      initial seed. */
  lemma MinstdBelowModulus(seed: U32, n: nat)
    ensures forall i | 0 < i <= n :: Seeds(MINSTD, seed, n)[i] < 0x7FFF_FFFF
  {
  }

  /** rand_lcg_t: only the seed changes. */
  class Lcg {
    var seed: U32
    var multiplier: U32
    var increment: U32
    var modulus: U32

    function Config(): Params
      reads this
    {
      Params(multiplier, increment, modulus)
    }

    /** LCG_DEFAULT_INIT(seed). */
    constructor Default(seed: U32)
      ensures this.seed == seed && Config() == MINSTD
    {
      this.seed := seed;
      multiplier := 48271;
      increment := 0;
      modulus := 0x7FFF_FFFF;
    }

    /** rand_lcg_next: the generator's next value, which is also its new
        seed. A zero modulus is a division by zero in C. */
    method Next() returns (r: U32)
      requires modulus > 0
      modifies this
      ensures Config() == old(Config())
      ensures r == NextSeed(Config(), old(seed)) && seed == r && r < modulus
    {
      var product := (multiplier * seed) % UINT64;
      r := ((product + increment) % UINT64 % modulus) % UINT32;
      seed := r;
    }
  }
}
