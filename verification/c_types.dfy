/** The fixed-width C integer types of the kernel request record and the
    Rust `as` casts the binding applies to them. The target is LP64, so
    `usize`, `size_t`, `uintptr_t` and `c_ulong` are all 64 bits wide. */
module CTypes {

  type u8 = x: int | 0 <= x < 0x100
  type u16 = x: int | 0 <= x < 0x1_0000
  type i16 = x: int | -0x8000 <= x < 0x8000
  type i32 = x: int | -0x8000_0000 <= x < 0x8000_0000
  type u64 = x: int | 0 <= x < 0x1_0000_0000_0000_0000

  /** `usize`, `size_t` and `uintptr_t` on an LP64 target. */
  type usize = u64

  /** `n as u8`: keeps the low eight bits, so the result is the unique
      byte congruent to `n` modulo 256. */
  function AsU8(n: usize): (r: u8)
    ensures (n - r) % 0x100 == 0
    ensures r <= n
    ensures n < 0x100 <==> r == n
  {
    n % 0x100
  }

  /** `t as i16` on a `u16`: the same sixteen bits read in two's complement. */
  function AsI16(t: u16): (s: i16)
    ensures (t - s) % 0x1_0000 == 0
    ensures t < 0x8000 ==> s == t
    ensures 0x8000 <= t <==> s < 0
  {
    if t < 0x8000 then t else t - 0x1_0000
  }

  /** `s as u16` on an `i16`: the inverse reinterpretation, reading the
      sixteen bits back as unsigned. */
  function AsU16(s: i16): (t: u16)
    ensures (t - s) % 0x1_0000 == 0
    ensures 0 <= s ==> t == s
  {
    if 0 <= s then s else s + 0x1_0000
  }

  /** Reinterpreting a `u16` as `i16` loses nothing: reading the bits back
      as unsigned gives the caller's value. */
  lemma AsI16RoundTrip(t: u16)
    ensures AsU16(AsI16(t)) == t
  {
  }

  /** Every `i16` bit pattern arises from exactly one `u16`. */
  lemma AsU16RoundTrip(s: i16)
    ensures AsI16(AsU16(s)) == s
  {
  }

  /** Two lengths give the same truncated byte exactly when they agree
      modulo 256. */
  lemma AsU8Collides(m: usize, n: usize)
    ensures AsU8(m) == AsU8(n) <==> (m - n) % 0x100 == 0
  {
  }
}
