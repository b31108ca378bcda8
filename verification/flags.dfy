/** The request modifier bits of a USCSI command (the `Flags` bit set of
    the binding), held as the raw 32-bit pattern the descriptor carries.
    `|` on the bit set is bitwise or on the pattern; `WRITE` is the empty
    pattern, so the write direction is the absence of `READ`. */
module Flags {

  type Bits = bv32

  const SILENT: Bits := 0x0000_0001
  const DIAGNOSE: Bits := 0x0000_0002
  const ISOLATE: Bits := 0x0000_0004
  const READ: Bits := 0x0000_0008
  const WRITE: Bits := 0x0000_0000
  const RESET: Bits := 0x0000_4000
  const RESET_ALL: Bits := 0x0000_8000
  const RQENABLE: Bits := 0x0001_0000
  const RENEGOT: Bits := 0x0002_0000
  const RESET_LUN: Bits := 0x0004_0000
  const PATH_INSTANCE: Bits := 0x0008_0000

  /** Every bit some named flag stands for. */
  const KNOWN: Bits :=
    SILENT | DIAGNOSE | ISOLATE | READ | WRITE | RESET | RESET_ALL
    | RQENABLE | RENEGOT | RESET_LUN | PATH_INSTANCE

  /** The named flags, one constructor per constant. */
  datatype Flag =
    | Silent | Diagnose | Isolate | Read | Write | Reset | ResetAll
    | RqEnable | Renegot | ResetLun | PathInstance

  function Value(f: Flag): Bits {
    match f
    case Silent => SILENT
    case Diagnose => DIAGNOSE
    case Isolate => ISOLATE
    case Read => READ
    case Write => WRITE
    case Reset => RESET
    case ResetAll => RESET_ALL
    case RqEnable => RQENABLE
    case Renegot => RENEGOT
    case ResetLun => RESET_LUN
    case PathInstance => PATH_INSTANCE
  }

  /** Every bit of `v` is set in `bits`. */
  predicate Contains(bits: Bits, v: Bits) {
    bits & v == v
  }

  /** `bits.contains(f)`: every bit of `Value(f)` is set in `bits`,
      spelled out per flag. */
  predicate Has(bits: Bits, f: Flag) {
    match f
    case Silent => Contains(bits, SILENT)
    case Diagnose => Contains(bits, DIAGNOSE)
    case Isolate => Contains(bits, ISOLATE)
    case Read => Contains(bits, READ)
    case Write => Contains(bits, WRITE)
    case Reset => Contains(bits, RESET)
    case ResetAll => Contains(bits, RESET_ALL)
    case RqEnable => Contains(bits, RQENABLE)
    case Renegot => Contains(bits, RENEGOT)
    case ResetLun => Contains(bits, RESET_LUN)
    case PathInstance => Contains(bits, PATH_INSTANCE)
  }

  /** No bit outside the named ones is set. */
  predicate OnlyKnown(bits: Bits) {
    bits & !KNOWN == 0
  }

  /** `a | b | ...`: the flags of a sequence combined left to right with or,
      as an expression such as `Flags::SILENT | Flags::READ` does. */
  function Combine(fs: seq<Flag>): Bits {
    if |fs| == 0 then 0 else Combine(fs[..|fs| - 1]) | Value(fs[|fs| - 1])
  }

  /** `WRITE` is contained in every pattern and or-ing it in changes nothing. */
  lemma WriteIsEmpty(bits: Bits)
    ensures Has(bits, Write)
    ensures bits | Value(Write) == bits
  {
  }

  /** The empty pattern contains no flag but `WRITE`. */
  lemma HasEmpty(f: Flag)
    ensures Has(0, f) <==> f == Write
  {
    match f
    case Silent =>
    case Diagnose =>
    case Isolate =>
    case Read =>
    case Write =>
    case Reset =>
    case ResetAll =>
    case RqEnable =>
    case Renegot =>
    case ResetLun =>
    case PathInstance =>
  }

  /** Or-ing two patterns contains a flag exactly when one of them does. */
  lemma HasUnion(a: Bits, b: Bits, f: Flag)
    ensures Has(a | b, f) <==> Has(a, f) || Has(b, f)
  {
    match f
    case Silent =>
    case Diagnose =>
    case Isolate =>
    case Read =>
    case Write =>
    case Reset =>
    case ResetAll =>
    case RqEnable =>
    case Renegot =>
    case ResetLun =>
    case PathInstance =>
  }

  /** The named flags occupy distinct bits: a flag's pattern contains only
      that flag (and `WRITE`, which every pattern contains), and no bit
      outside the named ones. */
  lemma HasValue(f: Flag, g: Flag)
    ensures Has(Value(f), g) <==> g == f || g == Write
    ensures OnlyKnown(Value(f))
  {
    match g
    case Silent =>
    case Diagnose =>
    case Isolate =>
    case Read =>
    case Write =>
    case Reset =>
    case ResetAll =>
    case RqEnable =>
    case Renegot =>
    case ResetLun =>
    case PathInstance =>
  }

  /** Or-ing in a flag leaves every bit but that flag's as it was. */
  lemma InsertKeepsOtherBits(bits: Bits, f: Flag)
    ensures (bits | Value(f)) & !Value(f) == bits & !Value(f)
  {
    match f
    case Silent =>
    case Diagnose =>
    case Isolate =>
    case Read =>
    case Write =>
    case Reset =>
    case ResetAll =>
    case RqEnable =>
    case Renegot =>
    case ResetLun =>
    case PathInstance =>
  }

  /** Or-ing preserves the absence of unnamed bits. */
  lemma OnlyKnownUnion(a: Bits, b: Bits)
    requires OnlyKnown(a) && OnlyKnown(b)
    ensures OnlyKnown(a | b)
  {
  }

  /** Patterns that agree on every named bit and outside the named bits
      are equal. */
  lemma BitsDetermine(a: Bits, b: Bits)
    requires Contains(a, SILENT) == Contains(b, SILENT)
    requires Contains(a, DIAGNOSE) == Contains(b, DIAGNOSE)
    requires Contains(a, ISOLATE) == Contains(b, ISOLATE)
    requires Contains(a, READ) == Contains(b, READ)
    requires Contains(a, RESET) == Contains(b, RESET)
    requires Contains(a, RESET_ALL) == Contains(b, RESET_ALL)
    requires Contains(a, RQENABLE) == Contains(b, RQENABLE)
    requires Contains(a, RENEGOT) == Contains(b, RENEGOT)
    requires Contains(a, RESET_LUN) == Contains(b, RESET_LUN)
    requires Contains(a, PATH_INSTANCE) == Contains(b, PATH_INSTANCE)
    requires a & !KNOWN == b & !KNOWN
    ensures a == b
  {
  }

  /** Combining a sequence of flags with or yields a pattern that contains a
      flag exactly when the flag occurs in the sequence (`WRITE` aside,
      which every pattern contains). */
  lemma {:induction false} CombineHas(fs: seq<Flag>, f: Flag)
    ensures Has(Combine(fs), f) <==> f in fs || f == Write
  {
    if |fs| == 0 {
      HasEmpty(f);
    } else {
      var init, last := fs[..|fs| - 1], fs[|fs| - 1];
      assert fs == init + [last];
      CombineHas(init, f);
      HasUnion(Combine(init), Value(last), f);
      HasValue(last, f);
    }
  }

  /** A combination of named flags sets no other bit. */
  lemma {:induction false} CombineOnlyKnown(fs: seq<Flag>)
    ensures OnlyKnown(Combine(fs))
  {
    if |fs| != 0 {
      var init, last := fs[..|fs| - 1], fs[|fs| - 1];
      CombineOnlyKnown(init);
      HasValue(last, last);
      OnlyKnownUnion(Combine(init), Value(last));
    }
  }

  /** Two sequences mentioning the same flags combine to the same pattern,
      whatever the order and however often a flag repeats. */
  lemma CombineIgnoresOrder(a: seq<Flag>, b: seq<Flag>)
    requires forall f :: f in a <==> f in b
    ensures Combine(a) == Combine(b)
  {
    CombineHas(a, Silent);
    CombineHas(b, Silent);
    CombineHas(a, Diagnose);
    CombineHas(b, Diagnose);
    CombineHas(a, Isolate);
    CombineHas(b, Isolate);
    CombineHas(a, Read);
    CombineHas(b, Read);
    CombineHas(a, Reset);
    CombineHas(b, Reset);
    CombineHas(a, ResetAll);
    CombineHas(b, ResetAll);
    CombineHas(a, RqEnable);
    CombineHas(b, RqEnable);
    CombineHas(a, Renegot);
    CombineHas(b, Renegot);
    CombineHas(a, ResetLun);
    CombineHas(b, ResetLun);
    CombineHas(a, PathInstance);
    CombineHas(b, PathInstance);
    CombineOnlyKnown(a);
    CombineOnlyKnown(b);
    BitsDetermine(Combine(a), Combine(b));
  }

  /** Appending `WRITE` to a combination leaves the pattern unchanged. */
  lemma CombineWithWrite(fs: seq<Flag>)
    ensures Combine(fs + [Write]) == Combine(fs)
  {
    assert (fs + [Write])[..|fs|] == fs;
  }
}
