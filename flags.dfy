/**
 * The injection flag bitmask. JavaScript's `|` and `&` work on 32-bit two's-complement
 * integers, so a mask is a `bv32` and a numeric flag is converted with `ToInt32Bits`.
 */
module Flags {

  type InjectFlags = bv32

  const Default: InjectFlags := 0
  const Host: InjectFlags := 1
  const Self: InjectFlags := 2
  const SkipSelf: InjectFlags := 4
  const Optional: InjectFlags := 8

  /** The numeric annotation of the `@Inject` decorator (`DecoratorFlags.Inject`). */
  const InjectDecoratorFlag: int := -1

  /** The bit pattern of `ToInt32(n)`: `n` modulo 2^32. */
  function ToInt32Bits(n: int): InjectFlags
  {
    (n % 0x1_0000_0000) as bv32
  }

  predicate HasOptional(flags: InjectFlags) {
    flags & Optional != 0
  }

  /** `x | y` on masks. */
  function Union(x: InjectFlags, y: InjectFlags): InjectFlags {
    x | y
  }

  /** Every bit of `bits` is set in `mask`. */
  predicate Includes(mask: InjectFlags, bits: InjectFlags) {
    mask & bits == bits
  }

  /** `mask` and `bits` have no bit in common. */
  predicate Disjoint(mask: InjectFlags, bits: InjectFlags) {
    mask & bits == 0
  }

  lemma UnionKeeps(x: InjectFlags, y: InjectFlags, bits: InjectFlags)
    requires Includes(x, bits)
    ensures Includes(Union(x, y), bits)
  {
  }

  lemma UnionIncludes(x: InjectFlags, y: InjectFlags)
    ensures Includes(Union(x, y), y)
  {
  }

  lemma UnionDisjoint(x: InjectFlags, y: InjectFlags, other: InjectFlags)
    requires Disjoint(x, other) && Disjoint(y, other)
    ensures Disjoint(Union(x, y), other)
  {
  }
}
