/** Unsigned saturating arithmetic of 32 and 64 bits. */
module Saturating {
  import opened Bytes

  const U64_MAX := 0xFFFF_FFFF_FFFF_FFFF

  function Min(a: nat, b: nat): (r: nat)
  {
    if a < b then a else b
  }

  function Max(a: nat, b: nat): (r: nat)
  {
    if a < b then b else a
  }

  function Add32(a: nat, b: nat): (r: nat)
  {
    Min(a + b, U32_MAX)
  }

  function Mul32(a: nat, b: nat): (r: nat)
  {
    Min(a * b, U32_MAX)
  }

  function Sub32(a: nat, b: nat): (r: nat)
  {
    if a < b then 0 else a - b
  }

  function Add64(a: nat, b: nat): (r: nat)
  {
    Min(a + b, U64_MAX)
  }

  function Mul64(a: nat, b: nat): (r: nat)
  {
    Min(a * b, U64_MAX)
  }
}
