/** Fixed-width integer types and the grid `Position` component. */
module Components {

  /** Rust `u16`. */
  newtype U16 = x: int | 0 <= x < 0x1_0000

  /** Rust `i16`. */
  newtype I16 = x: int | -0x8000 <= x < 0x8000

  /** The `Position` component: one grid cell with signed 16-bit coordinates. */
  datatype Position = Position(x: I16, y: I16)

  /**
   The `as i16` cast of a `u16`: the same 16 bits read as two's complement,
   so values of 0x8000 and above wrap to negative numbers.
   */
  function AsI16(v: U16): (r: I16)
    ensures r as int == v as int || r as int == v as int - 0x1_0000
    ensures v < 0x8000 <==> r >= 0
  {
    if v < 0x8000 then v as int as I16 else (v as int - 0x1_0000) as I16
  }

  /** A cast below 0x8000 is the identity on the numeric value. */
  lemma AsI16Small(v: U16)
    requires v < 0x8000
    ensures AsI16(v) as int == v as int
  {
  }
}
