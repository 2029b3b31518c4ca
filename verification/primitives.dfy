/**
 Value types shared by every widget: fixed-width unsigned integers, the
 optional value, and the toolkit's sizing and alignment vocabulary.
 */
module Primitives {

  /** Rust's `u16`, `u32` and `u64`. */
  newtype U16 = x: int | 0 <= x < 0x1_0000
  newtype U32 = x: int | 0 <= x < 0x1_0000_0000
  newtype U64 = x: int | 0 <= x < 0x1_0000_0000_0000_0000

  /** `u32::MAX`, the default maximum width of a text input. */
  const U32_MAX: U32 := 0xFFFF_FFFF

  datatype Option<+T> = None | Some(value: T)

  /** Sizing intent of a widget; resolved by the layout engine, never stored as pixels. */
  datatype Length = Fill | Shrink | Units(units: U16) | FillPortion(portion: U16)

  /** Cross-axis alignment. */
  datatype Align = Start | Center | End | Stretch

  /** Main-axis distribution. */
  datatype Justify = JustifyStart | JustifyCenter | JustifyEnd | SpaceBetween | SpaceAround | SpaceEvenly

  /** `Rectangle<u16>`: the clipped region of an image. */
  datatype Rectangle = Rectangle(x: U16, y: U16, width: U16, height: U16)
}
