/**
 * Fixed-width integers, the option type, and the two shared records of the
 * daemon: the message the consumer loop receives and the backlight device it
 * writes to.
 */
module Types {

  const U32_MAX: int := 0xFFFF_FFFF

  type Byte = x: int | 0 <= x < 0x100
  type U16 = x: int | 0 <= x < 0x1_0000
  type U32 = x: int | 0 <= x <= 0xFFFF_FFFF
  type U64 = x: int | 0 <= x <= 0xFFFF_FFFF_FFFF_FFFF
  type I32 = x: int | -0x8000_0000 <= x < 0x8000_0000
  type I64 = x: int | -0x8000_0000_0000_0000 <= x < 0x8000_0000_0000_0000

  datatype Option<T> = None | Some(value: T)

  /** What the producers send to the control loop. */
  datatype Message = Tick | Input | KbdUp | KbdDown | DspUp | DspDown

  /**
   * One backlight: its maximum level and the size of one manual step. The
   * path of its brightness file is not kept; a write names its channel instead.
   */
  datatype BacklightDevice = BacklightDevice(max: U32, step: U32)
}
