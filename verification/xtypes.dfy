/**
 * Value types shared by the window-manager engine: fixed-width integers as
 * they appear in the X11 core protocol, and an Option for absent replies.
 */
module XTypes {

  datatype Option<+T> = None | Some(value: T)

  newtype u8 = x: int | 0 <= x < 0x100
  newtype u16 = x: int | 0 <= x < 0x1_0000
  newtype u32 = x: int | 0 <= x < 0x1_0000_0000

  /** A window handle: a 32-bit resource id assigned by the server. */
  type Window = u32
  /** An interned atom. */
  type Atom = u32
  /** A key symbol (KEYSYM). */
  type Keysym = u32
  /** A physical keycode (KEYCODE is a CARD8). */
  type Keycode = u8
}
