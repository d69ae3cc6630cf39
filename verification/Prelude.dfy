/** Small shared vocabulary: options and the Python numeric helpers the models rely on. */
module Prelude {

  datatype Option<+T> = None | Some(value: T)

  /** An axis-aligned box: left, bottom, right, top. */
  datatype Box = Box(x0: real, y0: real, x1: real, y1: real)

  function MaxR(x: real, y: real): real {
    if x >= y then x else y
  }

  function MinR(x: real, y: real): real {
    if x <= y then x else y
  }

  function MaxI(x: int, y: int): int {
    if x >= y then x else y
  }

  function MinI(x: int, y: int): int {
    if x <= y then x else y
  }

  /** Python's `int(x)` on a float: truncation toward zero. */
  function Trunc(x: real): int {
    if x >= 0.0 then x.Floor else -((-x).Floor)
  }

  /** Python's `s.lstrip("/")`. */
  function StripSlashes(s: string): string {
    if s != [] && s[0] == '/' then StripSlashes(s[1..]) else s
  }
}
