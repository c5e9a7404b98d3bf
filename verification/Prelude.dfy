/** Types shared by the other modules. */
module Prelude {
  datatype Option<+T> = None | Some(value: T) {
    function Extract(): T
      requires Some?
    {
      value
    }
  }

  datatype Result<+T, +E> = Ok(value: T) | Err(error: E)

  /** What ECMAScript trims and its \s matches. */
  predicate White(c: char) {
    var u := c as int;
    0x9 <= u <= 0xd || u == 0x20 || u == 0xa0 || u == 0x1680 || 0x2000 <= u <= 0x200a || u == 0x2028 || u == 0x2029 ||
    u == 0x202f || u == 0x205f || u == 0x3000 || u == 0xfeff
  }
}
