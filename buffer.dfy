/** The `bytes.Buffer` the encoders write into. */
module Buffers {
  /** A buffer that is only ever appended to. */
  class Buffer {
    var text: string

    constructor()
      ensures text == ""
    {
      text := "";
    }

    /** `WriteString`. */
    method WriteString(s: string)
      modifies this
      ensures text == old(text) + s
    {
      text := text + s;
    }
  }
}
