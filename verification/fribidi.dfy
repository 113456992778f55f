/**
 * The part of the pyfribidi binding the script uses: the paragraph base
 * directions and the shape of `log2vis`, which reorders a line from logical
 * to visual order following the Unicode Bidirectional Algorithm (Unicode
 * Standard Annex #9). The algorithm itself lives in the fribidi C library
 * and is not modelled: callers receive `log2vis` as an arbitrary function.
 */
module Fribidi {

  /** Paragraph base direction: right-to-left, left-to-right, or other neutral. */
  datatype ParType = RTL | LTR | ON

  /** `log2vis(text, base_direction)`, visually reordered text. */
  type Log2Vis = (string, ParType) -> string
}
