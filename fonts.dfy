/** Font handles and text measurement. Loading a font and measuring text
    are library calls; a measurement is any non-negative function of the
    font, the text and (for multi-line text) the inter-line spacing. */
module Fonts {

  /** A loaded font: the font file, the point size and the style index
      inside the font collection. */
  datatype Font = Font(file: string, size: int, styleIndex: int)

  /** The text measurer: `getsize(text)[0]`, `getsize_multiline(text, spacing)[0]`
      and `getsize_multiline(text, spacing)[1]`. */
  datatype Metrics = Metrics(
    width: (Font, string) -> nat,
    multilineWidth: (Font, string, int) -> nat,
    multilineHeight: (Font, string, int) -> nat)

  /** The inter-line spacing `getsize_multiline` uses when none is given. */
  const DefaultMultilineSpacing: int := 4
}
