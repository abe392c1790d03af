/** Styled terminal text, as the `colored` crate's `ColoredString` is used by the
    listing: a logical text paired with one foreground colour. Emitting the ANSI
    escape sequences is not modelled; the colour never changes the text. */
module Style {

  /** The foreground colours the listing uses. */
  datatype Color = White | BrightWhite | BrightBlack | Green | Blue | Yellow | Red

  /** A string with a foreground colour (`"text".green()` and the like). */
  datatype Styled = Styled(text: string, color: Color)
}
