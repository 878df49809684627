/** What the editor and the handoff need to know about a Unicode scalar value. The control and
    white-space sets are small and written out; the alphanumeric and width tables come from libraries
    and are parameters. */
module Characters {

  const REPLACEMENT: char := '\U{FFFD}'

  /** General category Cc. */
  predicate IsControl(c: char) {
    var n := c as int;
    n < 0x20 || 0x7F <= n < 0xA0
  }

  /** The Unicode White_Space property. */
  predicate IsWhitespace(c: char) {
    var n := c as int;
    || 0x09 <= n <= 0x0D
    || n in {0x20, 0x85, 0xA0, 0x1680, 0x2028, 0x2029, 0x202F, 0x205F, 0x3000}
    || 0x2000 <= n <= 0x200A
  }

  /** Nothing is left of the text when it is trimmed. */
  predicate IsBlank(text: string) {
    forall i :: 0 <= i < |text| ==> IsWhitespace(text[i])
  }

  /** The library tables: alphanumeric characters, and display widths of non-control characters. */
  datatype CharacterTable = CharacterTable(alphanumeric: char -> bool, width: char -> nat)

  datatype CharacterClass = Word | Punctuation | Whitespace

  function ClassOf(table: CharacterTable, c: char): CharacterClass {
    if IsWhitespace(c) then Whitespace
    else if table.alphanumeric(c) || c == '_' then Word
    else Punctuation
  }
}
