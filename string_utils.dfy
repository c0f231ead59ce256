/** The blankness test the endpoint applies to inbound text and to user ids:
    a string is blank when it is empty or made only of whitespace, where
    whitespace is what the Java platform's Character.isWhitespace accepts. */
module StringUtils {

  /** Character.isWhitespace as of Java 9 (Unicode 8.0 and later): the
      ASCII controls HT, LF, VT, FF, CR and FS, GS, RS, US, and the Unicode
      space, line and paragraph separators except the three no-break spaces
      U+00A0, U+2007 and U+202F. U+180E is not among them; Java 8 and
      earlier still counted it as a space separator. */
  predicate IsWhitespace(ch: char) {
    var n := ch as int;
    || 0x09 <= n <= 0x0D
    || 0x1C <= n <= 0x20
    || n == 0x1680
    || 0x2000 <= n <= 0x2006
    || 0x2008 <= n <= 0x200A
    || n == 0x2028 || n == 0x2029
    || n == 0x205F
    || n == 0x3000
  }

  /** StringUtils.isBlank: empty, or whitespace only. */
  predicate IsBlank(s: string) {
    forall i :: 0 <= i < |s| ==> IsWhitespace(s[i])
  }
}
