/** Values shared by the components. */
module Common {

  /** JavaScript's `null` and `undefined` become `None`. */
  datatype Option<+T> = None | Some(value: T)

  /**
   * The characters `String.prototype.trim` and `parseInt` skip: the white space
   * and line terminators of ECMAScript (section 12.2 and 12.3 of ECMA-262).
   */
  predicate IsJsWhiteSpace(c: char)
  {
    || c == '\t' || c == '\n' || c == '\U{B}' || c == '\U{C}' || c == '\r' || c == ' '
    || c == '\U{A0}' || c == '\U{1680}' || ('\U{2000}' <= c <= '\U{200A}')
    || c == '\U{2028}' || c == '\U{2029}' || c == '\U{202F}' || c == '\U{205F}' || c == '\U{3000}'
    || c == '\U{FEFF}'
  }

  /** `!s.trim()`: the string is empty once white space is trimmed. */
  predicate IsBlank(s: string)
  {
    forall i :: 0 <= i < |s| ==> IsJsWhiteSpace(s[i])
  }
}
