/** Result types shared by every module. */
module Basics {

  datatype Option<+T> = None | Some(value: T)

  /** What a call did: it returned a value, or it raised an error. */
  datatype Outcome<+T, +E> = Returned(value: T) | Raised(error: E)

  /** The characters that Python's `str.strip` removes. */
  predicate IsSpace(c: char) {
    || '\t' <= c <= '\r'
    || '\U{1c}' <= c <= ' '
    || c == '\U{85}' || c == '\U{a0}' || c == '\U{1680}'
    || '\U{2000}' <= c <= '\U{200a}'
    || c == '\U{2028}' || c == '\U{2029}' || c == '\U{202f}' || c == '\U{205f}' || c == '\U{3000}'
  }

  /** `not text.strip()` */
  predicate Blank(text: string) {
    forall i | 0 <= i < |text| :: IsSpace(text[i])
  }

  predicate HasControlCharacter(text: string) {
    exists i | 0 <= i < |text| :: text[i] < ' ' || text[i] == '\U{7f}'
  }

  /** A label an operator must give: not blank, no control characters. */
  predicate Label(text: string) {
    !Blank(text) && !HasControlCharacter(text)
  }
}
