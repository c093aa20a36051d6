/**
 * The three character classes of the log pattern `step:(\d+)/(\d+)\s+val_loss:([\d.]+)`,
 * restricted to ASCII: `\d` is '0'..'9', `\s` is space, tab, line feed, vertical tab,
 * form feed and carriage return, and `[\d.]` is a digit or a dot.
 */
module Chars {

  datatype CharClass = Digit | Space | DigitOrDot

  predicate IsDigit(c: char) {
    '0' <= c <= '9'
  }

  predicate IsSpace(c: char) {
    c == ' ' || 9 <= c as int <= 13
  }

  predicate InClass(c: char, k: CharClass) {
    match k
    case Digit => IsDigit(c)
    case Space => IsSpace(c)
    case DigitOrDot => IsDigit(c) || c == '.'
  }

  /** Every character of `s` belongs to class `k`. */
  predicate AllIn(s: string, k: CharClass) {
    forall i :: 0 <= i < |s| ==> InClass(s[i], k)
  }
}
