/** The inline input checks of the sign-in views: `len(s) == n and s.isnumeric()`. */
module Format {

  /** Length of a mobile number accepted by the register and login flows. */
  const MobileLength: nat := 11

  /** Length of a one-time code accepted by the two verify flows. */
  const CodeLength: nat := 6

  /** A numeric character. Only the ASCII digits '0'..'9' are modelled. */
  predicate IsDigit(c: char) {
    '0' <= c <= '9'
  }

  /** Python's `str.isnumeric()`: at least one character, and every character numeric. */
  predicate IsNumeric(s: string) {
    |s| > 0 && forall i :: 0 <= i < |s| ==> IsDigit(s[i])
  }

  /** The mobile-number check of the register and login handlers. */
  predicate IsValidMobile(s: string) {
    |s| == MobileLength && IsNumeric(s)
  }

  /** The code check of the two verify handlers. */
  predicate IsValidCode(s: string) {
    |s| == CodeLength && IsNumeric(s)
  }

  /** Appending one digit to a string of digits gives a string of digits. */
  lemma {:induction false} DigitsSnoc(s: string, d: char)
    requires forall i :: 0 <= i < |s| ==> IsDigit(s[i])
    requires IsDigit(d)
    ensures IsNumeric(s + [d])
  {
    var t := s + [d];
    forall i | 0 <= i < |t| ensures IsDigit(t[i]) {
      if i < |s| { assert t[i] == s[i]; } else { assert t[i] == d; }
    }
  }
}
