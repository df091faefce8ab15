/**
 * The few JavaScript string operations the page script relies on:
 * case mapping for the words it compares against, and the relational
 * comparison `<` it applies to dates.
 */
module JsText {

  /**
   * One character of `String.prototype.toLowerCase`, restricted to what the
   * script asks of it: ASCII capitals, and KELVIN SIGN, which lower-cases to 'k'.
   * Every other character is left as it is.
   */
  function LowerChar(c: char): (r: char)
    ensures !('A' <= r <= 'Z')
    // an ASCII capital becomes the small letter that UpperChar maps back
    ensures 'A' <= c <= 'Z' ==> 'a' <= r <= 'z' && UpperChar(r) == c
    ensures !('A' <= c <= 'Z') && c != '\U{212A}' ==> r == c
  {
    if 'A' <= c <= 'Z' then (c as int + 32) as char
    else if c == '\U{212A}' then 'k'
    else c
  }

  function Lower(s: string): (r: string)
    ensures |r| == |s|
    ensures forall i :: 0 <= i < |r| ==> !('A' <= r[i] <= 'Z')
    // letters and characters with no case mapping are kept where they are
    ensures forall i :: 0 <= i < |s| && !('A' <= s[i] <= 'Z') && s[i] != '\U{212A}' ==> r[i] == s[i]
  {
    seq(|s|, i requires 0 <= i < |s| => LowerChar(s[i]))
  }

  /** One character of `String.prototype.toUpperCase` on ASCII letters. */
  function UpperChar(c: char): (r: char)
    ensures !('a' <= r <= 'z')
    ensures 'a' <= c <= 'z' ==> 'A' <= r <= 'Z'
    ensures !('a' <= c <= 'z') ==> r == c
  {
    if 'a' <= c <= 'z' then (c as int - 32) as char else c
  }

  /** A word in lower-case ASCII letters: what Lower leaves alone. */
  predicate IsLowerWord(s: string) {
    forall i :: 0 <= i < |s| ==> 'a' <= s[i] <= 'z'
  }

  lemma LowerOfLowerWord(s: string)
    requires IsLowerWord(s)
    ensures Lower(s) == s
  {
  }

  /**
   * `a < b` on two JavaScript strings: `a` is a proper prefix of `b`, or at the
   * first position where they differ `a` has the smaller character.
   */
  predicate Less(a: string, b: string)
    ensures Less(a, b) ==> a != b && b != []
    // a proper prefix comes first
    ensures |a| < |b| && a == b[..|a|] ==> Less(a, b)
  {
    if b == [] then false
    else if a == [] then true
    else if a[0] != b[0] then a[0] < b[0]
    else Less(a[1..], b[1..])
  }

  /** `a <= b` in the order that Less is strict for. */
  predicate AtMost(a: string, b: string) {
    a == b || Less(a, b)
  }

  lemma {:induction false} LessIrreflexive(a: string)
    ensures !Less(a, a)
  {
    if a != [] {
      LessIrreflexive(a[1..]);
    }
  }

  lemma {:induction false} LessTransitive(a: string, b: string, c: string)
    requires Less(a, b) && Less(b, c)
    ensures Less(a, c)
  {
    if a != [] && a[0] == b[0] && b[0] == c[0] {
      LessTransitive(a[1..], b[1..], c[1..]);
    }
  }

  lemma {:induction false} LessTotal(a: string, b: string)
    ensures a == b || Less(a, b) || Less(b, a)
  {
    if a != [] && b != [] && a[0] == b[0] {
      LessTotal(a[1..], b[1..]);
      if a[1..] == b[1..] {
        assert a == [a[0]] + a[1..] && b == [b[0]] + b[1..];
      }
    }
  }

  lemma {:induction false} LessAsymmetric(a: string, b: string)
    requires Less(a, b)
    ensures !Less(b, a)
  {
    if a != [] && a[0] == b[0] {
      LessAsymmetric(a[1..], b[1..]);
    }
  }

  /** A comparison `x < y` that fails means `y <= x`, and conversely. */
  lemma NotLessIsAtMost(x: string, y: string)
    ensures !Less(x, y) <==> AtMost(y, x)
  {
  }

  /** A common prefix does not decide the comparison: what follows it does. */
  lemma {:induction false} LessAfterCommonPrefix(p: string, x: string, y: string)
    ensures Less(p + x, p + y) == Less(x, y)
  {
    if p != [] {
      LessAfterCommonPrefix(p[1..], x, y);
      assert (p + x)[0] == p[0] == (p + y)[0];
      assert (p + x)[1..] == p[1..] + x;
      assert (p + y)[1..] == p[1..] + y;
    } else {
      assert p + x == x && p + y == y;
    }
  }

  /** ISO dates (`YYYY-MM-DD`) order as text in date order: an earlier day of the same month. */
  lemma EarlierDayIsLess()
    ensures Less("2024-01-01", "2024-01-10")
  {
    LessAfterCommonPrefix("2024-01-", "01", "10");
    assert "2024-01-01" == "2024-01-" + "01" && "2024-01-10" == "2024-01-" + "10";
  }

  /** A later day of the same month is not less. */
  lemma LaterDayIsNotLess()
    ensures !Less("2024-01-15", "2024-01-10")
  {
    LessAfterCommonPrefix("2024-01-", "15", "10");
    assert "2024-01-15" == "2024-01-" + "15" && "2024-01-10" == "2024-01-" + "10";
  }

  /** The last day of a month is less than the first day of the next. */
  lemma MonthEndIsLess()
    ensures Less("2024-01-31", "2024-02-01")
  {
    LessAfterCommonPrefix("2024-0", "1-31", "2-01");
    assert "2024-01-31" == "2024-0" + "1-31" && "2024-02-01" == "2024-0" + "2-01";
  }
}
