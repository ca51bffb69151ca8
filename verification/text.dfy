/** Character classes and small string predicates shared by the scanner and
    the parser. Python's `str.isdigit`, `str.isspace` and `str.lower` are
    modelled on ASCII: digits are '0'..'9', whitespace is the ASCII characters
    Python calls whitespace (9..13, 28..31 and the space), lower-casing maps
    'A'..'Z' to 'a'..'z' and leaves every other character alone. */
module Text {

  datatype Option<T> = None | Some(value: T)

  /** `c.isdigit()` on ASCII. */
  predicate IsDigit(c: char) {
    '0' <= c <= '9'
  }

  /** `c.isspace()` on ASCII: tab, line feed, vertical tab, form feed,
      carriage return, the four separators 0x1c..0x1f, and the space. */
  predicate IsSpace(c: char) {
    var n := c as int;
    n == 32 || 9 <= n <= 13 || 28 <= n <= 31
  }

  function LowerChar(c: char): (d: char)
    ensures 'A' <= c <= 'Z' ==> d as int == c as int + 32
    ensures !('A' <= c <= 'Z') ==> d == c
  {
    if 'A' <= c <= 'Z' then (c as int + 32) as char else c
  }

  /** `s.lower()` on ASCII. */
  function Lower(s: string): (r: string)
    ensures |r| == |s|
    ensures forall i :: 0 <= i < |s| ==> r[i] == LowerChar(s[i])
  {
    seq(|s|, i requires 0 <= i < |s| => LowerChar(s[i]))
  }

  /** The three words the parser refuses as keys and as string values. */
  predicate IsReservedWord(w: string) {
    w == "true" || w == "false" || w == "null"
  }

  /** `s.lower() in ["true", "false", "null"]`. */
  predicate IsReserved(s: string) {
    IsReservedWord(Lower(s))
  }

  /** `s == "" or all(ch.isspace() for ch in s)`. */
  predicate IsBlank(s: string) {
    s == "" || forall i :: 0 <= i < |s| ==> IsSpace(s[i])
  }

  /** A blank text is never reserved, so the parser's empty-key check and
      its reserved-key check can never both apply to one key. */
  lemma BlankIsNotReserved(s: string)
    requires IsBlank(s)
    ensures !IsReserved(s)
  {
    if s != "" {
      assert IsSpace(s[0]);
      assert Lower(s)[0] == s[0];
    }
  }

  /** Equal up to ASCII case. */
  predicate SameUpToCase(s: string, t: string) {
    |s| == |t| && forall i :: 0 <= i < |s| ==> LowerChar(s[i]) == LowerChar(t[i])
  }

  /** Reserved words are recognised regardless of case. */
  lemma ReservedIgnoresCase(s: string, t: string)
    requires SameUpToCase(s, t)
    ensures IsReserved(s) <==> IsReserved(t)
  {
    assert Lower(s) == Lower(t);
  }

  /** Lower-casing a text without capitals leaves it unchanged. */
  lemma LowerOfLowercase(w: string)
    requires forall i :: 0 <= i < |w| ==> !('A' <= w[i] <= 'Z')
    ensures Lower(w) == w
  {
  }

  /** The reserved texts are exactly the case variants of "true", "false"
      and "null", such as "True" or "NULL". */
  lemma ReservedIsCaseVariant(s: string)
    ensures IsReserved(s) <==>
      SameUpToCase(s, "true") || SameUpToCase(s, "false") || SameUpToCase(s, "null")
  {
    LowerOfLowercase("true");
    LowerOfLowercase("false");
    LowerOfLowercase("null");
    if SameUpToCase(s, "true") {
      assert Lower(s) == Lower("true");
    } else if SameUpToCase(s, "false") {
      assert Lower(s) == Lower("false");
    } else if SameUpToCase(s, "null") {
      assert Lower(s) == Lower("null");
    }
  }

  /** The character classes are the ten decimal digits and the ten ASCII
      whitespace characters; no character is both, and lower-casing leaves
      either class alone. */
  lemma CharClasses(c: char)
    ensures IsDigit(c) <==> c in "0123456789"
    ensures IsSpace(c) <==> c as int in {9, 10, 11, 12, 13, 28, 29, 30, 31, 32}
    ensures !(IsDigit(c) && IsSpace(c))
    ensures IsDigit(c) || IsSpace(c) ==> LowerChar(c) == c
  {
  }

  /** The empty-text test of the blank check is subsumed by the
      whitespace test, and blank texts stay blank when joined. */
  lemma BlankIsAllSpace(s: string, t: string)
    ensures IsBlank(s) <==> forall i :: 0 <= i < |s| ==> IsSpace(s[i])
    ensures IsBlank(s) && IsBlank(t) ==> IsBlank(s + t)
  {
    if IsBlank(s) && IsBlank(t) {
      forall i | 0 <= i < |s + t|
        ensures IsSpace((s + t)[i])
      {
        if i < |s| {
          assert (s + t)[i] == s[i];
        } else {
          assert (s + t)[i] == t[i - |s|];
        }
      }
    }
  }
}
