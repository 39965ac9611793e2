/** The string operations the handlers apply to request fields: `trim`,
    `toUpperCase`, `toLowerCase` and a prefix test. Whitespace and case are
    modelled on a fixed character set (see README). */
module Text {

  /** The whitespace `String.prototype.trim` removes, restricted to the ASCII
      white space, no-break space and byte-order mark. */
  predicate IsSpace(c: char) {
    c == ' ' || c == '\t' || c == '\n' || c == '\r' || c == '\U{B}' || c == '\U{C}'
    || c == '\U{A0}' || c == '\U{FEFF}'
  }

  /** Number of whitespace characters at the start of `s`. */
  function LeadingSpaces(s: string): (n: nat)
    ensures n <= |s|
    ensures forall i :: 0 <= i < n ==> IsSpace(s[i])
    ensures n < |s| ==> !IsSpace(s[n])
  {
    if |s| == 0 || !IsSpace(s[0]) then 0 else 1 + LeadingSpaces(s[1..])
  }

  /** Number of whitespace characters at the end of `s`. */
  function TrailingSpaces(s: string): (n: nat)
    ensures n <= |s|
    ensures forall i :: |s| - n <= i < |s| ==> IsSpace(s[i])
    ensures n < |s| ==> !IsSpace(s[|s| - n - 1])
  {
    if |s| == 0 || !IsSpace(s[|s| - 1]) then 0 else 1 + TrailingSpaces(s[..|s| - 1])
  }

  /** `s.trim()`: `s` without its leading and trailing whitespace. The result
      is the slice of `s` left after dropping white space at both ends, and
      nothing but white space is dropped. */
  function Trim(s: string): (r: string)
    ensures |r| <= |s|
    ensures r == "" || (!IsSpace(r[0]) && !IsSpace(r[|r| - 1]))
    ensures exists a, b ::
      && 0 <= a <= b <= |s| && r == s[a..b]
      && (forall i :: 0 <= i < a ==> IsSpace(s[i]))
      && (forall i :: b <= i < |s| ==> IsSpace(s[i]))
    ensures r == "" <==> forall i :: 0 <= i < |s| ==> IsSpace(s[i])
    ensures r == s <==> s == "" || (!IsSpace(s[0]) && !IsSpace(s[|s| - 1]))
  {
    var a := LeadingSpaces(s);
    var rest := s[a..];
    var b := a + |rest| - TrailingSpaces(rest);
    TrimBounds(s, a, b);
    assert s[a..b] == rest[..|rest| - TrailingSpaces(rest)];
    s[a..b]
  }

  /** The slice `Trim` keeps is preceded and followed only by white space. */
  lemma TrimBounds(s: string, a: nat, b: nat)
    requires a <= |s|
    requires b == |s| - TrailingSpaces(s[a..])
    ensures a <= b <= |s|
    ensures forall i :: b <= i < |s| ==> IsSpace(s[i])
  {
    var rest := s[a..];
    var n := TrailingSpaces(rest);
    forall i | b <= i < |s|
      ensures IsSpace(s[i])
    {
      var j := i - a;
      assert |rest| - n <= j < |rest|;
      assert IsSpace(rest[j]);
      assert s[i] == rest[j];
    }
  }

  /** The number of UTF-16 code units a character takes: two above U+FFFF. */
  function Utf16Units(c: char): nat {
    if c as int > 0xFFFF then 2 else 1
  }

  /** `s.length` in JavaScript: the number of UTF-16 code units of `s`. */
  function Utf16Length(s: string): (n: nat)
    ensures |s| <= n <= 2 * |s|
  {
    if s == "" then 0 else Utf16Units(s[0]) + Utf16Length(s[1..])
  }

  /** JavaScript's length and the number of characters agree exactly on
      strings of Basic Multilingual Plane characters. */
  lemma {:induction false} Utf16LengthIsLength(s: string)
    ensures Utf16Length(s) == |s| <==> forall i :: 0 <= i < |s| ==> s[i] as int <= 0xFFFF
  {
    if s != "" {
      Utf16LengthIsLength(s[1..]);
      assert forall i :: 1 <= i < |s| ==> s[i] == s[1..][i - 1];
    }
  }

  function UpperChar(c: char): char {
    if 'a' <= c <= 'z' then (c as int - 32) as char else c
  }

  function LowerChar(c: char): char {
    if 'A' <= c <= 'Z' then (c as int + 32) as char else c
  }

  /** `s.toUpperCase()` on the ASCII letters. */
  function ToUpper(s: string): (r: string)
    ensures |r| == |s|
    ensures forall i :: 0 <= i < |s| ==> r[i] == UpperChar(s[i])
  {
    if s == "" then "" else [UpperChar(s[0])] + ToUpper(s[1..])
  }

  /** `s.toLowerCase()` on the ASCII letters. */
  function ToLower(s: string): (r: string)
    ensures |r| == |s|
    ensures forall i :: 0 <= i < |s| ==> r[i] == LowerChar(s[i])
  {
    if s == "" then "" else [LowerChar(s[0])] + ToLower(s[1..])
  }

  /** Upper-casing and comparing with "IEEE" accepts exactly the strings that
      lower-casing and comparing with "ieee" accepts: the current controllers
      and the legacy one recognise the same spellings of the IEEE type. */
  lemma {:induction false} IeeeSpellingsAgree(s: string)
    ensures ToUpper(s) == "IEEE" <==> ToLower(s) == "ieee"
  {
    if ToUpper(s) == "IEEE" {
      assert |s| == 4;
      forall i | 0 <= i < 4
        ensures ToLower(s)[i] == "ieee"[i]
      {
        assert UpperChar(s[i]) == "IEEE"[i];
      }
    }
    if ToLower(s) == "ieee" {
      assert |s| == 4;
      forall i | 0 <= i < 4
        ensures ToUpper(s)[i] == "IEEE"[i]
      {
        assert LowerChar(s[i]) == "ieee"[i];
      }
    }
  }

  /** `s.startsWith(prefix)`. */
  predicate StartsWith(s: string, prefix: string) {
    |prefix| <= |s| && s[..|prefix|] == prefix
  }
}
