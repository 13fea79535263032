/** The character classes and string operations that the contact-form checks
    are built from: the whitespace that `String.prototype.trim` strips and that
    the regular-expression class `\s` matches (ECMAScript gives both the same
    set: WhiteSpace plus LineTerminator), the decimal digits of `\d`, trimming,
    and deleting every whitespace character. */
module Text {

  /** ECMAScript WhiteSpace (TAB, VT, FF, ZWNBSP and the space separators of
      Unicode category Zs) and LineTerminator (LF, CR, LS, PS). No digit and
      none of the characters '@' and '.' that the email shape is built from
      is whitespace. */
  predicate IsWhitespace(c: char): (b: bool)
    ensures b ==> !IsDigit(c) && c != '@' && c != '.'
  {
    || c == '\t' || c == '\n' || c == '\U{000B}' || c == '\U{000C}' || c == '\r'
    || c == ' ' || c == '\U{00A0}' || c == '\U{1680}'
    || ('\U{2000}' <= c <= '\U{200A}')
    || c == '\U{2028}' || c == '\U{2029}' || c == '\U{202F}' || c == '\U{205F}'
    || c == '\U{3000}' || c == '\U{FEFF}'
  }

  /** The regular-expression class `\d`: the ASCII digits. */
  predicate IsDigit(c: char) {
    '0' <= c <= '9'
  }

  predicate AllWhitespace(s: string) {
    forall k :: 0 <= k < |s| ==> IsWhitespace(s[k])
  }

  predicate NoWhitespace(s: string) {
    forall k :: 0 <= k < |s| ==> !IsWhitespace(s[k])
  }

  /** The index of the first character at or after `i` that is not
      whitespace, or `|s|` when there is none. */
  function SkipWhitespace(s: string, i: nat): (j: nat)
    requires i <= |s|
    ensures i <= j <= |s|
    ensures forall k :: i <= k < j ==> IsWhitespace(s[k])
    ensures j < |s| ==> !IsWhitespace(s[j])
    decreases |s| - i
  {
    if i < |s| && IsWhitespace(s[i]) then SkipWhitespace(s, i + 1) else i
  }

  /** The index just past the last character of `s[lo..hi]` that is not
      whitespace, or `lo` when there is none. */
  function SkipWhitespaceBack(s: string, lo: nat, hi: nat): (j: nat)
    requires lo <= hi <= |s|
    ensures lo <= j <= hi
    ensures forall k :: j <= k < hi ==> IsWhitespace(s[k])
    ensures lo < j ==> !IsWhitespace(s[j - 1])
    decreases hi
  {
    if lo < hi && IsWhitespace(s[hi - 1]) then SkipWhitespaceBack(s, lo, hi - 1) else hi
  }

  /** Where `String.prototype.trim` cuts: everything before the first bound
      and from the second bound on is whitespace, and the characters at the
      two ends of what remains are not. */
  function TrimBounds(s: string): (b: (nat, nat))
    ensures b.0 <= b.1 <= |s|
    ensures forall k :: 0 <= k < b.0 ==> IsWhitespace(s[k])
    ensures forall k :: b.1 <= k < |s| ==> IsWhitespace(s[k])
    ensures b.0 < b.1 ==> !IsWhitespace(s[b.0]) && !IsWhitespace(s[b.1 - 1])
    ensures b.0 == b.1 <==> AllWhitespace(s)
  {
    var i := SkipWhitespace(s, 0);
    (i, SkipWhitespaceBack(s, i, |s|))
  }

  /** `String.prototype.trim`: the input with its leading and trailing
      whitespace removed. */
  function Trim(s: string): (r: string)
    ensures |r| <= |s|
    ensures r == [] <==> AllWhitespace(s)
    ensures r != [] ==> !IsWhitespace(r[0]) && !IsWhitespace(r[|r| - 1])
  {
    var b := TrimBounds(s);
    s[b.0..b.1]
  }

  /** `s.replace(/\s/g, "")`: every whitespace character deleted, the others
      kept in order. */
  function RemoveWhitespace(s: string): (r: string)
    ensures |r| <= |s|
    ensures NoWhitespace(r)
  {
    if s == [] then []
    else (if IsWhitespace(s[0]) then [] else [s[0]]) + RemoveWhitespace(s[1..])
  }

  /** Deleting whitespace distributes over concatenation. */
  lemma {:induction false} RemoveWhitespaceAppend(a: string, b: string)
    ensures RemoveWhitespace(a + b) == RemoveWhitespace(a) + RemoveWhitespace(b)
  {
    if a == [] {
      assert a + b == b;
    } else {
      var kept := if IsWhitespace(a[0]) then [] else [a[0]];
      assert (a + b)[0] == a[0] && (a + b)[1..] == a[1..] + b;
      calc {
        RemoveWhitespace(a + b);
        kept + RemoveWhitespace(a[1..] + b);
        { RemoveWhitespaceAppend(a[1..], b); }
        kept + (RemoveWhitespace(a[1..]) + RemoveWhitespace(b));
        (kept + RemoveWhitespace(a[1..])) + RemoveWhitespace(b);
      }
    }
  }

  /** Deleting whitespace leaves nothing exactly when there was nothing else. */
  lemma {:induction false} RemoveWhitespaceEmptyIff(s: string)
    ensures RemoveWhitespace(s) == [] <==> AllWhitespace(s)
  {
    if s != [] {
      RemoveWhitespaceEmptyIff(s[1..]);
      assert AllWhitespace(s) <==> IsWhitespace(s[0]) && AllWhitespace(s[1..]);
    }
  }

  /** A string without whitespace is left as it is. */
  lemma {:induction false} RemoveWhitespaceNoop(s: string)
    requires NoWhitespace(s)
    ensures RemoveWhitespace(s) == s
  {
    if s != [] {
      RemoveWhitespaceNoop(s[1..]);
    }
  }

  /** Deleting a whitespace character shortens the string. */
  lemma RemoveWhitespaceDrops(s: string, k: int)
    requires 0 <= k < |s| && IsWhitespace(s[k])
    ensures |RemoveWhitespace(s)| < |s|
  {
    var a, b := s[..k], s[k..];
    assert s == a + b;
    RemoveWhitespaceAppend(a, b);
    assert b == [b[0]] + b[1..];
  }

  /** Whitespace on either side of a string carries no content. */
  lemma RemoveWhitespaceAround(p: string, r: string, q: string)
    requires AllWhitespace(p) && AllWhitespace(q)
    ensures RemoveWhitespace(p + r + q) == RemoveWhitespace(r)
  {
    RemoveWhitespaceEmptyIff(p);
    RemoveWhitespaceEmptyIff(q);
    RemoveWhitespaceAppend(p + r, q);
    RemoveWhitespaceAppend(p, r);
  }

  /** Trimming removes only whitespace, so deleting the remaining whitespace
      gives the same characters as deleting all whitespace of the raw input. */
  lemma TrimKeepsContent(s: string)
    ensures RemoveWhitespace(Trim(s)) == RemoveWhitespace(s)
  {
    var b := TrimBounds(s);
    var p, r, q := s[..b.0], s[b.0..b.1], s[b.1..];
    assert s == p + r + q;
    assert AllWhitespace(p) && AllWhitespace(q);
    RemoveWhitespaceAround(p, r, q);
  }

  /** Trimming twice is trimming once. */
  lemma TrimIdempotent(s: string)
    ensures Trim(Trim(s)) == Trim(s)
  {
    var r := Trim(s);
    if r != [] {
      assert SkipWhitespace(r, 0) == 0;
      assert SkipWhitespaceBack(r, 0, |r|) == |r|;
    }
  }
}
