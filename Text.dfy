/**
 * Character and string predicates with the meaning Java's String and Character
 * methods give them. Case folding covers the ASCII letters only; every comparison
 * in this model is against an upper-case ASCII provider name, and no other
 * character folds onto one of those letters.
 */
module Text {

  /** Character.toUpperCase on ASCII letters; every other character is left alone. */
  function ToUpper(c: char): char
  {
    if 'a' <= c <= 'z' then (c as int - 32) as char else c
  }

  /** Character.toLowerCase on ASCII letters; every other character is left alone. */
  function ToLower(c: char): char
  {
    if 'A' <= c <= 'Z' then (c as int + 32) as char else c
  }

  /** The character test String.equalsIgnoreCase applies position by position. */
  predicate CharEqualsIgnoreCase(a: char, b: char)
  {
    a == b || ToUpper(a) == ToUpper(b) || ToLower(ToUpper(a)) == ToLower(ToUpper(b))
  }

  /** String.equalsIgnoreCase: same length and every position equal ignoring case. */
  predicate EqualsIgnoreCase(a: string, b: string)
    ensures EqualsIgnoreCase(a, b) ==> |a| == |b|
    ensures a == b ==> EqualsIgnoreCase(a, b)
    ensures UpperCase(a) == b ==> EqualsIgnoreCase(a, b)
  {
    |a| == |b| && forall i :: 0 <= i < |a| ==> CharEqualsIgnoreCase(a[i], b[i])
  }

  /** String.toUpperCase (ASCII letters only). */
  function UpperCase(s: string): (u: string)
    ensures |u| == |s|
    ensures forall i :: 0 <= i < |s| ==> u[i] == ToUpper(s[i])
  {
    seq(|s|, i requires 0 <= i < |s| => ToUpper(s[i]))
  }

  /** String.toLowerCase (ASCII letters only). */
  function LowerCase(s: string): (l: string)
    ensures |l| == |s|
    ensures forall i :: 0 <= i < |s| ==> l[i] == ToLower(s[i])
  {
    seq(|s|, i requires 0 <= i < |s| => ToLower(s[i]))
  }

  /** No ASCII lower-case letter occurs in s. */
  predicate NoLowerCase(s: string)
  {
    forall i :: 0 <= i < |s| ==> !('a' <= s[i] <= 'z')
  }

  /** Two characters are equal ignoring case exactly when their upper-case forms are equal. */
  lemma CharEqualsIgnoreCaseIffSameUpper(a: char, b: char)
    ensures CharEqualsIgnoreCase(a, b) <==> ToUpper(a) == ToUpper(b)
  {
    if ToLower(ToUpper(a)) == ToLower(ToUpper(b)) {
      assert !('a' <= ToUpper(a) <= 'z') && !('a' <= ToUpper(b) <= 'z');
    }
  }

  /** Case-insensitive equality is equality of the upper-case forms, hence an equivalence relation. */
  lemma EqualsIgnoreCaseIffSameUpperCase(a: string, b: string)
    ensures EqualsIgnoreCase(a, b) <==> UpperCase(a) == UpperCase(b)
  {
    if EqualsIgnoreCase(a, b) {
      forall i | 0 <= i < |a| ensures UpperCase(a)[i] == UpperCase(b)[i] {
        CharEqualsIgnoreCaseIffSameUpper(a[i], b[i]);
      }
    }
    if UpperCase(a) == UpperCase(b) {
      forall i | 0 <= i < |a| ensures CharEqualsIgnoreCase(a[i], b[i]) {
        assert UpperCase(a)[i] == UpperCase(b)[i];
        CharEqualsIgnoreCaseIffSameUpper(a[i], b[i]);
      }
    }
  }

  /** Upper-casing a string without lower-case letters changes nothing. */
  lemma UpperCaseOfNoLowerCase(s: string)
    requires NoLowerCase(s)
    ensures UpperCase(s) == s
  {
    assert forall i :: 0 <= i < |s| ==> UpperCase(s)[i] == s[i];
  }

  /** Character.isWhitespace: the Unicode space, line and paragraph separators other than the
      no-break spaces, and the controls U+0009..U+000D and U+001C..U+001F. */
  predicate IsWhitespace(c: char)
  {
    || c == ' '
    || '\t' <= c <= '\r'
    || '\U{1C}' <= c <= '\U{1F}'
    || c == '\U{1680}'
    || '\U{2000}' <= c <= '\U{2006}'
    || '\U{2008}' <= c <= '\U{200A}'
    || c == '\U{2028}' || c == '\U{2029}'
    || c == '\U{205F}' || c == '\U{3000}'
  }

  /** String.isBlank: empty or made of whitespace only. */
  predicate IsBlank(s: string)
    ensures |s| == 0 ==> IsBlank(s)
    ensures (forall i :: 0 <= i < |s| ==> s[i] == ' ') ==> IsBlank(s)
    ensures IsBlank(s) ==> forall i :: 0 <= i < |s| ==> !('a' <= s[i] <= 'z' || 'A' <= s[i] <= 'Z')
  {
    forall i :: 0 <= i < |s| ==> IsWhitespace(s[i])
  }
}
