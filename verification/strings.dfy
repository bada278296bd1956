/**
  The string operations the handler relies on: ASCII case mapping (standing in
  for `toLowerCase`/`toUpperCase`) and substring containment (`includes`).
 */
module Strings {

  predicate IsUpperAscii(c: char) {
    'A' <= c <= 'Z'
  }

  predicate IsLowerAscii(c: char) {
    'a' <= c <= 'z'
  }

  /** A string with no upper-case ASCII letter, i.e. one that lower-casing leaves alone. */
  predicate NoUpper(s: string) {
    forall i :: 0 <= i < |s| ==> !IsUpperAscii(s[i])
  }

  /** A string with no lower-case ASCII letter. */
  predicate NoLower(s: string) {
    forall i :: 0 <= i < |s| ==> !IsLowerAscii(s[i])
  }

  function LowerChar(c: char): (r: char)
    ensures !IsUpperAscii(r)
    ensures IsUpperAscii(c) || r == c
  {
    if IsUpperAscii(c) then (c as int + 32) as char else c
  }

  function UpperChar(c: char): (r: char)
    ensures !IsLowerAscii(r)
    ensures IsLowerAscii(c) || r == c
  {
    if IsLowerAscii(c) then (c as int - 32) as char else c
  }

  /** `s.toLowerCase()`, restricted to the ASCII letters. */
  function ToLower(s: string): (r: string)
    ensures |r| == |s|
    ensures NoUpper(r)
    ensures forall i :: 0 <= i < |s| && !IsUpperAscii(s[i]) ==> r[i] == s[i]
    ensures forall i :: 0 <= i < |s| && IsUpperAscii(s[i]) ==> r[i] == (s[i] as int + 32) as char
  {
    seq(|s|, i requires 0 <= i < |s| => LowerChar(s[i]))
  }

  /** `s.toUpperCase()`, restricted to the ASCII letters. */
  function ToUpper(s: string): (r: string)
    ensures |r| == |s|
    ensures NoLower(r)
    ensures forall i :: 0 <= i < |s| && !IsLowerAscii(s[i]) ==> r[i] == s[i]
    ensures ToLower(r) == ToLower(s)
  {
    seq(|s|, i requires 0 <= i < |s| => UpperChar(s[i]))
  }

  /** Lower-casing changes nothing in a string that has no upper-case letter. */
  lemma ToLowerOfNoUpper(s: string)
    requires NoUpper(s)
    ensures ToLower(s) == s
  {
  }

  /** `key` occurs in `text` starting at position `i`. */
  predicate IncludesAt(text: string, key: string, i: int) {
    0 <= i && i + |key| <= |text| && text[i..i + |key|] == key
  }

  /** `text.includes(key)`: `key` occurs somewhere in `text` as a contiguous substring. */
  predicate Includes(text: string, key: string) {
    exists i | 0 <= i <= |text| - |key| :: IncludesAt(text, key, i)
  }

  /** Containment needs the key to fit in the text; the empty key and the text
      itself are always contained. */
  lemma IncludesBounds(text: string, key: string)
    ensures Includes(text, key) ==> |key| <= |text|
    ensures key == [] ==> Includes(text, key)
    ensures key == text ==> Includes(text, key)
  {
    assert key == [] || key == text ==> IncludesAt(text, key, 0);
  }

  /** Every string contains the strings it is built around. */
  lemma IncludesInfix(pre: string, key: string, post: string)
    ensures Includes(pre + key + post, key)
  {
    assert IncludesAt(pre + key + post, key, |pre|) by {
      assert (pre + key + post)[|pre|..|pre| + |key|] == key;
    }
  }

  /** A key holding a character that the text lacks does not occur in the text. */
  lemma MissingCharExcludes(text: string, key: string, c: char)
    requires c in key && c !in text
    ensures !Includes(text, key)
  {
    var k :| 0 <= k < |key| && key[k] == c;
    forall i | 0 <= i <= |text| - |key|
      ensures !IncludesAt(text, key, i)
    {
      assert text[i..i + |key|][k] == text[i + k] != c;
    }
  }

  /** The substring search behind `includes`: the first loop scans candidate
      start positions, the inner loop compares characters. */
  method Contains(text: string, key: string) returns (b: bool)
    ensures b <==> Includes(text, key)
  {
    if |key| > |text| {
      return false;
    }
    var i := 0;
    while i <= |text| - |key|
      invariant 0 <= i <= |text| - |key| + 1
      invariant forall j :: 0 <= j < i ==> !IncludesAt(text, key, j)
    {
      var m := 0;
      while m < |key| && text[i + m] == key[m]
        invariant 0 <= m <= |key|
        invariant forall k :: 0 <= k < m ==> text[i + k] == key[k]
      {
        m := m + 1;
      }
      if m == |key| {
        assert text[i..i + |key|] == key;
        assert IncludesAt(text, key, i);
        return true;
      }
      assert text[i..i + |key|][m] != key[m];
      i := i + 1;
    }
    return false;
  }
}
