/** String helpers the address loader relies on: Python's `str.strip()` and
    `str.lower()`, as far as the header test needs them. */
module Text {

  /** The code points Python's `str.isspace` accepts, which `str.strip()` removes. */
  predicate IsSpace(c: char) {
    c == ' ' || ('\t' <= c <= '\r') || ('\U{1C}' <= c <= '\U{1F}')
    || c == '\U{85}' || c == '\U{A0}' || c == '\U{1680}'
    || ('\U{2000}' <= c <= '\U{200A}') || c == '\U{2028}' || c == '\U{2029}'
    || c == '\U{202F}' || c == '\U{205F}' || c == '\U{3000}'
  }

  predicate AllSpace(s: string) {
    forall i :: 0 <= i < |s| ==> IsSpace(s[i])
  }

  /** Python's `s.strip()`: drops whitespace from both ends. */
  function Strip(s: string): string
    decreases |s|
  {
    if s != [] && IsSpace(s[0]) then Strip(s[1..])
    else if s != [] && IsSpace(s[|s| - 1]) then Strip(s[..|s| - 1])
    else s
  }

  /** `r` is what is left of `s` once `lo` leading spaces and some trailing spaces
      are cut off, and `r` has no space left at either end. */
  ghost predicate StrippedAt(s: string, lo: nat, r: string) {
    lo + |r| <= |s| && s[lo..lo + |r|] == r
    && AllSpace(s[..lo]) && AllSpace(s[lo + |r|..])
    && (r == [] || (!IsSpace(r[0]) && !IsSpace(r[|r| - 1])))
  }

  lemma StrippedAtFront(s: string, lo: nat, r: string)
    requires s != [] && IsSpace(s[0]) && StrippedAt(s[1..], lo, r)
    ensures StrippedAt(s, lo + 1, r)
  {
    assert s[1..][lo..lo + |r|] == s[lo + 1..lo + 1 + |r|];
    assert s[..lo + 1] == [s[0]] + s[1..][..lo];
    assert s[lo + 1 + |r|..] == s[1..][lo + |r|..];
  }

  lemma StrippedAtBack(s: string, lo: nat, r: string)
    requires s != [] && IsSpace(s[|s| - 1]) && StrippedAt(s[..|s| - 1], lo, r)
    ensures StrippedAt(s, lo, r)
  {
    var t := s[..|s| - 1];
    assert t[lo..lo + |r|] == s[lo..lo + |r|] && t[..lo] == s[..lo];
    assert s[lo + |r|..] == t[lo + |r|..] + [s[|s| - 1]];
  }

  /** Strip removes only whitespace, only from the ends, and all of it there. */
  lemma {:induction false} StripSpec(s: string)
    ensures exists lo: nat :: StrippedAt(s, lo, Strip(s))
    decreases |s|
  {
    var r := Strip(s);
    if s != [] && IsSpace(s[0]) {
      StripSpec(s[1..]);
      var lo: nat :| StrippedAt(s[1..], lo, r);
      StrippedAtFront(s, lo, r);
    } else if s != [] && IsSpace(s[|s| - 1]) {
      StripSpec(s[..|s| - 1]);
      var lo: nat :| StrippedAt(s[..|s| - 1], lo, r);
      StrippedAtBack(s, lo, r);
    } else {
      assert StrippedAt(s, 0, r);
    }
  }

  /** Strip is determined by what it keeps: any split of `s` into spaces, a core
      without a space at either end, and spaces, strips to that core. */
  lemma {:induction false} StripUnique(p: string, r: string, q: string)
    requires AllSpace(p) && AllSpace(q)
    requires r == [] || (!IsSpace(r[0]) && !IsSpace(r[|r| - 1]))
    ensures Strip(p + r + q) == r
    decreases |p| + |q|
  {
    var s := p + r + q;
    if p != [] {
      assert s[0] == p[0];
      assert s[1..] == p[1..] + r + q;
      StripUnique(p[1..], r, q);
    } else if r == [] && q != [] {
      assert s == q && s[1..] == [] + [] + q[1..];
      StripUnique([], [], q[1..]);
    } else if q != [] {
      assert s[0] == r[0] && s[|s| - 1] == q[|q| - 1];
      assert s[..|s| - 1] == [] + r + q[..|q| - 1];
      StripUnique([], r, q[..|q| - 1]);
    } else {
      assert s == r;
    }
  }

  /** Stripping twice is stripping once. */
  lemma StripIdempotent(s: string)
    ensures Strip(Strip(s)) == Strip(s)
  {
    StripSpec(s);
    assert [] + Strip(s) + [] == Strip(s);
    StripUnique([], Strip(s), []);
  }

  /** Python's `str.lower()` on one character, over the ASCII letters. */
  function LowerChar(c: char): char {
    if 'A' <= c <= 'Z' then (c as int + 32) as char else c
  }

  /** Python's `s.lower()`, character by character. */
  function Lower(s: string): (r: string)
    ensures |r| == |s| && forall i :: 0 <= i < |s| ==> r[i] == LowerChar(s[i])
  {
    if s == [] then [] else [LowerChar(s[0])] + Lower(s[1..])
  }

  const Header: string := "address"
  const UpperHeader: string := "ADDRESS"

  /** The loader's header test: `addr.lower() == "address"`. */
  predicate IsHeader(addr: string) {
    Lower(addr) == Header
  }

  /** A character lowers to a lower-case letter exactly when it is that letter
      in lower or upper case. */
  lemma LowerCharIs(c: char, l: char)
    requires 'a' <= l <= 'z'
    ensures LowerChar(c) == l <==> c == l || c as int == l as int - 32
  {
  }

  /** `ADDRESS` is `address` letter by letter in upper case. */
  lemma UpperHeaderLetters()
    ensures |UpperHeader| == |Header|
    ensures forall i :: 0 <= i < |Header| ==> 'a' <= Header[i] <= 'z' && UpperHeader[i] as int == Header[i] as int - 32
  {
  }

  /** The header test is a case-insensitive comparison with `address`, letter by letter. */
  lemma HeaderIff(addr: string)
    ensures IsHeader(addr) <==>
      |addr| == |Header| && forall i :: 0 <= i < |addr| ==> addr[i] == Header[i] || addr[i] == UpperHeader[i]
  {
    UpperHeaderLetters();
    if |addr| == |Header| {
      var lower := Lower(addr);
      assert forall i :: 0 <= i < |addr| ==> lower[i] == LowerChar(addr[i]);
      forall i | 0 <= i < |addr|
        ensures lower[i] == Header[i] <==> addr[i] == Header[i] || addr[i] == UpperHeader[i]
      {
        LowerCharIs(addr[i], Header[i]);
      }
      if forall i :: 0 <= i < |addr| ==> addr[i] == Header[i] || addr[i] == UpperHeader[i] {
        assert forall i :: 0 <= i < |addr| ==> lower[i] == Header[i];
        assert lower == Header;
      }
    }
  }

  /** Values merely starting with `address` are not headers. */
  lemma NearHeadersAreNotHeaders()
    ensures !IsHeader("Address2") && !IsHeader("addresses")
    ensures IsHeader("Address") && IsHeader("ADDRESS")
  {
    assert Lower("Address") == Header;
    assert Lower("ADDRESS") == Header;
  }
}
