/**
 * The string predicates and conversions the User model relies on: Ruby's
 * `blank?`/`present?` and `String#downcase`.
 *
 * `downcase` is modelled on ASCII letters only; Ruby's is Unicode-aware.
 * Whitespace is the ASCII part of `[[:space:]]`.
 */
module Text {
  import opened Wrappers

  predicate IsSpace(c: char) {
    c == ' ' || c == '\t' || c == '\n' || c == '\r' || c as int == 0x0B || c as int == 0x0C
  }

  /** `String#blank?`: empty or whitespace only. */
  predicate IsBlank(s: string): (r: bool)
    ensures s == [] ==> r
    ensures r ==> IsLowercase(s)
  {
    forall i :: 0 <= i < |s| ==> IsSpace(s[i])
  }

  /** `Object#present?` on a string attribute that may be nil. */
  predicate Present(o: Option<string>): (r: bool)
    ensures r ==> o.Some? && |o.value| > 0
  {
    o.Some? && !IsBlank(o.value)
  }

  predicate IsUpper(c: char) {
    'A' <= c <= 'Z'
  }

  predicate IsLowercase(s: string) {
    forall i :: 0 <= i < |s| ==> !IsUpper(s[i])
  }

  function LowerChar(c: char): (d: char)
    ensures !IsUpper(d)
    ensures !IsUpper(c) ==> d == c
    ensures IsSpace(d) <==> IsSpace(c)
  {
    if IsUpper(c) then (c as int + 32) as char else c
  }

  /** `String#downcase`: same length, every letter lowered, nothing upper-case left. */
  function Downcase(s: string): (r: string)
    ensures |r| == |s|
    ensures forall i :: 0 <= i < |s| ==> r[i] == LowerChar(s[i])
    ensures IsLowercase(r)
  {
    if s == [] then [] else [LowerChar(s[0])] + Downcase(s[1..])
  }

  /**
   * `b` is `a` with some letters changed in case: position by position the two
   * are equal or one is the lower-case form of the other.
   */
  predicate SameUpToCase(a: string, b: string) {
    |a| == |b| && forall i :: 0 <= i < |a| ==> a[i] == b[i] || LowerChar(a[i]) == b[i] || a[i] == LowerChar(b[i])
  }

  /** Strings that differ only in letter case have the same downcase. */
  lemma SameUpToCaseDowncase(a: string, b: string)
    requires SameUpToCase(a, b)
    ensures Downcase(a) == Downcase(b)
  {
    forall i | 0 <= i < |a| ensures Downcase(a)[i] == Downcase(b)[i] {
      if LowerChar(a[i]) == b[i] {
        assert LowerChar(b[i]) == b[i];
      } else if a[i] == LowerChar(b[i]) {
        assert LowerChar(a[i]) == a[i];
      }
    }
  }

  /** Downcase leaves a string alone exactly when it has no upper-case letter. */
  lemma DowncaseFixes(s: string)
    ensures Downcase(s) == s <==> IsLowercase(s)
  {
    if IsLowercase(s) {
      forall i | 0 <= i < |s| ensures Downcase(s)[i] == s[i] {
        assert !IsUpper(s[i]);
      }
    }
  }

  lemma DowncaseIdempotent(s: string)
    ensures Downcase(Downcase(s)) == Downcase(s)
  {
    DowncaseFixes(Downcase(s));
  }

  /** A blank string has no letters, so downcasing it changes nothing. */
  lemma BlankIsLowercase(s: string)
    requires IsBlank(s)
    ensures IsLowercase(s) && Downcase(s) == s
  {
    forall i | 0 <= i < |s| ensures !IsUpper(s[i]) {
      assert IsSpace(s[i]);
    }
    DowncaseFixes(s);
  }

  /** Downcasing neither creates nor removes blankness. */
  lemma DowncaseKeepsBlank(s: string)
    ensures IsBlank(Downcase(s)) <==> IsBlank(s)
  {
    var d := Downcase(s);
    if !IsBlank(s) {
      var i :| 0 <= i < |s| && !IsSpace(s[i]);
      assert !IsSpace(d[i]);
    }
  }
}
