/** Case folding used to build cache keys: the ASCII part of Java's
    String.toLowerCase(), which maps 'A'..'Z' to 'a'..'z' and leaves every
    other character alone. */
module LowerCase {

  predicate IsUpperChar(c: char) {
    'A' <= c <= 'Z'
  }

  /** c and d are the same character, or the upper- and lower-case forms of
      one ASCII letter ('A' and 'a' are 32 code points apart). */
  predicate SameLetterIgnoringCase(c: char, d: char) {
    || c == d
    || (IsUpperChar(c) && d as int == c as int + 32)
    || (IsUpperChar(d) && c as int == d as int + 32)
  }

  /** The lower-case form of one character. */
  function LowerChar(c: char): (d: char)
    ensures !IsUpperChar(d)
    ensures SameLetterIgnoringCase(c, d)
  {
    if IsUpperChar(c) then (c as int + 32) as char else c
  }

  /** A string holds no upper-case letter. */
  predicate IsLower(s: string) {
    forall i :: 0 <= i < |s| ==> !IsUpperChar(s[i])
  }

  /** Two strings that differ at most in the case of their letters. */
  predicate EqualIgnoringCase(a: string, b: string) {
    |a| == |b| && forall i :: 0 <= i < |a| ==> SameLetterIgnoringCase(a[i], b[i])
  }

  /** The lower-case form of a string; total, defined for the empty string too. */
  function Lower(s: string): (r: string)
    ensures |r| == |s|
  {
    if s == [] then [] else [LowerChar(s[0])] + Lower(s[1..])
  }

  /** Lower folds each character on its own and keeps every position. */
  lemma {:induction false} LowerAt(s: string, i: int)
    requires 0 <= i < |s|
    ensures Lower(s)[i] == LowerChar(s[i])
  {
    if i > 0 {
      LowerAt(s[1..], i - 1);
    }
  }

  /** Every key Lower produces is lower-case. */
  lemma {:induction false} LowerIsLower(s: string)
    ensures IsLower(Lower(s))
  {
    forall i | 0 <= i < |s|
      ensures !IsUpperChar(Lower(s)[i])
    {
      LowerAt(s, i);
    }
  }

  /** A string that is already lower-case is its own key. */
  lemma {:induction false} LowerFixesLower(s: string)
    requires IsLower(s)
    ensures Lower(s) == s
  {
    if s != [] {
      assert !IsUpperChar(s[0]);
      assert IsLower(s[1..]) by {
        forall i | 0 <= i < |s[1..]|
          ensures !IsUpperChar(s[1..][i])
        {
          assert s[1..][i] == s[i + 1];
        }
      }
      LowerFixesLower(s[1..]);
    }
  }

  /** Normalising twice is the same as normalising once. */
  lemma {:induction false} LowerIdempotent(s: string)
    ensures Lower(Lower(s)) == Lower(s)
  {
    LowerIsLower(s);
    LowerFixesLower(Lower(s));
  }

  /** Two names share a cache key exactly when they differ only in case. */
  lemma SameKeyIffEqualIgnoringCase(a: string, b: string)
    ensures Lower(a) == Lower(b) <==> EqualIgnoringCase(a, b)
  {
    if Lower(a) == Lower(b) {
      assert |a| == |b|;
      forall i | 0 <= i < |a|
        ensures SameLetterIgnoringCase(a[i], b[i])
      {
        LowerAt(a, i);
        LowerAt(b, i);
      }
    }
    if EqualIgnoringCase(a, b) {
      forall i | 0 <= i < |a|
        ensures Lower(a)[i] == Lower(b)[i]
      {
        LowerAt(a, i);
        LowerAt(b, i);
      }
    }
  }
}
