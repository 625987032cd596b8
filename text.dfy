/**
 * ASCII text helpers for file names: lower-casing, suffix tests and
 * case-insensitive comparison. Non-ASCII characters are left as they are.
 */
module Text {

  /** Lower-cases one character: 'A'..'Z' become 'a'..'z', everything else is kept. */
  function LowerChar(c: char): char {
    if 'A' <= c <= 'Z' then (c as int - 'A' as int + 'a' as int) as char else c
  }

  predicate IsUpper(c: char) {
    'A' <= c <= 'Z'
  }

  /** The string lower-cased character by character, as `str.lower` does on ASCII. */
  function Lower(s: string): (r: string)
    ensures |r| == |s|
    ensures forall i :: 0 <= i < |s| ==> r[i] == LowerChar(s[i])
    ensures forall i :: 0 <= i < |r| ==> !IsUpper(r[i])
  {
    if s == [] then [] else [LowerChar(s[0])] + Lower(s[1..])
  }

  /** `s.endswith(suffix)`. */
  predicate EndsWith(s: string, suffix: string) {
    |suffix| <= |s| && s[|s| - |suffix|..] == suffix
  }

  /** `s.endswith(tuple(suffixes))`, or `any(s.endswith(e) for e in suffixes)`. */
  predicate EndsWithAny(s: string, suffixes: seq<string>) {
    exists e :: e in suffixes && EndsWith(s, e)
  }

  /** Two strings that differ only in the case of ASCII letters. */
  predicate EqualIgnoringCase(a: string, b: string) {
    |a| == |b| && forall i :: 0 <= i < |a| ==> LowerChar(a[i]) == LowerChar(b[i])
  }

  /** `s` ends with `suffix` exactly when its last `|suffix|` characters are those of `suffix`, in order. */
  lemma EndsWithAt(s: string, suffix: string)
    ensures EndsWith(s, suffix) <==>
      |suffix| <= |s| && forall i :: 0 <= i < |suffix| ==> s[|s| - |suffix| + i] == suffix[i]
  {
    if |suffix| <= |s| {
      var tail := s[|s| - |suffix|..];
      assert forall i :: 0 <= i < |suffix| ==> tail[i] == s[|s| - |suffix| + i];
    }
  }

  /** Lower-casing twice is lower-casing once. */
  lemma LowerIdempotent(s: string)
    ensures Lower(Lower(s)) == Lower(s)
  {
    var l := Lower(s);
    assert forall i :: 0 <= i < |l| ==> Lower(l)[i] == l[i];
  }

  /** Two strings compare equal ignoring case exactly when their lower-cased forms are equal. */
  lemma EqualIgnoringCaseIff(a: string, b: string)
    ensures EqualIgnoringCase(a, b) <==> Lower(a) == Lower(b)
  {
    if Lower(a) == Lower(b) {
      assert forall i :: 0 <= i < |a| ==> LowerChar(a[i]) == Lower(a)[i] == Lower(b)[i] == LowerChar(b[i]);
    }
  }

  /** Lower-casing distributes over concatenation. */
  lemma {:induction false} LowerAppend(a: string, b: string)
    ensures Lower(a + b) == Lower(a) + Lower(b)
  {
    if a == [] {
      assert a + b == b;
    } else {
      assert (a + b)[1..] == a[1..] + b;
      LowerAppend(a[1..], b);
    }
  }

  /** What is left of a suffix after dropping its first characters is still a suffix. */
  lemma EndsWithDrop(s: string, suffix: string, k: nat)
    requires k <= |suffix|
    ensures EndsWith(s, suffix) ==> EndsWith(s, suffix[k..])
  {
    if EndsWith(s, suffix) {
      assert s[|s| - |suffix[k..]|..] == s[|s| - |suffix|..][k..];
    }
  }

  /** A suffix of the right-hand part of a concatenation is a suffix of the whole, and back. */
  lemma EndsWithAppend(a: string, b: string, suffix: string)
    requires |suffix| <= |b|
    ensures EndsWith(a + b, suffix) <==> EndsWith(b, suffix)
  {
    assert (a + b)[|a + b| - |suffix|..] == b[|b| - |suffix|..];
  }

  /** Any suffix of a list that is a concatenation: any suffix of either part. */
  lemma EndsWithAnyAppend(s: string, a: seq<string>, b: seq<string>)
    ensures EndsWithAny(s, a + b) <==> EndsWithAny(s, a) || EndsWithAny(s, b)
  {
    if EndsWithAny(s, a + b) {
      var e :| e in a + b && EndsWith(s, e);
      assert e in a || e in b;
    }
  }

  /**
   * Against suffixes that all have `k` characters, `lower(s).endswith(...)`
   * looks only at the last `k` characters of `s`: it holds exactly when `s`
   * has at least `k` characters and the last `k`, lower-cased, are one of the suffixes.
   */
  lemma EndsWithAnyOfLength(s: string, suffixes: seq<string>, k: nat)
    requires forall e :: e in suffixes ==> |e| == k
    ensures EndsWithAny(Lower(s), suffixes) <==> |s| >= k && Lower(s[|s| - k..]) in suffixes
  {
    if |s| >= k {
      var prefix, tail := s[..|s| - k], s[|s| - k..];
      assert s == prefix + tail;
      LowerAppend(prefix, tail);
      forall e | e in suffixes
        ensures EndsWith(Lower(s), e) <==> Lower(tail) == e
      {
        EndsWithAppend(Lower(prefix), Lower(tail), e);
        assert Lower(tail)[|Lower(tail)| - |e|..] == Lower(tail);
      }
      if Lower(tail) in suffixes {
        assert EndsWith(Lower(s), Lower(tail));
      }
    }
  }
}
