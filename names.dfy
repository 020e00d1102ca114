/** The two name patterns of the catalog, written as hand-made matchers over characters
    instead of regular expressions:
    - a product name is `[A-Za-z]+[0-9]+` (one or more ASCII letters, then one or more digits);
    - a name found by a query for `n` letters is `[A-Za-z]{n}[0-9]{2,3}`, matched in full.
    Each matcher is proved equal to a declarative description of the pattern. */
module Names {

  predicate IsLetter(c: char) {
    'a' <= c <= 'z' || 'A' <= c <= 'Z'
  }

  predicate IsDigit(c: char) {
    '0' <= c <= '9'
  }

  ghost predicate AllLetters(s: string) {
    forall i :: 0 <= i < |s| ==> IsLetter(s[i])
  }

  ghost predicate AllDigits(s: string) {
    forall i :: 0 <= i < |s| ==> IsDigit(s[i])
  }

  /** `s` matches `[A-Za-z]+[0-9]+` in full: it splits at some k into a non-empty run of
      letters and a non-empty run of digits. */
  ghost predicate IsProductName(s: string) {
    exists k :: 0 < k < |s| && AllLetters(s[..k]) && AllDigits(s[k..])
  }

  /** `s` matches `[A-Za-z]{n}[0-9]{2,3}` in full: exactly n letters, then 2 or 3 digits. */
  ghost predicate IsEntryName(s: string, n: nat) {
    (|s| == n + 2 || |s| == n + 3) && AllLetters(s[..n]) && AllDigits(s[n..])
  }

  /** Matcher for `[0-9]+`. */
  predicate MatchDigits(s: string)
    ensures MatchDigits(s) <==> |s| > 0 && AllDigits(s)
  {
    |s| > 0 && IsDigit(s[0]) && (|s| == 1 || MatchDigits(s[1..]))
  }

  /** Matcher for `[A-Za-z]*[0-9]+`: take letters while they last, then the digit run. */
  predicate MatchLettersThenDigits(s: string)
    ensures MatchLettersThenDigits(s) <==>
              exists k :: 0 <= k < |s| && AllLetters(s[..k]) && AllDigits(s[k..])
  {
    if |s| == 0 then false
    else if IsLetter(s[0]) then
      var r := MatchLettersThenDigits(s[1..]);
      SplitAfterLetter(s, r);
      r
    else
      assert !IsDigit(s[0]) ==> forall k :: 0 < k < |s| ==> !AllLetters(s[..k]) by {
        forall k | 0 < k < |s| ensures !AllLetters(s[..k]) { assert s[..k][0] == s[0]; }
      }
      assert MatchDigits(s) ==> AllLetters(s[..0]) && s[0..] == s;
      MatchDigits(s)
  }

  /** The step of `MatchLettersThenDigits` past a leading letter. */
  lemma SplitAfterLetter(s: string, rest: bool)
    requires |s| > 0 && IsLetter(s[0])
    requires rest <==> exists k :: 0 <= k < |s| - 1 && AllLetters(s[1..][..k]) && AllDigits(s[1..][k..])
    ensures rest <==> exists k :: 0 <= k < |s| && AllLetters(s[..k]) && AllDigits(s[k..])
  {
    if rest {
      var k :| 0 <= k < |s| - 1 && AllLetters(s[1..][..k]) && AllDigits(s[1..][k..]);
      assert s[1..][k..] == s[k + 1..];
      assert s[..k + 1] == [s[0]] + s[1..][..k];
      LettersCons(s[0], s[1..][..k]);
    }
    if exists k :: 0 <= k < |s| && AllLetters(s[..k]) && AllDigits(s[k..]) {
      var k :| 0 <= k < |s| && AllLetters(s[..k]) && AllDigits(s[k..]);
      assert s[k..][0] == s[k];
      assert s[1..][k - 1..] == s[k..];
      assert s[..k] == [s[0]] + s[1..][..k - 1];
      LettersCons(s[0], s[1..][..k - 1]);
    }
  }

  /** Matcher for `[A-Za-z]+[0-9]+`, the validity test of product names. */
  predicate MatchProductName(s: string)
    ensures MatchProductName(s) <==> IsProductName(s)
  {
    if |s| > 0 && IsLetter(s[0]) then
      var r := MatchLettersThenDigits(s[1..]);
      SplitAfterLetter(s, r);
      r
    else
      false
  }

  /** Matcher for `[A-Za-z]{n}[0-9]{2,3}`: n letters one by one, then a run of 2 or 3 digits. */
  predicate MatchEntryName(s: string, n: nat)
    ensures MatchEntryName(s, n) <==> IsEntryName(s, n)
  {
    if n == 0 then
      assert s[..0] == [] && s[0..] == s;
      (|s| == 2 || |s| == 3) && MatchDigits(s)
    else if |s| > 0 && IsLetter(s[0]) then
      var r := MatchEntryName(s[1..], n - 1);
      assert r <==> IsEntryName(s, n) by {
        if |s| >= n {
          assert s[1..][n - 1..] == s[n..];
          assert s[..n] == [s[0]] + s[1..][..n - 1];
          LettersCons(s[0], s[1..][..n - 1]);
        }
      }
      r
    else
      assert !IsEntryName(s, n) by {
        if |s| >= n + 2 { assert s[..n][0] == s[0]; }
      }
      false
  }

  lemma LettersCons(c: char, t: string)
    ensures AllLetters([c] + t) <==> IsLetter(c) && AllLetters(t)
  {
    var u := [c] + t;
    if IsLetter(c) && AllLetters(t) {
      forall i | 0 <= i < |u| ensures IsLetter(u[i]) {
        if i > 0 { assert u[i] == t[i - 1]; }
      }
    }
    if AllLetters(u) {
      assert IsLetter(u[0]);
      forall i | 0 <= i < |t| ensures IsLetter(t[i]) {
        assert u[i + 1] == t[i];
      }
    }
  }

  /** In a name matching the entry pattern for n letters, exactly the first n characters
      are letters. */
  lemma EntryNameShape(s: string, n: nat)
    requires IsEntryName(s, n)
    ensures forall i :: 0 <= i < |s| ==> (IsLetter(s[i]) <==> i < n)
  {
    forall i | 0 <= i < |s| ensures IsLetter(s[i]) <==> i < n {
      if i < n {
        assert s[..n][i] == s[i];
      } else {
        assert s[n..][i - n] == s[i];
      }
    }
  }

  /** A name found for n > 0 letters is a valid product name. */
  lemma EntryNameIsProductName(s: string, n: nat)
    requires n > 0 && IsEntryName(s, n)
    ensures IsProductName(s)
  {
    assert 0 < n < |s| && AllLetters(s[..n]) && AllDigits(s[n..]);
  }

  /** A name matches the entry pattern for at most one letter count, so the answers of
      queries for different letter counts never share a product. */
  lemma EntryLetterCountUnique(s: string, n: nat, m: nat)
    requires IsEntryName(s, n) && IsEntryName(s, m)
    ensures n == m
  {
    EntryNameShape(s, n);
    EntryNameShape(s, m);
    var i := if n < m then n else m;
    assert IsLetter(s[i]) <==> i < n;
    assert IsLetter(s[i]) <==> i < m;
  }

  /** No product name matches a query for zero letters: product names start with a letter,
      the zero-letter pattern is digits only. */
  lemma ZeroLettersMatchNoProductName(s: string)
    requires IsProductName(s)
    ensures !IsEntryName(s, 0)
  {
    var k :| 0 < k < |s| && AllLetters(s[..k]) && AllDigits(s[k..]);
    assert s[..k][0] == s[0] && s[0..][0] == s[0];
  }
}
