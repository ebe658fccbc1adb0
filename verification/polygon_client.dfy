/**
 * Ticker normalisation of the market-data client: upper-case, strip
 * surrounding whitespace, and give crypto pairs quoted in USD ("BTCUSD")
 * the "X:" market prefix the data provider expects.
 *
 * Case mapping is ASCII only; whitespace is the set Python's `str.isspace`
 * accepts.
 */
module PolygonClient {

  /** The characters Python's `str.isspace()` accepts, as code-point ranges. */
  predicate IsSpace(c: char) {
    || ('\t' <= c <= '\r')                  // tab, line feed, vertical tab, form feed, carriage return
    || ('\U{1C}' <= c <= '\U{1F}')          // file, group, record and unit separators
    || c == ' ' || c == '\U{85}' || c == '\U{A0}' || c == '\U{1680}'
    || ('\U{2000}' <= c <= '\U{200A}')      // en quad .. hair space
    || c == '\U{2028}' || c == '\U{2029}' || c == '\U{202F}' || c == '\U{205F}' || c == '\U{3000}'
  }

  predicate IsLowerAscii(c: char) {
    'a' <= c <= 'z'
  }

  function UpperChar(c: char): (u: char)
    ensures !IsLowerAscii(u)
    ensures IsSpace(u) <==> IsSpace(c)
    ensures !IsLowerAscii(c) ==> u == c
    ensures IsLowerAscii(c) ==> 'A' <= u <= 'Z' && u as int - 'A' as int == c as int - 'a' as int
  {
    if IsLowerAscii(c) then (c as int - 32) as char else c
  }

  /** `str.upper()` on ASCII letters. */
  function Upper(s: string): (r: string)
    ensures |r| == |s|
    ensures forall i :: 0 <= i < |s| ==> r[i] == UpperChar(s[i])
  {
    seq(|s|, i requires 0 <= i < |s| => UpperChar(s[i]))
  }

  predicate NoLower(s: string) {
    forall i :: 0 <= i < |s| ==> !IsLowerAscii(s[i])
  }

  /** Index of the first non-whitespace character of s at or after i (|s| if there is none). */
  function SkipSpaces(s: string, i: nat): (j: nat)
    requires i <= |s|
    ensures i <= j <= |s|
    ensures forall k :: i <= k < j ==> IsSpace(s[k])
    ensures j < |s| ==> !IsSpace(s[j])
    decreases |s| - i
  {
    if i < |s| && IsSpace(s[i]) then SkipSpaces(s, i + 1) else i
  }

  /** Index just past the last non-whitespace character of s[lo..j] (lo if there is none). */
  function SkipSpacesBack(s: string, lo: nat, j: nat): (e: nat)
    requires lo <= j <= |s|
    ensures lo <= e <= j
    ensures forall k :: e <= k < j ==> IsSpace(s[k])
    ensures e > lo ==> !IsSpace(s[e - 1])
    decreases j
  {
    if j > lo && IsSpace(s[j - 1]) then SkipSpacesBack(s, lo, j - 1) else j
  }

  /** r is the infix of s at offset a, and everything of s around it is whitespace. */
  predicate StrippedAt(s: string, r: string, a: int) {
    && 0 <= a <= |s| - |r| && r == s[a..a + |r|]
    && (forall k :: 0 <= k < a ==> IsSpace(s[k]))
    && (forall k :: a + |r| <= k < |s| ==> IsSpace(s[k]))
  }

  /** `str.strip()`: the infix left after removing the whitespace at both ends. */
  function Strip(s: string): (r: string)
    ensures StrippedAt(s, r, SkipSpaces(s, 0))
    ensures r == [] || (!IsSpace(r[0]) && !IsSpace(r[|r| - 1]))
  {
    var a := SkipSpaces(s, 0);
    var b := SkipSpacesBack(s, a, |s|);
    s[a..b]
  }

  predicate StartsWith(s: string, prefix: string) {
    |prefix| <= |s| && s[..|prefix|] == prefix
  }

  predicate EndsWith(s: string, suffix: string) {
    |suffix| <= |s| && s[|s| - |suffix|..] == suffix
  }

  /** The upper-cased, stripped ticker. */
  function Canonical(t: string): string {
    Strip(Upper(t))
  }

  /** A USD-quoted symbol longer than "USD" itself, not yet carrying the "X:" prefix. */
  predicate NeedsCryptoPrefix(n: string) {
    EndsWith(n, "USD") && !StartsWith(n, "X:") && |n| > 3
  }

  function NormalizeTicker(t: string): (r: string)
    ensures var n := Canonical(t);
      && (NeedsCryptoPrefix(n) ==> r == "X:" + n)
      && (!NeedsCryptoPrefix(n) ==> r == n)
      && |r| == |n| + (if NeedsCryptoPrefix(n) then 2 else 0)
  {
    var n := Strip(Upper(t));
    if EndsWith(n, "USD") && !StartsWith(n, "X:") && |n| > 3 then "X:" + n else n
  }

  /** The canonical form holds no lower-case letter and no whitespace at either end. */
  lemma CanonicalShape(t: string)
    ensures NormalShape(Canonical(t))
  {
    var u := Upper(t);
    var n := Strip(u);
    var a := SkipSpaces(u, 0);
    forall i | 0 <= i < |n|
      ensures !IsLowerAscii(n[i])
    {
      assert n[i] == u[a + i];
    }
  }

  /** No lower-case letter, and no whitespace at either end. */
  predicate NormalShape(s: string) {
    NoLower(s) && (s == [] || (!IsSpace(s[0]) && !IsSpace(s[|s| - 1])))
  }

  lemma PrefixKeepsShape(n: string)
    requires NormalShape(n) && |n| > 0
    ensures NormalShape("X:" + n)
  {
    var r := "X:" + n;
    assert r[|r| - 1] == n[|n| - 1];
    assert forall i :: 2 <= i < |r| ==> r[i] == n[i - 2];
  }

  /** A normalised ticker holds no lower-case letter and no whitespace at either end. */
  lemma NormalizedShape(t: string)
    ensures NormalShape(NormalizeTicker(t))
  {
    CanonicalShape(t);
    var n := Canonical(t);
    if NeedsCryptoPrefix(n) {
      PrefixKeepsShape(n);
    }
  }

  /** Stripping a string with no whitespace at either end leaves it as it is. */
  lemma StripOfTrimmed(s: string)
    requires s == [] || (!IsSpace(s[0]) && !IsSpace(s[|s| - 1]))
    ensures Strip(s) == s
  {
    assert SkipSpaces(s, 0) == 0;
    assert SkipSpacesBack(s, 0, |s|) == |s|;
    assert s[0..|s|] == s;
  }

  /** A string already in normal shape is its own canonical form. */
  lemma CanonicalOfNormal(s: string)
    requires NormalShape(s)
    ensures Canonical(s) == s
  {
    assert Upper(s) == s;
    StripOfTrimmed(s);
  }

  /** Normalising twice is normalising once. */
  lemma NormalizeIdempotent(t: string)
    ensures NormalizeTicker(NormalizeTicker(t)) == NormalizeTicker(t)
  {
    var r := NormalizeTicker(t);
    NormalizedShape(t);
    CanonicalOfNormal(r);
    if NeedsCryptoPrefix(Canonical(t)) {
      PrefixedIsNotPrefixedAgain(Canonical(t));
    }
  }

  lemma PrefixedIsNotPrefixedAgain(n: string)
    ensures !NeedsCryptoPrefix("X:" + n)
  {
    assert ("X:" + n)[..2] == "X:";
  }

  /** A ticker whose upper-cased form is already in normal shape is normalised from that form alone. */
  lemma NormalizeOfUpper(t: string, n: string)
    requires Upper(t) == n && NormalShape(n)
    ensures NormalizeTicker(t) == if NeedsCryptoPrefix(n) then "X:" + n else n
  {
    assert Canonical(t) == n by {
      StripOfTrimmed(n);
    }
  }

  /** "BTCUSD" is in normal shape and is a USD-quoted pair without the prefix. */
  lemma BtcUsdShape()
    ensures NormalShape("BTCUSD") && NeedsCryptoPrefix("BTCUSD")
  {
    assert "BTCUSD"[3..] == "USD";
    assert "BTCUSD"[..2] != "X:" by {
      assert "BTCUSD"[..2][0] == 'B';
    }
  }

  /** A lower-case crypto pair gets upper-cased and prefixed. */
  lemma NormalizePrefixesCryptoPair()
    ensures NormalizeTicker("btcusd") == "X:BTCUSD"
  {
    assert Upper("btcusd") == "BTCUSD" by {
      assert forall i :: 0 <= i < 6 ==> Upper("btcusd")[i] == "BTCUSD"[i];
    }
    BtcUsdShape();
    NormalizeOfUpper("btcusd", "BTCUSD");
  }

  /** "USD" alone is too short to be a pair and stays as it is. */
  lemma NormalizeKeepsBareUsd()
    ensures NormalizeTicker("USD") == "USD"
  {
    assert Upper("USD") == "USD";
    NormalizeOfUpper("USD", "USD");
  }

  /** An already prefixed pair only gets upper-cased. */
  lemma NormalizeKeepsPrefixedPair()
    ensures NormalizeTicker("x:ethusd") == "X:ETHUSD"
  {
    assert Upper("x:ethusd") == "X:ETHUSD";
    NormalizeOfUpper("x:ethusd", "X:ETHUSD");
    assert !NeedsCryptoPrefix("X:ETHUSD") by {
      assert "X:ETHUSD"[..2] == "X:";
    }
  }

  /** A stock symbol only gets upper-cased. */
  lemma NormalizeUppercasesStock()
    ensures NormalizeTicker("aapl") == "AAPL"
  {
    assert Upper("aapl") == "AAPL";
    NormalizeOfUpper("aapl", "AAPL");
    assert !EndsWith("AAPL", "USD") by {
      assert "AAPL"[1..] != "USD" by { assert "AAPL"[1..][0] == 'A'; }
    }
  }
}
