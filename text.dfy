/** The Python string built-ins the pipeline relies on: whitespace, `str.split()`,
    `str.strip()`, `str.lower()` and the decimal rendering of an `int` in an f-string. */
module Text {

  type String = seq<char>

  /** Python's notion of whitespace (`str.isspace`), which is also what `\s` in a
      `str` regular expression, `str.split()` and `str.strip()` use. */
  predicate IsSpace(c: char) {
    ('\t' <= c <= '\r') || ('\U{1C}' <= c <= ' ') || c == '\U{85}' || c == '\U{A0}'
    || c == '\U{1680}' || ('\U{2000}' <= c <= '\U{200A}') || c == '\U{2028}' || c == '\U{2029}'
    || c == '\U{202F}' || c == '\U{205F}' || c == '\U{3000}'
  }

  predicate AllSpace(s: String) {
    forall k :: 0 <= k < |s| ==> IsSpace(s[k])
  }

  /** A word in the sense of `str.split()`: a non-empty run of non-whitespace characters. */
  predicate IsWord(s: String) {
    |s| > 0 && forall k :: 0 <= k < |s| ==> !IsSpace(s[k])
  }

  /** Length of the leading run of non-whitespace characters. */
  function WordLen(s: String): (n: nat)
    ensures n <= |s|
  {
    if s == [] || IsSpace(s[0]) then 0 else 1 + WordLen(s[1..])
  }

  lemma {:induction false} WordLenFacts(s: String)
    ensures forall k :: 0 <= k < WordLen(s) ==> !IsSpace(s[k])
    ensures WordLen(s) < |s| ==> IsSpace(s[WordLen(s)])
    decreases |s|
  {
    if s != [] && !IsSpace(s[0]) {
      WordLenFacts(s[1..]);
    }
  }

  /** Length of the leading run of whitespace characters. */
  function SpaceLen(s: String): (n: nat)
    ensures n <= |s|
  {
    if s == [] || !IsSpace(s[0]) then 0 else 1 + SpaceLen(s[1..])
  }

  lemma {:induction false} SpaceLenFacts(s: String)
    ensures forall k :: 0 <= k < SpaceLen(s) ==> IsSpace(s[k])
    ensures SpaceLen(s) < |s| ==> !IsSpace(s[SpaceLen(s)])
    decreases |s|
  {
    if s != [] && IsSpace(s[0]) {
      SpaceLenFacts(s[1..]);
    }
  }

  /** Length of the trailing run of whitespace characters. */
  function TrailLen(s: String): (n: nat)
    ensures n <= |s|
  {
    if s == [] || !IsSpace(s[|s| - 1]) then 0 else 1 + TrailLen(s[..|s| - 1])
  }

  lemma {:induction false} TrailLenFacts(s: String)
    ensures forall k :: |s| - TrailLen(s) <= k < |s| ==> IsSpace(s[k])
    ensures TrailLen(s) < |s| ==> !IsSpace(s[|s| - TrailLen(s) - 1])
    decreases |s|
  {
    if s != [] && IsSpace(s[|s| - 1]) {
      TrailLenFacts(s[..|s| - 1]);
    }
  }

  /** `s.split()`: the maximal runs of non-whitespace characters, in order. */
  function Words(s: String): seq<String>
    decreases |s|
  {
    if s == [] then []
    else if IsSpace(s[0]) then Words(s[1..])
    else
      var n := WordLen(s);
      [s[..n]] + Words(s[n..])
  }

  /** Every element `str.split()` returns is a word. */
  lemma {:induction false} WordsAreWords(s: String)
    ensures forall i :: 0 <= i < |Words(s)| ==> IsWord(Words(s)[i])
    decreases |s|
  {
    if s != [] {
      if IsSpace(s[0]) {
        WordsAreWords(s[1..]);
      } else {
        WordLenFacts(s);
        var n := WordLen(s);
        WordsAreWords(s[n..]);
      }
    }
  }

  /** `s.strip()`: `s` without its leading and trailing whitespace. */
  function Strip(s: String): String {
    var rest := s[SpaceLen(s)..];
    rest[..|rest| - TrailLen(rest)]
  }

  /** Where `strip()` cuts: `Strip(s)` is `s[lo..hi]`, everything outside is whitespace,
      and a non-empty result starts and ends with a non-whitespace character. */
  lemma StripBounds(s: String) returns (lo: nat, hi: nat)
    ensures lo <= hi <= |s| && Strip(s) == s[lo..hi]
    ensures forall k :: 0 <= k < lo ==> IsSpace(s[k])
    ensures forall k :: hi <= k < |s| ==> IsSpace(s[k])
    ensures lo == hi ==> lo == |s|
    ensures lo < hi ==> !IsSpace(s[lo]) && !IsSpace(s[hi - 1])
  {
    SpaceLenFacts(s);
    lo := SpaceLen(s);
    var rest := s[lo..];
    TrailLenFacts(rest);
    var t := TrailLen(rest);
    hi := |s| - t;
    forall k | hi <= k < |s| ensures IsSpace(s[k]) {
      assert s[k] == rest[k - lo];
    }
    if lo < |s| {
      assert rest[0] == s[lo];
      assert t < |rest|;
      assert s[hi - 1] == rest[|rest| - t - 1];
    }
    assert Strip(s) == rest[..|rest| - t] == s[lo..hi];
  }

  /** What `strip()` returns is no longer than its argument and has no whitespace at
      either end. */
  lemma StripTrims(s: String)
    ensures |Strip(s)| <= |s|
    ensures Strip(s) == [] || (!IsSpace(Strip(s)[0]) && !IsSpace(Strip(s)[|Strip(s)| - 1]))
  {
    var lo, hi := StripBounds(s);
  }

  /** The words of all strings of `ss`, read in order. */
  function WordsOfAll(ss: seq<String>): seq<String> {
    if ss == [] then [] else Words(ss[0]) + WordsOfAll(ss[1..])
  }

  // ---------------------------------------------------------------------------
  // Facts about Words and Strip

  lemma {:induction false} WordsSkipSpace(w: String, b: String)
    requires AllSpace(w)
    ensures Words(w + b) == Words(b)
    decreases |w|
  {
    if w != [] {
      assert (w + b)[0] == w[0] && IsSpace(w[0]);
      assert (w + b)[1..] == w[1..] + b;
      assert AllSpace(w[1..]) by {
        forall k | 0 <= k < |w[1..]| ensures IsSpace(w[1..][k]) {
          assert w[1..][k] == w[k + 1];
        }
      }
      WordsSkipSpace(w[1..], b);
    } else {
      assert w + b == b;
    }
  }

  lemma {:induction false} WordLenBeforeSpace(a: String, c: String)
    requires |c| > 0 && IsSpace(c[0])
    ensures WordLen(a + c) == WordLen(a)
    decreases |a|
  {
    if a != [] && !IsSpace(a[0]) {
      assert (a + c)[1..] == a[1..] + c;
      WordLenBeforeSpace(a[1..], c);
    }
  }

  /** A non-empty run of whitespace separates the words on its two sides. */
  lemma {:induction false} WordsSeparated(a: String, w: String, b: String)
    requires |w| > 0 && AllSpace(w)
    ensures Words(a + w + b) == Words(a) + Words(b)
    decreases |a|
  {
    if a == [] {
      assert a + w + b == w + b;
      WordsSkipSpace(w, b);
    } else if IsSpace(a[0]) {
      WordsSeparated(a[1..], w, b);
      WordsSeparatedSpace(a, w, b);
    } else {
      var n := WordLen(a);
      WordsSeparated(a[n..], w, b);
      WordsSeparatedWord(a, w, b);
    }
  }

  /** The step of `WordsSeparated` when `a` starts with whitespace. */
  lemma WordsSeparatedSpace(a: String, w: String, b: String)
    requires a != [] && IsSpace(a[0])
    requires Words(a[1..] + w + b) == Words(a[1..]) + Words(b)
    ensures Words(a + w + b) == Words(a) + Words(b)
  {
    assert Words(a + w + b) == Words(a[1..] + w + b) by {
      var s := a + w + b;
      assert s[0] == a[0];
      assert s[1..] == a[1..] + w + b;
    }
  }

  /** The step of `WordsSeparated` when `a` starts with a word. */
  lemma WordsSeparatedWord(a: String, w: String, b: String)
    requires a != [] && !IsSpace(a[0]) && |w| > 0 && IsSpace(w[0])
    requires Words(a[WordLen(a)..] + w + b) == Words(a[WordLen(a)..]) + Words(b)
    ensures Words(a + w + b) == Words(a) + Words(b)
  {
    var n := WordLen(a);
    var head, rest := [a[..n]], Words(a[n..]);
    WordsAfterWord(a, w, b);
    WordsOfWordStart(a);
    ConcatAssoc(head, rest, Words(b));
  }

  /** The first word of `a + w + b` is the first word of `a` when `w` starts with
      whitespace. */
  lemma WordsAfterWord(a: String, w: String, b: String)
    requires a != [] && !IsSpace(a[0]) && |w| > 0 && IsSpace(w[0])
    ensures Words(a + w + b) == [a[..WordLen(a)]] + Words(a[WordLen(a)..] + w + b)
  {
    var s := a + w + b;
    var n := WordLen(a);
    assert WordLen(s) == n by {
      assert s == a + (w + b);
      WordLenBeforeSpace(a, w + b);
    }
    assert s[0] == a[0];
    assert s[..n] == a[..n];
    assert s[n..] == a[n..] + w + b;
  }

  lemma WordsOfWordStart(a: String)
    requires a != [] && !IsSpace(a[0])
    ensures Words(a) == [a[..WordLen(a)]] + Words(a[WordLen(a)..])
  {
  }

  lemma WordsOfAllCons(x: String, ys: seq<String>)
    ensures WordsOfAll([x] + ys) == Words(x) + WordsOfAll(ys)
  {
    assert ([x] + ys)[1..] == ys;
  }

  lemma ConcatAssoc<T>(x: seq<T>, y: seq<T>, z: seq<T>)
    ensures x + (y + z) == x + y + z
  {
  }

  lemma WordsOfSpaces(s: String)
    requires AllSpace(s)
    ensures Words(s) == []
  {
    WordsSkipSpace(s, []);
    assert s + [] == s;
  }

  /** A string has no words exactly when it is all whitespace. */
  lemma {:induction false} NoWordsIffAllSpace(s: String)
    ensures Words(s) == [] <==> AllSpace(s)
    decreases |s|
  {
    if AllSpace(s) {
      WordsOfSpaces(s);
    } else if s != [] && IsSpace(s[0]) {
      NoWordsIffAllSpace(s[1..]);
      assert !AllSpace(s[1..]);
    }
  }

  /** A whitespace character at the end of a string adds no word. */
  lemma WordsTrailingSpace(a: String, c: char)
    requires IsSpace(c)
    ensures Words(a + [c]) == Words(a)
  {
    WordsSeparated(a, [c], []);
    assert a + [c] + [] == a + [c];
    assert Words(a) + Words([]) == Words(a);
  }

  /** Appending a separating space after `p` to a chunk that is empty or ends in
      whitespace adds exactly the words of `p`. */
  lemma WordsAppendPiece(cur: String, p: String)
    requires cur == [] || IsSpace(cur[|cur| - 1])
    ensures Words(cur + p + " ") == Words(cur) + Words(p)
  {
    assert Words(p + " ") == Words(p) by {
      WordsTrailingSpace(p, ' ');
      assert p + [' '] == p + " ";
    }
    assert cur + p + " " == cur + (p + " ");
    if cur == [] {
      assert cur + (p + " ") == p + " ";
    } else {
      var c' := cur[..|cur| - 1];
      assert cur == c' + [cur[|cur| - 1]];
      WordsAfterSpace(c', cur[|cur| - 1], p + " ");
    }
  }

  /** Whatever follows a whitespace character is split into words on its own. */
  lemma WordsAfterSpace(a: String, c: char, q: String)
    requires IsSpace(c)
    ensures Words(a + [c] + q) == Words(a + [c]) + Words(q)
  {
    WordsSeparated(a, [c], q);
    WordsTrailingSpace(a, c);
  }

  /** Stripping never loses or adds a word. */
  lemma StripKeepsWords(s: String)
    ensures Words(Strip(s)) == Words(s)
  {
    var lo, hi := StripBounds(s);
    StripKeepsWordsSplit(s, lo, hi);
  }

  lemma StripKeepsWordsSplit(s: String, lo: nat, hi: nat)
    requires lo <= hi <= |s|
    requires forall k :: 0 <= k < lo ==> IsSpace(s[k])
    requires forall k :: hi <= k < |s| ==> IsSpace(s[k])
    ensures Words(s[lo..hi]) == Words(s)
  {
    WordsDropLeading(s, lo);
    var t := s[lo..];
    forall k | hi - lo <= k < |t| ensures IsSpace(t[k]) {
      assert t[k] == s[lo + k];
    }
    WordsDropTrailing(t, hi - lo);
    assert t[..hi - lo] == s[lo..hi];
  }

  /** Leading whitespace carries no word. */
  lemma WordsDropLeading(s: String, lo: nat)
    requires lo <= |s|
    requires forall k :: 0 <= k < lo ==> IsSpace(s[k])
    ensures Words(s[lo..]) == Words(s)
  {
    var left := s[..lo];
    assert s == left + s[lo..];
    assert AllSpace(left) by {
      forall k | 0 <= k < |left| ensures IsSpace(left[k]) {
        assert left[k] == s[k];
      }
    }
    WordsSkipSpace(left, s[lo..]);
  }

  /** Trailing whitespace carries no word. */
  lemma WordsDropTrailing(r: String, hi: nat)
    requires hi <= |r|
    requires forall k :: hi <= k < |r| ==> IsSpace(r[k])
    ensures Words(r[..hi]) == Words(r)
  {
    if hi < |r| {
      var right := r[hi..];
      assert AllSpace(right) by {
        forall k | 0 <= k < |right| ensures IsSpace(right[k]) {
          assert right[k] == r[hi + k];
        }
      }
      assert Words(r) == Words(r[..hi]) by {
        assert r == r[..hi] + right + [];
        WordsSeparated(r[..hi], right, []);
        assert Words(r[..hi]) + Words([]) == Words(r[..hi]);
      }
    } else {
      assert r[..hi] == r;
    }
  }

  lemma StripEmptyIffAllSpace(s: String)
    ensures Strip(s) == [] <==> AllSpace(s)
  {
    var lo, hi := StripBounds(s);
  }

  /** Stripping a string that ends in whitespace makes it strictly shorter. */
  lemma StripTrailingSpace(s: String)
    requires |s| > 0 && IsSpace(s[|s| - 1])
    ensures |Strip(s)| < |s|
  {
    var lo, hi := StripBounds(s);
    if lo < hi {
      assert !IsSpace(s[hi - 1]);
    }
  }

  /** A word followed by one space strips back to the word. */
  lemma StripWordSpace(w: String)
    requires IsWord(w)
    ensures Strip(w + " ") == w
  {
    var s := w + " ";
    var lo, hi := StripBounds(s);
    assert !IsSpace(s[0]);
    assert hi <= |w| by {
      assert IsSpace(s[|w|]);
    }
    assert s[|w| - 1] == w[|w| - 1];
    assert s[lo..hi] == w;
  }

  lemma WordsOfWord(w: String)
    requires IsWord(w)
    ensures Words(w) == [w]
  {
    WordLenFacts(w);
    assert WordLen(w) == |w|;
    assert w[..|w|] == w && w[|w|..] == [];
  }

  lemma {:induction false} WordsOfAllAppend(a: seq<String>, b: seq<String>)
    ensures WordsOfAll(a + b) == WordsOfAll(a) + WordsOfAll(b)
    decreases |a|
  {
    if a == [] {
      assert a + b == b;
    } else {
      assert (a + b)[0] == a[0];
      assert (a + b)[1..] == a[1..] + b;
      WordsOfAllAppend(a[1..], b);
    }
  }

  /** Reading the words of a list of words gives the list back. */
  lemma {:induction false} WordsOfAllWords(ws: seq<String>)
    requires forall i :: 0 <= i < |ws| ==> IsWord(ws[i])
    ensures WordsOfAll(ws) == ws
    decreases |ws|
  {
    if ws != [] {
      WordsOfWord(ws[0]);
      WordsOfAllWords(ws[1..]);
    }
  }

  // ---------------------------------------------------------------------------
  // Decimal rendering, as in an f-string `{n}`

  function DigitChar(d: nat): (c: char)
    requires d < 10
    ensures '0' <= c <= '9' && (c - '0') as int == d
  {
    ('0' as int + d) as char
  }

  /** Decimal digits of a natural number, most significant first, no leading zero. */
  function NatToString(n: nat): (r: String)
    ensures |r| >= 1
    ensures forall k :: 0 <= k < |r| ==> '0' <= r[k] <= '9'
    ensures |r| > 1 ==> r[0] != '0'
  {
    if n < 10 then [DigitChar(n)] else NatToString(n / 10) + [DigitChar(n % 10)]
  }

  /** The value a string of decimal digits denotes. */
  function DecimalValue(s: String): int
    requires forall k :: 0 <= k < |s| ==> '0' <= s[k] <= '9'
  {
    if s == [] then 0 else 10 * DecimalValue(s[..|s| - 1]) + (s[|s| - 1] - '0') as int
  }

  /** Reading the rendering of `n` back gives `n`. */
  lemma {:induction false} NatToStringRoundTrip(n: nat)
    ensures DecimalValue(NatToString(n)) == n
  {
    if n >= 10 {
      var r := NatToString(n);
      assert r[..|r| - 1] == NatToString(n / 10);
      assert r[|r| - 1] == DigitChar(n % 10);
      NatToStringRoundTrip(n / 10);
    }
  }

  /** Numbers below 100 take at most two digits; from 100 on they take at least three. */
  lemma {:induction false} NatToStringLength(n: nat)
    ensures n < 10 ==> |NatToString(n)| == 1
    ensures 10 <= n < 100 ==> |NatToString(n)| == 2
    ensures n >= 100 ==> |NatToString(n)| >= 3
  {
    if n >= 10 {
      NatToStringLength(n / 10);
    }
  }

  /** `str(i)` for a Python `int`. */
  function IntToString(i: int): (r: String)
    ensures |r| >= 1 && (i < 0 <==> r[0] == '-')
  {
    if i < 0 then "-" + NatToString(-i) else NatToString(i)
  }

  // ---------------------------------------------------------------------------
  // Lower-casing

  function LowerChar(c: char): char {
    if 'A' <= c <= 'Z' then (c - 'A' + 'a') as char else c
  }

  /** `str.lower()`, for the ASCII letters (the only ones the pipeline compares against). */
  function Lower(s: String): (r: String)
    ensures |r| == |s|
    ensures forall k :: 0 <= k < |s| ==> r[k] == LowerChar(s[k])
  {
    if s == [] then [] else [LowerChar(s[0])] + Lower(s[1..])
  }

  /** A string lower-cases to the one-letter string `[c]` exactly when it is that letter
      in either case. */
  lemma LowerIsLetter(s: String, c: char)
    requires 'a' <= c <= 'z'
    ensures Lower(s) == [c] <==> s == [c] || s == [(c - 'a' + 'A') as char]
  {
    if Lower(s) == [c] {
      assert |s| == 1 && LowerChar(s[0]) == c;
    }
  }
}
