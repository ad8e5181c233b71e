/**
  The Python string operations the identity lab relies on: `strip`, whitespace
  `split`, `" ".join`, `partition`, `lower` and the decimal rendering of an
  integer, with the laws the other modules use.
 */
module PyText {

  lemma Reassociate<T>(a: seq<T>, b: seq<T>, c: seq<T>)
    ensures a + (b + c) == a + b + c
  {
  }

  /** The mark the claim sanitiser appends to a string it has cut (U+2026). */
  const ELLIPSIS: char := '\U{2026}'

  /** The characters for which Python's `str.isspace` holds. */
  predicate IsSpace(c: char) {
    || '\U{0009}' <= c <= '\U{000D}'
    || '\U{001C}' <= c <= '\U{0020}'
    || c == '\U{0085}' || c == '\U{00A0}' || c == '\U{1680}'
    || '\U{2000}' <= c <= '\U{200A}'
    || c == '\U{2028}' || c == '\U{2029}' || c == '\U{202F}'
    || c == '\U{205F}' || c == '\U{3000}'
  }

  /** No white space at either end. */
  predicate Trimmed(s: string) {
    s == "" || (!IsSpace(s[0]) && !IsSpace(s[|s| - 1]))
  }

  predicate EndsIn(s: string, c: char) {
    s != "" && s[|s| - 1] == c
  }

  /** Python's `s.lstrip()`. */
  function LStrip(s: string): (t: string)
    ensures |t| <= |s|
  {
    if s != "" && IsSpace(s[0]) then LStrip(s[1..]) else s
  }

  /** What `lstrip` removes is the leading white space, and all of it. */
  lemma {:induction false} LStripMeans(s: string)
    ensures var t := LStrip(s); var n := |s| - |t|;
            && s[n..] == t && (forall i :: 0 <= i < n ==> IsSpace(s[i]))
            && (t != "" ==> !IsSpace(t[0]))
  {
    if s != "" && IsSpace(s[0]) {
      LStripMeans(s[1..]);
    }
  }

  /** Python's `s.strip()`. */
  function Strip(s: string): (t: string)
    ensures Trimmed(t)
    ensures |t| <= |s|
    ensures Trimmed(s) ==> t == s
    decreases |s|
  {
    if s == "" then s
    else if IsSpace(s[0]) then Strip(s[1..])
    else if IsSpace(s[|s| - 1]) then Strip(s[..|s| - 1])
    else s
  }

  /** What `strip` returns is a contiguous part of its argument, with only white space around it. */
  lemma {:induction false} StripIsSlice(s: string) returns (i: nat, j: nat)
    ensures i <= j <= |s| && Strip(s) == s[i..j]
    ensures forall k :: 0 <= k < i || j <= k < |s| ==> IsSpace(s[k])
    decreases |s|
  {
    i, j := 0, |s|;
    if s == "" {
    } else if IsSpace(s[0]) {
      var t := s[1..];
      i, j := StripIsSlice(t);
      assert t[i..j] == s[i + 1..j + 1];
      forall k | 0 <= k < i + 1 || j + 1 <= k < |s| ensures IsSpace(s[k]) {
        assert k == 0 || IsSpace(t[k - 1]);
      }
      i, j := i + 1, j + 1;
    } else if IsSpace(s[|s| - 1]) {
      var t := s[..|s| - 1];
      i, j := StripIsSlice(t);
      assert t[i..j] == s[i..j];
      forall k | 0 <= k < i || j <= k < |s| ensures IsSpace(s[k]) {
        assert k == |s| - 1 || IsSpace(t[k]);
      }
    }
  }

  predicate AllSpace(s: string) {
    forall i :: 0 <= i < |s| ==> IsSpace(s[i])
  }

  /** What `strip` removes is white space only. */
  lemma StripRemovesSpace(s: string) returns (before: string, after: string)
    ensures s == before + Strip(s) + after && AllSpace(before) && AllSpace(after)
  {
    var i, j := StripIsSlice(s);
    before, after := s[..i], s[j..];
  }

  lemma {:induction false} StripSpaceBefore(before: string, s: string)
    requires AllSpace(before)
    ensures Strip(before + s) == Strip(s)
    decreases |before|
  {
    if before == "" {
      assert before + s == s;
    } else {
      StripSpaceBefore(before[1..], s);
      assert (before + s)[1..] == before[1..] + s;
    }
  }

  lemma {:induction false} StripSpaceAfter(s: string, after: string)
    requires Trimmed(s) && s != "" && AllSpace(after)
    ensures Strip(s + after) == s
    decreases |after|
  {
    if after == "" {
      assert s + after == s;
    } else {
      var rest := after[..|after| - 1];
      StripSpaceAfter(s, rest);
      assert (s + after)[..|s + after| - 1] == s + rest;
    }
  }

  lemma {:induction false} StripAllSpace(s: string)
    requires AllSpace(s)
    ensures Strip(s) == ""
    decreases |s|
  {
    if s == "" {
    } else {
      StripAllSpace(s[1..]);
    }
  }

  /** `strip` returns the text that has no white space at its ends and only white space around it. */
  lemma StripIs(s: string, before: string, t: string, after: string)
    requires s == before + t + after && AllSpace(before) && AllSpace(after)
    requires t == "" || (!IsSpace(t[0]) && !IsSpace(t[|t| - 1]))
    ensures Strip(s) == t
  {
    assert s == before + (t + after);
    StripSpaceBefore(before, t + after);
    if t == "" {
      assert t + after == after;
      StripAllSpace(after);
    } else {
      StripSpaceAfter(t, after);
    }
  }

  // ---------- split on white space ----------

  /** Length of the leading run of non-space characters. */
  function WordLen(s: string): (n: nat)
    ensures n <= |s|
    ensures forall i :: 0 <= i < n ==> !IsSpace(s[i])
    ensures n < |s| ==> IsSpace(s[n])
  {
    if s == "" || IsSpace(s[0]) then 0 else 1 + WordLen(s[1..])
  }

  /** Python's `s.split()`. */
  function Words(s: string): seq<string> {
    if s == "" then []
    else if IsSpace(s[0]) then Words(s[1..])
    else [s[..WordLen(s)]] + Words(s[WordLen(s)..])
  }

  predicate IsWord(w: string) {
    w != "" && forall i :: 0 <= i < |w| ==> !IsSpace(w[i])
  }

  lemma {:induction false} WordsAreWords(s: string)
    ensures forall w :: w in Words(s) ==> IsWord(w)
    decreases |s|
  {
    if s == "" {
    } else if IsSpace(s[0]) {
      WordsAreWords(s[1..]);
    } else {
      WordsAreWords(s[WordLen(s)..]);
    }
  }

  /** The run of non-space characters is determined by where it ends. */
  lemma {:induction false} WordLenIs(s: string, n: nat)
    requires n <= |s|
    requires forall i :: 0 <= i < n ==> !IsSpace(s[i])
    requires n < |s| ==> IsSpace(s[n])
    ensures WordLen(s) == n
  {
  }

  lemma {:induction false} WordsOfWordThen(w: string, rest: string)
    requires IsWord(w)
    requires rest == "" || IsSpace(rest[0])
    ensures Words(w + rest) == [w] + Words(rest)
  {
    WordLenIs(w + rest, |w|);
    assert (w + rest)[..|w|] == w;
    assert (w + rest)[|w|..] == rest;
  }

  lemma {:induction false} WordsOfAppendedSpace(p: string, c: char)
    requires IsSpace(c)
    ensures Words(p + [c]) == Words(p)
    decreases |p|
  {
    if p == "" {
      assert (p + [c])[1..] == "";
    } else if IsSpace(p[0]) {
      WordsOfAppendedSpace(p[1..], c);
      assert (p + [c])[1..] == p[1..] + [c];
    } else {
      var w, rest := p[..WordLen(p)], p[WordLen(p)..];
      WordsOfAppendedSpace(rest, c);
      assert p + [c] == w + (rest + [c]);
      WordsOfWordThen(w, rest + [c]);
    }
  }

  /** Trimming does not change the words. */
  lemma {:induction false} WordsOfStrip(s: string)
    ensures Words(Strip(s)) == Words(s)
    decreases |s|
  {
    if s == "" {
    } else if IsSpace(s[0]) {
      WordsOfStrip(s[1..]);
    } else if IsSpace(s[|s| - 1]) {
      var p := s[..|s| - 1];
      WordsOfStrip(p);
      WordsOfAppendedSpace(p, s[|s| - 1]);
      assert s == p + [s[|s| - 1]];
    }
  }

  /** There is a word exactly when something is left after trimming. */
  lemma {:induction false} SomeWordIffNotBlank(s: string)
    ensures Words(s) == [] <==> Strip(s) == ""
  {
    WordsOfStrip(s);
  }

  /**
    Cutting a text and appending a non-space mark invents no word: every word of
    the cut text is a word of the original, except a last one that ends in the mark.
   */
  lemma {:induction false} WordsOfCut(t: string, n: nat, mark: char)
    requires n <= |t| && !IsSpace(mark)
    ensures forall w :: w in Words(t[..n] + [mark]) ==> w in Words(t) || EndsIn(w, mark)
    decreases n
  {
    var c := t[..n] + [mark];
    if n == 0 {
      assert c == [mark];
      WordLenIs(c, 1);
      assert c[1..] == "";
      assert Words(c) == [c[..1]] + Words(c[1..]);
    } else if IsSpace(t[0]) {
      WordsOfCut(t[1..], n - 1, mark);
      assert c[1..] == t[1..][..n - 1] + [mark];
    } else {
      var k := WordLen(t);
      if k < n {
        var w, rest := t[..k], t[k..];
        WordsOfCut(rest, n - k, mark);
        assert c == w + (rest[..n - k] + [mark]);
        WordsOfWordThen(w, rest[..n - k] + [mark]);
      } else {
        WordLenIs(c, n + 1);
        assert c[n + 1..] == "";
        assert Words(c) == [c[..n + 1]] + Words(c[n + 1..]);
      }
    }
  }

  lemma {:induction false} WordsAreShort(s: string)
    ensures forall w :: w in Words(s) ==> |w| <= |s|
    decreases |s|
  {
    if s == "" {
    } else if IsSpace(s[0]) {
      WordsAreShort(s[1..]);
    } else {
      WordsAreShort(s[WordLen(s)..]);
    }
  }

  /**
    Where an invented word comes from: it is the whole cut text, or a word of the
    original stands before it within the cut.
   */
  lemma {:induction false} CutWordFits(t: string, n: nat, mark: char, w: string)
    requires 0 < n <= |t| && !IsSpace(t[0]) && !IsSpace(mark)
    requires w in Words(t[..n] + [mark]) && w !in Words(t)
    ensures IsWord(w) && EndsIn(w, mark)
    ensures |w| == n + 1 || exists u :: u in Words(t) && |u| + |w| <= n
  {
    var c, k := t[..n] + [mark], WordLen(t);
    WordsOfCut(t, n, mark);
    WordsAreWords(c);
    if k < n {
      var u, rest := t[..k], t[k..][..n - k] + [mark];
      assert c == u + rest;
      WordsOfWordThen(u, rest);
      assert u in Words(t) && Words(rest) == Words(rest[1..]);
      WordsAreShort(rest[1..]);
    } else {
      WordLenIs(c, n + 1);
      assert c[n + 1..] == "" && c[..n + 1] == c;
      assert Words(c) == [c] + Words(c[n + 1..]);
    }
  }

  /** A word appended after a space is the last word. */
  lemma {:induction false} WordsThenWord(p: string, w: string)
    requires IsWord(w) && (p == "" || IsSpace(p[|p| - 1]))
    ensures Words(p + w) == Words(p) + [w]
    decreases |p|
  {
    if p == "" {
      WordsOfWordThen(w, "");
      assert p + w == w + "";
    } else if IsSpace(p[0]) {
      WordsThenWord(p[1..], w);
      assert (p + w)[1..] == p[1..] + w;
    } else {
      var u, rest := p[..WordLen(p)], p[WordLen(p)..];
      WordsThenWord(rest, w);
      assert p + w == u + (rest + w);
      WordsOfWordThen(u, rest + w);
    }
  }

  /** Python's `" ".join(ws)`. */
  function JoinSpace(ws: seq<string>): string {
    if ws == [] then "" else if |ws| == 1 then ws[0] else ws[0] + " " + JoinSpace(ws[1..])
  }

  /** Splitting undoes joining when the parts are words. */
  lemma {:induction false} WordsOfJoin(ws: seq<string>)
    requires forall w :: w in ws ==> IsWord(w)
    ensures Words(JoinSpace(ws)) == ws
  {
    if ws == [] {
    } else if |ws| == 1 {
      WordsOfWordThen(ws[0], "");
      assert ws[0] + "" == ws[0];
      assert ws == [ws[0]];
    } else {
      WordsOfJoin(ws[1..]);
      var tail := JoinSpace(ws[1..]);
      WordsAfterSpace(' ', tail);
      WordsOfWordThen(ws[0], " " + tail);
      assert ws[0] + (" " + tail) == JoinSpace(ws);
      assert ws == [ws[0]] + ws[1..];
    }
  }

  lemma WordsAfterSpace(c: char, s: string)
    requires IsSpace(c)
    ensures Words([c] + s) == Words(s)
  {
    assert ([c] + s)[1..] == s;
  }

  /** A join of at least one non-blank part is not blank. */
  lemma {:induction false} JoinNotBlank(ws: seq<string>)
    requires ws != [] && forall w :: w in ws ==> Strip(w) != ""
    ensures Words(JoinSpace(ws)) != []
  {
    SomeWordIffNotBlank(ws[0]);
    if |ws| > 1 {
      WordsOfPrefixStay(ws[0], " " + JoinSpace(ws[1..]));
      assert ws[0] + (" " + JoinSpace(ws[1..])) == JoinSpace(ws);
    }
  }

  lemma {:induction false} WordsOfPrefixStay(s: string, rest: string)
    requires Words(s) != []
    ensures Words(s + rest) != []
    decreases |s|
  {
    if IsSpace(s[0]) {
      assert (s + rest)[1..] == s[1..] + rest;
      WordsOfPrefixStay(s[1..], rest);
    }
  }

  // ---------- partition, lower, decimal ----------

  /** Index of the first `c`, or the length when there is none. */
  function IndexOf(s: string, c: char): (i: nat)
    ensures i <= |s|
    ensures forall j :: 0 <= j < i ==> s[j] != c
    ensures i < |s| ==> s[i] == c
  {
    if s == "" || s[0] == c then 0 else 1 + IndexOf(s[1..], c)
  }

  /**
    Lower case of one character, exact for every comparison with a lower-case
    ASCII text: beside A-Z only the Kelvin sign lowers to an ASCII letter alone.
   */
  function LowerChar(c: char): char {
    if 'A' <= c <= 'Z' then ((c as int) + 32) as char
    else if c == '\U{212A}' then 'k'
    else c
  }

  function Lower(s: string): (t: string)
    ensures |t| == |s|
    ensures forall i :: 0 <= i < |s| ==> t[i] == LowerChar(s[i])
  {
    seq(|s|, i requires 0 <= i < |s| => LowerChar(s[i]))
  }

  // which texts lower to a given ASCII text: itself with any letters in the other case
  lemma LowersTo(s: string, t: string)
    requires forall i :: 0 <= i < |t| ==> t[i] < 128 as char
    ensures Lower(s) == t <==>
      && |s| == |t|
      && forall i :: 0 <= i < |s| ==>
        || (s[i] == t[i] && !('A' <= t[i] <= 'Z'))
        || ('a' <= t[i] <= 'z' && s[i] as int == t[i] as int - 32)
        || (t[i] == 'k' && s[i] == '\U{212A}')
  {
    if |s| == |t| {
      forall i | 0 <= i < |s|
        ensures Lower(s)[i] == t[i] <==>
          || (s[i] == t[i] && !('A' <= t[i] <= 'Z'))
          || ('a' <= t[i] <= 'z' && s[i] as int == t[i] as int - 32)
          || (t[i] == 'k' && s[i] == '\U{212A}')
      {
        assert Lower(s)[i] == LowerChar(s[i]);
      }
    }
  }

  predicate IsDigit(c: char) { '0' <= c <= '9' }

  /** Digits of a natural number, most significant first. */
  function Digits(n: nat): (s: string)
    ensures s != "" && forall i :: 0 <= i < |s| ==> IsDigit(s[i])
  {
    if n < 10 then [((n + 48) as char)] else Digits(n / 10) + [((n % 10 + 48) as char)]
  }

  /** `str(n)` for an integer. */
  function Decimal(n: int): (s: string)
    ensures s != "" && forall i :: 0 <= i < |s| ==> IsDigit(s[i]) || s[i] == '-'
  {
    if n < 0 then "-" + Digits(-n) else Digits(n)
  }

  function ReadDigits(s: string): nat
    requires forall i :: 0 <= i < |s| ==> IsDigit(s[i])
  {
    if s == "" then 0
    else
      var last := s[|s| - 1];
      assert IsDigit(last);
      10 * ReadDigits(s[..|s| - 1]) + (last as int - 48)
  }

  lemma {:induction false} ReadDigitsOfDigits(n: nat)
    ensures ReadDigits(Digits(n)) == n
  {
    if n < 10 {
      assert Digits(n)[..0] == "";
    } else {
      ReadDigitsOfDigits(n / 10);
      assert Digits(n)[..|Digits(n)| - 1] == Digits(n / 10);
    }
  }
}
