/**
  The handful of Python string operations the core relies on: `str(n)` and
  `int(s)` for decimal numbers, `"".join`, `sep.join`, `str.split()`,
  `str.split(c)`, `str.strip()` and `str.lower()`.
*/
module Text {

  // ---------------------------------------------------------------- digits

  predicate IsDigit(c: char) {
    '0' <= c <= '9'
  }

  predicate AllDigits(s: string) {
    forall i :: 0 <= i < |s| ==> IsDigit(s[i])
  }

  function DigitValue(c: char): (d: nat)
    requires IsDigit(c)
    ensures d < 10
  {
    c as int - '0' as int
  }

  function DigitChar(d: nat): (c: char)
    requires d < 10
    ensures IsDigit(c) && DigitValue(c) == d
  {
    ('0' as int + d) as char
  }

  /** Python's `str(n)` for a natural number: its decimal digits, no leading zero. */
  function NatToString(n: nat): (s: string)
    ensures |s| >= 1 && AllDigits(s)
    ensures |s| > 1 ==> s[0] != '0'
  {
    if n < 10 then [DigitChar(n)] else NatToString(n / 10) + [DigitChar(n % 10)]
  }

  /** Python's `str(i)` (and an f-string field) for any integer. */
  function IntToString(i: int): string {
    if i < 0 then "-" + NatToString(-i) else NatToString(i)
  }

  /** Python's `int(s)` on a non-empty run of ASCII digits. */
  function DigitsValue(s: string): nat
    requires AllDigits(s)
  {
    if s == [] then 0 else 10 * DigitsValue(s[..|s| - 1]) + DigitValue(s[|s| - 1])
  }

  /** `int(str(n)) == n`: decimal formatting and parsing are inverse. */
  lemma {:induction false} DigitsValueOfNatToString(n: nat)
    ensures DigitsValue(NatToString(n)) == n
  {
    var s := NatToString(n);
    if n >= 10 {
      DigitsValueOfNatToString(n / 10);
      assert s[..|s| - 1] == NatToString(n / 10);
    }
  }

  /** Distinct numbers have distinct decimal forms. */
  lemma NatToStringInjective(a: nat, b: nat)
    requires NatToString(a) == NatToString(b)
    ensures a == b
  {
    DigitsValueOfNatToString(a);
    DigitsValueOfNatToString(b);
  }

  // ------------------------------------------------------------- joining

  /** `"".join(parts)`. */
  function Concat(parts: seq<string>): string {
    if parts == [] then "" else Concat(parts[..|parts| - 1]) + parts[|parts| - 1]
  }

  lemma {:induction false} ConcatAppend(a: seq<string>, b: seq<string>)
    ensures Concat(a + b) == Concat(a) + Concat(b)
    decreases |b|
  {
    if b == [] {
      assert a + b == a;
    } else {
      var b', ab := b[..|b| - 1], a + b;
      assert ab[..|ab| - 1] == a + b';
      assert ab[|ab| - 1] == b[|b| - 1];
      ConcatAppend(a, b');
    }
  }

  /** A single string concatenates to itself. */
  lemma ConcatOne(w: string)
    ensures Concat([w]) == w
  {
    assert [w][..0] == [];
  }

  lemma ConcatCons(w: string, rest: seq<string>)
    ensures Concat([w] + rest) == w + Concat(rest)
  {
    ConcatAppend([w], rest);
    assert [w][..0] == [];
  }

  /** `sep.join(parts)`. */
  function Join(parts: seq<string>, sep: string): string {
    if parts == [] then ""
    else if |parts| == 1 then parts[0]
    else Join(parts[..|parts| - 1], sep) + sep + parts[|parts| - 1]
  }

  // ----------------------------------------------------------- whitespace

  /** The characters Python's `str.isspace` accepts; `split()` and `strip()` use them. */
  predicate IsSpace(c: char) {
    || c == ' '
    || ('\t' <= c <= '\r')
    || ('\U{1c}' <= c <= '\U{1f}')
    || c == '\U{85}' || c == '\U{a0}' || c == '\U{1680}'
    || ('\U{2000}' <= c <= '\U{200a}')
    || c == '\U{2028}' || c == '\U{2029}' || c == '\U{202f}' || c == '\U{205f}' || c == '\U{3000}'
  }

  predicate NoSpace(s: string) {
    forall i :: 0 <= i < |s| ==> !IsSpace(s[i])
  }

  /** The characters of `s` that are not whitespace, in order. */
  function NonSpace(s: string): string {
    if s == [] then "" else (if IsSpace(s[0]) then "" else [s[0]]) + NonSpace(s[1..])
  }

  /** `s.split()`: the maximal runs of non-whitespace characters. */
  function Words(s: string): seq<string> {
    WordsFrom(s, "")
  }

  /** Splitting the rest `s` when the word `cur` has been read so far. */
  function WordsFrom(s: string, cur: string): seq<string>
    decreases |s|
  {
    if s == [] then (if cur == "" then [] else [cur])
    else if IsSpace(s[0]) then (if cur == "" then [] else [cur]) + WordsFrom(s[1..], "")
    else WordsFrom(s[1..], cur + [s[0]])
  }

  /** Each word is non-empty and free of whitespace. */
  predicate ProperWords(ws: seq<string>) {
    forall k :: 0 <= k < |ws| ==> ws[k] != "" && NoSpace(ws[k])
  }

  /** Every word is non-empty and free of whitespace, and together they spell out the non-whitespace text. */
  lemma {:induction false} WordsFromFacts(s: string, cur: string)
    requires NoSpace(cur)
    ensures ProperWords(WordsFrom(s, cur))
    ensures Concat(WordsFrom(s, cur)) == cur + NonSpace(s)
    decreases |s|
  {
    if s == [] {
      if cur != "" {
        assert Concat([cur]) == Concat([]) + cur;
      }
    } else if IsSpace(s[0]) {
      WordsFromFacts(s[1..], "");
      WordsAfterSpace(s, cur);
    } else {
      var cur' := cur + [s[0]];
      assert NoSpace(cur');
      WordsFromFacts(s[1..], cur');
      assert NonSpace(s) == [s[0]] + NonSpace(s[1..]);
    }
  }

  /** The step of `WordsFromFacts` at a whitespace character, which ends the current word. */
  lemma WordsAfterSpace(s: string, cur: string)
    requires s != [] && IsSpace(s[0]) && NoSpace(cur)
    requires ProperWords(WordsFrom(s[1..], ""))
    requires Concat(WordsFrom(s[1..], "")) == NonSpace(s[1..])
    ensures ProperWords(WordsFrom(s, cur))
    ensures Concat(WordsFrom(s, cur)) == cur + NonSpace(s)
  {
    var rest := WordsFrom(s[1..], "");
    assert NonSpace(s) == NonSpace(s[1..]);
    if cur != "" {
      var ws := [cur] + rest;
      assert WordsFrom(s, cur) == ws;
      ConcatCons(cur, rest);
      assert forall k :: 0 < k < |ws| ==> ws[k] == rest[k - 1];
    } else {
      assert WordsFrom(s, cur) == [] + rest == rest;
      assert cur + NonSpace(s) == NonSpace(s);
    }
  }

  lemma WordsFacts(s: string)
    ensures ProperWords(Words(s))
    ensures Concat(Words(s)) == NonSpace(s)
  {
    WordsFromFacts(s, "");
  }

  /** `s.split(c)`: the pieces between occurrences of `c`, always at least one. */
  function SplitOn(s: string, c: char): (pieces: seq<string>)
    ensures |pieces| >= 1
  {
    if s == [] then [""]
    else
      var rest := SplitOn(s[1..], c);
      if s[0] == c then [""] + rest else [[s[0]] + rest[0]] + rest[1..]
  }

  lemma {:induction false} JoinPrepend(p: string, rest: seq<string>, sep: string)
    requires |rest| >= 1
    ensures Join([p] + rest, sep) == p + sep + Join(rest, sep)
    decreases |rest|
  {
    var all := [p] + rest;
    if |rest| == 1 {
      assert all[..1] == [p];
    } else {
      assert all[..|all| - 1] == [p] + rest[..|rest| - 1];
      JoinPrepend(p, rest[..|rest| - 1], sep);
    }
  }

  lemma {:induction false} JoinHeadExtend(ch: char, rest: seq<string>, sep: string)
    requires |rest| >= 1
    ensures Join([[ch] + rest[0]] + rest[1..], sep) == [ch] + Join(rest, sep)
  {
    if |rest| == 1 {
    } else {
      JoinPrepend([ch] + rest[0], rest[1..], sep);
      JoinPrepend(rest[0], rest[1..], sep);
      assert [rest[0]] + rest[1..] == rest;
    }
  }

  /** Splitting on `c` and joining with `c` gives the string back, and no piece holds `c`. */
  lemma {:induction false} SplitOnJoin(s: string, c: char)
    ensures Join(SplitOn(s, c), [c]) == s
    ensures forall k, i :: 0 <= k < |SplitOn(s, c)| && 0 <= i < |SplitOn(s, c)[k]| ==> SplitOn(s, c)[k][i] != c
    decreases |s|
  {
    if s != [] {
      var rest := SplitOn(s[1..], c);
      SplitOnJoin(s[1..], c);
      if s[0] == c {
        JoinPrepend("", rest, [c]);
      } else {
        JoinHeadExtend(s[0], rest, [c]);
        assert s == [s[0]] + s[1..];
      }
    }
  }

  predicate Free(s: string, c: char) {
    forall i :: 0 <= i < |s| ==> s[i] != c
  }

  lemma {:induction false} SplitOnFree(a: string, c: char)
    requires Free(a, c)
    ensures SplitOn(a, c) == [a]
    decreases |a|
  {
    if a != [] {
      SplitOnFree(a[1..], c);
      assert [a[0]] + a[1..] == a;
    }
  }

  lemma {:induction false} SplitOnCons(a: string, b: string, c: char)
    requires Free(a, c)
    ensures SplitOn(a + [c] + b, c) == [a] + SplitOn(b, c)
    decreases |a|
  {
    var s := a + [c] + b;
    if a == [] {
      assert s[1..] == b;
    } else {
      assert s[1..] == a[1..] + [c] + b;
      SplitOnCons(a[1..], b, c);
      assert [a[0]] + a[1..] == a;
    }
  }

  /** Joining pieces free of `c` with `c` and splitting again gives the pieces back. */
  lemma {:induction false} SplitOnJoinInverse(pieces: seq<string>, c: char)
    requires |pieces| >= 1
    requires forall k :: 0 <= k < |pieces| ==> Free(pieces[k], c)
    ensures SplitOn(Join(pieces, [c]), c) == pieces
    decreases |pieces|
  {
    if |pieces| == 1 {
      SplitOnFree(pieces[0], c);
    } else {
      var rest := pieces[1..];
      assert pieces == [pieces[0]] + rest;
      JoinPrepend(pieces[0], rest, [c]);
      SplitOnJoinInverse(rest, c);
      SplitOnCons(pieces[0], Join(rest, [c]), c);
      assert pieces[0] + [c] + Join(rest, [c]) == pieces[0] + [c] + Join(rest, [c]);
    }
  }

  /** `s.strip()`: `s` without leading and trailing whitespace. */
  function Strip(s: string): string {
    StripRight(StripLeft(s))
  }

  function StripLeft(s: string): (r: string)
    ensures |r| <= |s|
  {
    if s != [] && IsSpace(s[0]) then StripLeft(s[1..]) else s
  }

  function StripRight(s: string): (r: string)
    ensures |r| <= |s|
  {
    if s != [] && IsSpace(s[|s| - 1]) then StripRight(s[..|s| - 1]) else s
  }

  lemma {:induction false} StripLeftFacts(s: string)
    ensures var r := StripLeft(s);
      && |r| <= |s| && r == s[|s| - |r|..]
      && (forall i :: 0 <= i < |s| - |r| ==> IsSpace(s[i]))
      && (r == "" || !IsSpace(r[0]))
  {
    if s != [] && IsSpace(s[0]) {
      StripLeftFacts(s[1..]);
      var r := StripLeft(s);
      assert forall i :: 1 <= i < |s| - |r| ==> s[i] == s[1..][i - 1];
    }
  }

  lemma {:induction false} StripRightFacts(s: string)
    ensures var r := StripRight(s);
      && |r| <= |s| && r == s[..|r|]
      && (forall i :: |r| <= i < |s| ==> IsSpace(s[i]))
      && (r == "" || !IsSpace(r[|r| - 1]))
  {
    if s != [] && IsSpace(s[|s| - 1]) {
      StripRightFacts(s[..|s| - 1]);
      var r := StripRight(s);
      assert forall i :: |r| <= i < |s| - 1 ==> s[i] == s[..|s| - 1][i];
    }
  }

  /**
    The strip `r` of `s` is a middle slice of `s`, starting at `i`, with
    only whitespace cut on either side.
  */
  lemma StripFacts(s: string, r: string, i: nat)
    requires r == Strip(s) && i == |s| - |StripLeft(s)|
    ensures r == "" || (!IsSpace(r[0]) && !IsSpace(r[|r| - 1]))
    ensures i + |r| <= |s| && r == s[i..i + |r|]
    ensures forall j :: 0 <= j < i ==> IsSpace(s[j])
    ensures forall j :: i + |r| <= j < |s| ==> IsSpace(s[j])
  {
    var l := StripLeft(s);
    StripLeftFacts(s);
    StripRightFacts(l);
    assert l == s[i..];
    assert r == l[..|r|];
    if r != "" {
      assert r[0] == l[0];
    }
    forall j | i + |r| <= j < |s|
      ensures IsSpace(s[j])
    {
      assert s[j] == l[j - i];
    }
  }

  /** A string with no whitespace at either end is its own strip. */
  lemma StripUnchanged(s: string)
    requires s == "" || (!IsSpace(s[0]) && !IsSpace(s[|s| - 1]))
    ensures Strip(s) == s
  {
  }

  // ------------------------------------------------------------ case

  function LowerChar(c: char): char {
    if 'A' <= c <= 'Z' then (c as int + 32) as char else c
  }

  /** `s.lower()` on ASCII letters. */
  function Lower(s: string): (r: string)
    ensures |r| == |s|
    ensures forall i :: 0 <= i < |s| ==> r[i] == LowerChar(s[i])
  {
    if s == [] then "" else [LowerChar(s[0])] + Lower(s[1..])
  }

  /** A string without upper-case ASCII letters is its own lower-case form. */
  lemma LowerUnchanged(s: string)
    requires forall i :: 0 <= i < |s| ==> !('A' <= s[i] <= 'Z')
    ensures Lower(s) == s
  {
  }

  /** Lower-casing twice is lower-casing once. */
  lemma LowerIdempotent(s: string)
    ensures Lower(Lower(s)) == Lower(s)
  {
    var once := Lower(s);
    var twice := Lower(once);
    assert forall i :: 0 <= i < |s| ==> twice[i] == once[i];
  }

  /** `s[:n]`: at most the first `n` characters. */
  function Prefix(s: string, n: nat): (r: string)
    ensures |r| == if |s| <= n then |s| else n
    ensures r == s[..|r|]
  {
    if |s| <= n then s else s[..n]
  }
}
