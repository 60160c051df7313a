/**
  The answer route: citation extraction from a generated answer and the
  branches of `answer` that decide the response before and after the
  language model is consulted.

  `re.findall` with the pattern `([a-zA-Z0-9/_.-]+):(\d+)-(\d+)` is
  modelled by a scanner: at each position, from the left, it tries the
  pattern with greedy repetitions and, after a hit, resumes where the hit
  ended. The pattern has no anchors and no look-around, so trying it at
  position `i` of `s` is trying it at the start of `s[i..]`.

  Retrieval, the language model client and the HTTP layer are parameters:
  `retrieved` is what `retrieve` returned or raised, and `generate` is the
  configured client's answer for a prompt and a token budget.
*/
module QueryRoutes {
  import opened Wrappers
  import opened Text
  import opened Schemas
  import Config
  import Prompts

  // ------------------------------------------------------------ scanning

  /** `[a-zA-Z0-9/_.-]`, the characters a cited path is made of. */
  predicate IsPathChar(c: char) {
    || 'a' <= c <= 'z'
    || 'A' <= c <= 'Z'
    || '0' <= c <= '9'
    || c == '/' || c == '_' || c == '.' || c == '-'
  }

  predicate IsPath(s: string) {
    |s| > 0 && forall k :: 0 <= k < |s| ==> IsPathChar(s[k])
  }

  /** The two character classes the pattern repeats: `[a-zA-Z0-9/_.-]` and `\d`. */
  datatype CharClass = PathChars | Digits

  predicate InClass(cls: CharClass, c: char) {
    match cls
    case PathChars => IsPathChar(c)
    case Digits => IsDigit(c)
  }

  /** The end of the longest run of `cls`-characters from position `i`: where a greedy `+` stops. */
  function Span(t: string, i: nat, cls: CharClass): (j: nat)
    requires i <= |t|
    ensures i <= j <= |t|
    ensures forall k :: i <= k < j ==> InClass(cls, t[k])
    ensures j < |t| ==> !InClass(cls, t[j])
    decreases |t| - i
  {
    if i < |t| && InClass(cls, t[i]) then Span(t, i + 1, cls) else i
  }

  /** A run of `cls`-characters that the first other character (or the end) closes is the greedy run. */
  lemma SpanUnique(t: string, i: nat, cls: CharClass, j: nat)
    requires i <= j <= |t|
    requires forall k :: i <= k < j ==> InClass(cls, t[k])
    requires j < |t| ==> !InClass(cls, t[j])
    ensures Span(t, i, cls) == j
  {
  }

  /** The three groups of one hit: the path and the two runs of digits. */
  datatype Hit = Hit(path: string, startDigits: string, endDigits: string)

  predicate ValidHit(h: Hit) {
    IsPath(h.path) && |h.startDigits| > 0 && AllDigits(h.startDigits) && |h.endDigits| > 0 && AllDigits(h.endDigits)
  }

  /** The pattern tried at the start of `t`: the hit and where it ends, or nothing. */
  function MatchAt(t: string): (r: Option<(Hit, nat)>)
    ensures r.Some? ==> 0 < r.value.1 <= |t| && ValidHit(r.value.0)
  {
    AfterPath(t, Span(t, 0, PathChars))
  }

  /** The path run ends at `a`: a colon must follow, then the first run of digits. */
  function AfterPath(t: string, a: nat): (r: Option<(Hit, nat)>)
    requires a <= |t| && forall k :: 0 <= k < a ==> IsPathChar(t[k])
    ensures r.Some? ==> 0 < r.value.1 <= |t| && ValidHit(r.value.0)
  {
    if a == 0 || a == |t| || t[a] != ':' then None
    else AfterColon(t, a, Span(t, a + 1, Digits))
  }

  /** The first run of digits ends at `b`: a dash must follow, then the second run. */
  function AfterColon(t: string, a: nat, b: nat): (r: Option<(Hit, nat)>)
    requires 0 < a < b <= |t| && forall k :: 0 <= k < a ==> IsPathChar(t[k])
    requires forall k :: a < k < b ==> IsDigit(t[k])
    ensures r.Some? ==> 0 < r.value.1 <= |t| && ValidHit(r.value.0)
  {
    if b == a + 1 || b == |t| || t[b] != '-' then None
    else AfterDash(t, a, b, Span(t, b + 1, Digits))
  }

  /** The second run of digits ends at `j`: the hit, if that run is not empty. */
  function AfterDash(t: string, a: nat, b: nat, j: nat): (r: Option<(Hit, nat)>)
    requires 0 < a && a + 1 < b && b < j <= |t| && forall k :: 0 <= k < a ==> IsPathChar(t[k])
    requires (forall k :: a < k < b ==> IsDigit(t[k])) && forall k :: b < k < j ==> IsDigit(t[k])
    ensures r.Some? ==> 0 < r.value.1 <= |t| && ValidHit(r.value.0)
  {
    if j == b + 1 then None
    else
      var h := Hit(t[..a], t[a + 1..b], t[b + 1..j]);
      assert forall k :: 0 <= k < |h.startDigits| ==> h.startDigits[k] == t[a + 1 + k];
      assert forall k :: 0 <= k < |h.endDigits| ==> h.endDigits[k] == t[b + 1 + k];
      Some((h, j))
  }

  /** `re.findall(citation_pattern, s)`: the hits from left to right, none overlapping. */
  function FindAll(s: string): (hits: seq<Hit>)
    ensures forall k :: 0 <= k < |hits| ==> ValidHit(hits[k])
    decreases |s|
  {
    if s == [] then []
    else match MatchAt(s)
      case Some((h, n)) => [h] + FindAll(s[n..])
      case None => FindAll(s[1..])
  }

  // -------------------------------------------------- the pattern, declaratively

  /**
    `t[..j]` is in the language of the pattern, with the colon at `a` and
    the dash at `b`: a non-empty path, a colon, digits, a dash, digits.
  */
  predicate Occurrence(t: string, a: nat, b: nat, j: nat) {
    && 0 < a && a + 1 < b && b + 1 < j && j <= |t|
    && (forall k :: 0 <= k < a ==> IsPathChar(t[k]))
    && t[a] == ':'
    && (forall k :: a < k < b ==> IsDigit(t[k]))
    && t[b] == '-'
    && (forall k :: b < k < j ==> IsDigit(t[k]))
  }

  /**
    The scanner finds a hit at the start of `t` exactly when the pattern
    matches some prefix of `t`; the hit's groups are that occurrence's
    parts, and it is the longest one.
  */
  lemma MatchAtOccurrence(t: string)
    ensures MatchAt(t).Some? <==> exists a: nat, b: nat, j: nat :: Occurrence(t, a, b, j)
    ensures MatchAt(t).Some? ==>
      var (h, n) := MatchAt(t).value;
      exists a: nat, b: nat :: Occurrence(t, a, b, n) && h == Hit(t[..a], t[a + 1..b], t[b + 1..n])
    ensures MatchAt(t).Some? ==>
      forall a: nat, b: nat, j: nat :: Occurrence(t, a, b, j) ==> j <= MatchAt(t).value.1
  {
    forall a: nat, b: nat, j: nat | Occurrence(t, a, b, j)
      ensures MatchAt(t).Some? && j <= MatchAt(t).value.1
    {
      SpanUnique(t, 0, PathChars, a);
      SpanUnique(t, a + 1, Digits, b);
      assert forall k :: b + 1 <= k < j ==> IsDigit(t[k]);
    }
    if MatchAt(t).Some? {
      var a := Span(t, 0, PathChars);
      var b := Span(t, a + 1, Digits);
      assert Occurrence(t, a, b, MatchAt(t).value.1);
    }
  }

  /** The answer holds some occurrence of the pattern exactly when `findall` finds a hit. */
  lemma {:induction false} FindAllNonEmpty(s: string)
    ensures FindAll(s) != [] <==> exists i: nat, a: nat, b: nat, j: nat :: i < |s| && Occurrence(s[i..], a, b, j)
    decreases |s|
  {
    if s != [] {
      MatchAtOccurrence(s);
      assert s[0..] == s;
      if MatchAt(s).None? {
        FindAllNonEmpty(s[1..]);
        forall i: nat | 0 < i < |s|
          ensures s[1..][i - 1..] == s[i..]
        {
        }
      }
    }
  }

  // ------------------------------------------------- splitting the text

  /** A character that ends every run the pattern reads and is not its colon. */
  predicate Break(c: char) {
    !IsPathChar(c) && c != ':'
  }

  /** A run ends the same in `p` and in `p + q` when it stops inside `p` or `q` cannot continue it. */
  lemma SpanPrefix(p: string, q: string, i: nat, cls: CharClass)
    requires i <= |p|
    requires Span(p, i, cls) < |p| || q == [] || !InClass(cls, q[0])
    ensures Span(p + q, i, cls) == Span(p, i, cls)
  {
    var j := Span(p, i, cls);
    assert forall k :: i <= k < j ==> (p + q)[k] == p[k];
    SpanUnique(p + q, i, cls, j);
  }

  /** A hit at the start of `p` is the same in `p + q` when a break separates them. */
  lemma MatchAtPrefix(p: string, q: string)
    requires p != []
    requires Break(p[|p| - 1]) || q == [] || Break(q[0])
    ensures MatchAt(p + q) == MatchAt(p)
  {
    var last := p[|p| - 1];
    var a := Span(p, 0, PathChars);
    assert a == |p| ==> IsPathChar(last);
    SpanPrefix(p, q, 0, PathChars);
    AfterPathPrefix(p, q, a);
  }

  lemma AfterPathPrefix(p: string, q: string, a: nat)
    requires p != [] && a == Span(p, 0, PathChars)
    requires a < |p| || q == [] || Break(q[0])
    requires Break(p[|p| - 1]) || q == [] || Break(q[0])
    ensures AfterPath(p + q, a) == AfterPath(p, a)
  {
    var t := p + q;
    var last := p[|p| - 1];
    if a == |p| {
      assert a == |t| || t[a] == q[0];
    } else if a != 0 && p[a] == ':' {
      assert t[a] == p[a];
      var b := Span(p, a + 1, Digits);
      assert b == |p| ==> last == ':' || IsDigit(last) by {
        if b == |p| && b > a + 1 {
          assert IsDigit(p[b - 1]);
        }
      }
      SpanPrefix(p, q, a + 1, Digits);
      AfterColonPrefix(p, q, a, b);
    } else {
      assert t[a] == p[a];
    }
  }

  lemma AfterColonPrefix(p: string, q: string, a: nat, b: nat)
    requires p != [] && 0 < a < |p| && p[a] == ':' && b == Span(p, a + 1, Digits)
    requires forall k :: 0 <= k < a ==> IsPathChar(p[k])
    requires b < |p| || q == [] || Break(q[0])
    requires Break(p[|p| - 1]) || q == [] || Break(q[0])
    ensures AfterColon(p + q, a, b) == AfterColon(p, a, b)
  {
    var t := p + q;
    if b == |p| {
      assert b == |t| || t[b] == q[0];
    } else if b != a + 1 && p[b] == '-' {
      DashPrefix(p, q, a, b);
    } else {
      assert t[b] == p[b];
    }
  }

  /** The first run of digits is closed by a dash inside `p`. */
  lemma DashPrefix(p: string, q: string, a: nat, b: nat)
    requires 0 < a && a + 1 < b < |p| && p[a] == ':' && p[b] == '-' && b == Span(p, a + 1, Digits)
    requires forall k :: 0 <= k < a ==> IsPathChar(p[k])
    requires Break(p[|p| - 1]) || q == [] || Break(q[0])
    ensures AfterColon(p + q, a, b) == AfterColon(p, a, b)
  {
    var t := p + q;
    assert t[b] == p[b];
    var last := p[|p| - 1];
    var j := Span(p, b + 1, Digits);
    assert j == |p| ==> last == '-' || IsDigit(last) by {
      if j == |p| && j > b + 1 {
        assert IsDigit(p[j - 1]);
      }
    }
    SpanPrefix(p, q, b + 1, Digits);
    AfterDashPrefix(p, q, a, b, j);
  }

  lemma AfterDashPrefix(p: string, q: string, a: nat, b: nat, j: nat)
    requires 0 < a && a + 1 < b && b < j <= |p| && forall k :: 0 <= k < a ==> IsPathChar(p[k])
    requires (forall k :: a < k < b ==> IsDigit(p[k])) && forall k :: b < k < j ==> IsDigit(p[k])
    ensures AfterDash(p + q, a, b, j) == AfterDash(p, a, b, j)
  {
    SliceOfAppend(p, q, 0, a);
    SliceOfAppend(p, q, a + 1, b);
    SliceOfAppend(p, q, b + 1, j);
  }

  lemma SliceOfAppend(p: string, q: string, i: nat, j: nat)
    requires i <= j <= |p|
    ensures (p + q)[i..j] == p[i..j]
  {
  }

  /** One step of `findall`: after a hit it resumes at the hit's end, otherwise one position on. */
  lemma FindAllStep(s: string)
    requires s != []
    ensures MatchAt(s).Some? ==> FindAll(s) == [MatchAt(s).value.0] + FindAll(s[MatchAt(s).value.1..])
    ensures MatchAt(s).None? ==> FindAll(s) == FindAll(s[1..])
  {
  }

  /** Dropping a prefix of `p` from `p + q`. */
  lemma DropAppend(p: string, q: string, n: nat)
    requires n <= |p|
    ensures (p + q)[n..] == p[n..] + q
  {
  }

  lemma AppendEmpty<T>(a: seq<T>)
    ensures [] + a == a
  {
  }

  lemma AppendNil<T>(a: seq<T>)
    ensures a + [] == a
  {
  }

  lemma AppendAssoc<T>(a: seq<T>, b: seq<T>, c: seq<T>)
    ensures a + (b + c) == (a + b) + c
  {
  }

  /** A break between two texts keeps their hits apart: the hits of the whole are those of each part. */
  lemma {:induction false} FindAllAppend(p: string, q: string)
    requires p == [] || q == [] || Break(p[|p| - 1]) || Break(q[0])
    ensures FindAll(p + q) == FindAll(p) + FindAll(q)
    decreases |p|, 1
  {
    if p == [] {
      assert p + q == q;
      AppendEmpty(FindAll(q));
    } else {
      MatchAtPrefix(p, q);
      FindAllStep(p);
      FindAllStep(p + q);
      if MatchAt(p).Some? {
        ResumeAppend(p, q, MatchAt(p).value.1);
        AppendAssoc([MatchAt(p).value.0], FindAll(p[MatchAt(p).value.1..]), FindAll(q));
      } else {
        ResumeAppend(p, q, 1);
      }
    }
  }

  /** Resuming the scan at position `n` of `p` keeps the two parts apart. */
  lemma {:induction false} ResumeAppend(p: string, q: string, n: nat)
    requires 0 < n <= |p|
    requires Break(p[|p| - 1]) || q == [] || Break(q[0])
    ensures FindAll((p + q)[n..]) == FindAll(p[n..]) + FindAll(q)
    decreases |p|, 0
  {
    DropAppend(p, q, n);
    var rest := p[n..];
    assert rest != [] ==> rest[|rest| - 1] == p[|p| - 1];
    FindAllAppend(rest, q);
  }

  // ------------------------------------------------------------ citations

  /** A citation as `(path, start_line, end_line)` before validation. */
  type Ref = (string, int, int)

  /** `int(start)` and `int(end)` of each hit. */
  function HitRefs(hits: seq<Hit>): (refs: seq<Ref>)
    requires forall k :: 0 <= k < |hits| ==> ValidHit(hits[k])
    ensures |refs| == |hits|
    ensures forall k :: 0 <= k < |hits| ==>
      ValidHit(hits[k]) && refs[k] == (hits[k].path, DigitsValue(hits[k].startDigits) as int, DigitsValue(hits[k].endDigits) as int)
  {
    seq(|hits|, k requires 0 <= k < |hits| && ValidHit(hits[k]) =>
      (hits[k].path, DigitsValue(hits[k].startDigits) as int, DigitsValue(hits[k].endDigits) as int))
  }

  /** The path and lines of each match. */
  function MatchRefs(ms: seq<Match>): (refs: seq<Ref>)
    ensures |refs| == |ms|
    ensures forall k :: 0 <= k < |ms| ==> refs[k] == (ms[k].path, ms[k].startLine, ms[k].endLine)
  {
    seq(|ms|, k requires 0 <= k < |ms| => (ms[k].path, ms[k].startLine, ms[k].endLine))
  }

  /** Building the citations one by one; the first invalid one raises. */
  function CiteAll(refs: seq<Ref>): Result<seq<Citation>, string> {
    if refs == [] then Success([])
    else match CiteAll(refs[..|refs| - 1])
      case Failure(e) => Failure(e)
      case Success(cs) =>
        var (path, s, e) := refs[|refs| - 1];
        match NewCitation(path, s, e)
        case None => Failure(ValidationError)
        case Some(c) => Success(cs + [c])
  }

  /** Building succeeds exactly when every line number is at least 1, and then keeps every reference in order. */
  lemma {:induction false} CiteAllFacts(refs: seq<Ref>)
    ensures CiteAll(refs).Success? <==> forall k :: 0 <= k < |refs| ==> refs[k].1 >= 1 && refs[k].2 >= 1
    ensures CiteAll(refs).Failure? ==> CiteAll(refs).error == ValidationError
    ensures CiteAll(refs).Success? ==>
      |CiteAll(refs).value| == |refs|
      && forall k :: 0 <= k < |refs| ==> CiteAll(refs).value[k] == Citation(refs[k].0, refs[k].1, refs[k].2)
    decreases |refs|
  {
    if refs != [] {
      var init := refs[..|refs| - 1];
      CiteAllFacts(init);
      var r0, r := CiteAll(init), CiteAll(refs);
      if r0.Success? && r.Success? {
        assert forall k :: 0 <= k < |init| ==> r.value[k] == r0.value[k];
      }
    }
  }

  /** Once building raises it stays raised. */
  lemma {:induction false} CiteAllFails(refs: seq<Ref>, n: nat)
    requires n <= |refs| && CiteAll(refs[..n]) == Failure(ValidationError)
    ensures CiteAll(refs) == Failure(ValidationError)
    decreases |refs| - n
  {
    if n < |refs| {
      assert refs[..n + 1][..n] == refs[..n];
      CiteAllFails(refs, n + 1);
    } else {
      assert refs[..n] == refs;
    }
  }

  /** `_extract_citations(answer, matches)`: the hits if there are any, else every match. */
  function Extract(answer: string, ms: seq<Match>): Result<seq<Citation>, string> {
    var hits := FindAll(answer);
    if hits != [] then CiteAll(HitRefs(hits)) else CiteAll(MatchRefs(ms))
  }

  /** `_extract_citations`: `findall`, then one of its two loops. */
  method ExtractCitations(answer: string, matches: seq<Match>) returns (r: Result<seq<Citation>, string>)
    ensures r == Extract(answer, matches)
  {
    var foundCitations := FindAll(answer);
    if foundCitations != [] {
      r := CiteHits(foundCitations);
    } else {
      r := CiteMatches(matches);
    }
  }

  /** The loop over the hits: a citation per hit, numbers read with `int`. */
  method CiteHits(found: seq<Hit>) returns (r: Result<seq<Citation>, string>)
    requires forall k :: 0 <= k < |found| ==> ValidHit(found[k])
    ensures r == CiteAll(HitRefs(found))
  {
    ghost var refs := HitRefs(found);
    var citations: seq<Citation> := [];
    var k := 0;
    while k < |found|
      invariant 0 <= k <= |found|
      invariant CiteAll(refs[..k]) == Success(citations)
    {
      var hit := found[k];
      assert refs[..k + 1][..k] == refs[..k];
      var c := NewCitation(hit.path, DigitsValue(hit.startDigits), DigitsValue(hit.endDigits));
      if c.None? {
        CiteAllFails(refs, k + 1);
        return Failure(ValidationError);
      }
      citations := citations + [c.value];
      k := k + 1;
    }
    assert refs[..k] == refs;
    r := Success(citations);
  }

  /** The fallback loop: a citation per match. */
  method CiteMatches(matches: seq<Match>) returns (r: Result<seq<Citation>, string>)
    ensures r == CiteAll(MatchRefs(matches))
  {
    ghost var refs := MatchRefs(matches);
    var citations: seq<Citation> := [];
    var k := 0;
    while k < |matches|
      invariant 0 <= k <= |matches|
      invariant CiteAll(refs[..k]) == Success(citations)
    {
      var m := matches[k];
      assert refs[..k + 1][..k] == refs[..k];
      var c := NewCitation(m.path, m.startLine, m.endLine);
      if c.None? {
        CiteAllFails(refs, k + 1);
        return Failure(ValidationError);
      }
      citations := citations + [c.value];
      k := k + 1;
    }
    assert refs[..k] == refs;
    r := Success(citations);
  }

  /**
    When the answer holds hits, the citations are exactly those hits, in
    order, with their digits read as decimal numbers, unless one of them
    is 0, which raises.
  */
  lemma ExtractFound(answer: string, ms: seq<Match>)
    requires FindAll(answer) != []
    ensures var hits := FindAll(answer);
      var r := Extract(answer, ms);
      && (r.Success? <==> forall k :: 0 <= k < |hits| ==> DigitsValue(hits[k].startDigits) >= 1 && DigitsValue(hits[k].endDigits) >= 1)
      && (r.Failure? ==> r.error == ValidationError)
      && (r.Success? ==> |r.value| == |hits| && forall k :: 0 <= k < |hits| ==>
            && r.value[k] == Citation(hits[k].path, DigitsValue(hits[k].startDigits), DigitsValue(hits[k].endDigits))
            && IsPath(r.value[k].path))
  {
    CiteAllFacts(HitRefs(FindAll(answer)));
  }

  /** Without hits there is one citation per match, in match order, with that match's path and lines. */
  lemma ExtractFallback(answer: string, ms: seq<Match>)
    requires FindAll(answer) == []
    requires forall k :: 0 <= k < |ms| ==> ValidMatch(ms[k])
    ensures var r := Extract(answer, ms);
      && r.Success? && |r.value| == |ms|
      && forall k :: 0 <= k < |ms| ==> r.value[k] == Citation(ms[k].path, ms[k].startLine, ms[k].endLine)
  {
    CiteAllFacts(MatchRefs(ms));
  }

  // ------------------------------------------------------------ round trips

  /** `path:start-end` as the prompt asks citations to be written. */
  function CitationText(c: Citation): string {
    c.path + ":" + IntToString(c.startLine) + "-" + IntToString(c.endLine)
  }

  /** One line of a "Sources:" list: `- path:start-end`. */
  function SourceLine(c: Citation): string {
    "- " + CitationText(c) + "\n"
  }

  /** The lines of a "Sources:" list, one per citation. */
  function Listing(cs: seq<Citation>): string {
    if cs == [] then "" else Listing(cs[..|cs| - 1]) + SourceLine(cs[|cs| - 1])
  }

  /** The citation a hit would be written from. */
  predicate Writable(c: Citation) {
    IsPath(c.path) && c.startLine >= 0 && c.endLine >= 0
  }

  function HitOf(c: Citation): Hit
    requires Writable(c)
  {
    Hit(c.path, NatToString(c.startLine), NatToString(c.endLine))
  }

  /** A text that is one occurrence from end to end is one hit made of its three parts. */
  lemma FindAllWhole(t: string, a: nat, b: nat)
    requires Occurrence(t, a, b, |t|)
    ensures FindAll(t) == [Hit(t[..a], t[a + 1..b], t[b + 1..])]
  {
    SpanUnique(t, 0, PathChars, a);
    AfterPathWhole(t, a, b);
    assert t[|t|..] == [];
  }

  lemma AfterPathWhole(t: string, a: nat, b: nat)
    requires Occurrence(t, a, b, |t|)
    ensures AfterPath(t, a) == Some((Hit(t[..a], t[a + 1..b], t[b + 1..]), |t|))
  {
    SpanUnique(t, a + 1, Digits, b);
    AfterColonWhole(t, a, b);
  }

  lemma AfterColonWhole(t: string, a: nat, b: nat)
    requires Occurrence(t, a, b, |t|)
    ensures AfterColon(t, a, b) == Some((Hit(t[..a], t[a + 1..b], t[b + 1..]), |t|))
  {
    SpanUnique(t, b + 1, Digits, |t|);
    assert t[b + 1..|t|] == t[b + 1..];
  }

  /** `path:start-end`, written out, is one occurrence from end to end. */
  lemma WrittenOccurrence(t: string, path: string, s: string, e: string, a: nat, b: nat)
    requires IsPath(path) && |s| > 0 && AllDigits(s) && |e| > 0 && AllDigits(e)
    requires t == path + ":" + s + "-" + e && a == |path| && b == |path| + 1 + |s|
    ensures Occurrence(t, a, b, |t|)
    ensures t[..a] == path && t[a + 1..b] == s && t[b + 1..] == e
  {
    assert forall k :: 0 <= k < a ==> t[k] == path[k];
    assert forall k :: a < k < b ==> t[k] == s[k - a - 1];
    assert forall k :: b < k < |t| ==> t[k] == e[k - b - 1];
    assert t[..a] == path;
    assert t[a + 1..b] == s;
    assert t[b + 1..] == e;
  }

  /** `path:start-end`, written out, is one hit whose groups are its three parts. */
  lemma WrittenHit(path: string, s: string, e: string)
    requires IsPath(path) && |s| > 0 && AllDigits(s) && |e| > 0 && AllDigits(e)
    ensures FindAll(path + ":" + s + "-" + e) == [Hit(path, s, e)]
  {
    var t := path + ":" + s + "-" + e;
    var a, b := |path|, |path| + 1 + |s|;
    WrittenOccurrence(t, path, s, e, a, b);
    FindAllWhole(t, a, b);
  }

  /** A written citation is one hit, whose groups are the path and the two numbers' digits. */
  lemma CitationTextHit(c: Citation)
    requires Writable(c)
    ensures FindAll(CitationText(c)) == [HitOf(c)]
  {
    var s, e := NatToString(c.startLine), NatToString(c.endLine);
    WrittenHit(c.path, s, e);
    assert CitationText(c) == c.path + ":" + s + "-" + e;
  }

  /** The trailing newline of a source line holds no hit. */
  lemma TextLineHit(c: Citation)
    requires Writable(c)
    ensures FindAll(CitationText(c) + "\n") == [HitOf(c)]
  {
    var nl: string := "\n";
    assert Break(nl[0]);
    FindAllAppend(CitationText(c), nl);
    NewlineNoHit();
    CitationTextHit(c);
    AppendNil([HitOf(c)]);
  }

  /** The leading "- " and the trailing newline of a source line hold no hit. */
  lemma SourceLineHit(c: Citation)
    requires Writable(c)
    ensures FindAll(SourceLine(c)) == [HitOf(c)]
  {
    var body := CitationText(c) + "\n";
    AppendAssoc("- ", CitationText(c), "\n");
    TextLineHit(c);
    var dash: string := "- ";
    assert Break(dash[1]);
    FindAllAppend(dash, body);
    DashNoHit();
    AppendEmpty(FindAll(body));
  }

  /** The "- " that opens a source line holds no hit. */
  lemma DashNoHit()
    ensures FindAll("- ") == []
  {
    var dash: string := "- ";
    SpanUnique(dash, 0, PathChars, 1);
    assert FindAll(dash) == FindAll(dash[1..]);
    assert dash[1..] == " ";
    SpanUnique(" ", 0, PathChars, 0);
    assert FindAll(" ") == FindAll(" "[1..]);
  }

  /** The hits a list of written citations should give, in order. */
  function HitsOf(cs: seq<Citation>): (hits: seq<Hit>)
    requires forall k :: 0 <= k < |cs| ==> Writable(cs[k])
    ensures |hits| == |cs|
    ensures forall k :: 0 <= k < |hits| ==> ValidHit(hits[k])
  {
    if cs == [] then []
    else
      var c := cs[|cs| - 1];
      assert ValidHit(HitOf(c));
      HitsOf(cs[..|cs| - 1]) + [HitOf(c)]
  }

  lemma {:induction false} HitsOfAt(cs: seq<Citation>, k: nat)
    requires forall i :: 0 <= i < |cs| ==> Writable(cs[i])
    requires k < |cs|
    ensures HitsOf(cs)[k] == HitOf(cs[k])
    decreases |cs|
  {
    if k < |cs| - 1 {
      var init := cs[..|cs| - 1];
      HitsOfAt(init, k);
    }
  }

  /** A listing ends with the newline of its last line. */
  lemma ListingEnds(cs: seq<Citation>)
    requires cs != []
    ensures |Listing(cs)| > 0 && Listing(cs)[|Listing(cs)| - 1] == '\n'
  {
    var line := SourceLine(cs[|cs| - 1]);
    assert line[|line| - 1] == '\n';
  }

  /** A "Sources:" list yields one hit per listed citation, in order. */
  lemma {:induction false} ListingHits(cs: seq<Citation>)
    requires forall k :: 0 <= k < |cs| ==> Writable(cs[k])
    ensures FindAll(Listing(cs)) == HitsOf(cs)
    decreases |cs|
  {
    if cs != [] {
      var init, last := cs[..|cs| - 1], cs[|cs| - 1];
      ListingHits(init);
      var p := Listing(init);
      if init != [] {
        ListingEnds(init);
        assert Break(p[|p| - 1]);
      } else {
        assert p == [];
      }
      FindAllAppend(p, SourceLine(last));
      SourceLineHit(last);
    }
  }

  /** Reading back the hits of written citations gives their numbers. */
  lemma HitsOfRefs(cs: seq<Citation>)
    requires forall k :: 0 <= k < |cs| ==> Writable(cs[k])
    ensures forall k :: 0 <= k < |cs| ==> HitRefs(HitsOf(cs))[k] == (cs[k].path, cs[k].startLine, cs[k].endLine)
  {
    var hits := HitsOf(cs);
    var refs := HitRefs(hits);
    forall k | 0 <= k < |cs|
      ensures refs[k] == (cs[k].path, cs[k].startLine, cs[k].endLine)
    {
      HitsOfAt(cs, k);
      assert hits[k] == Hit(cs[k].path, NatToString(cs[k].startLine), NatToString(cs[k].endLine));
      DigitsValueOfNatToString(cs[k].startLine);
      DigitsValueOfNatToString(cs[k].endLine);
    }
  }

  /** References that are exactly some valid citations build exactly those citations. */
  lemma CiteAllExact(refs: seq<Ref>, cs: seq<Citation>)
    requires |refs| == |cs|
    requires forall k :: 0 <= k < |cs| ==> ValidCitation(cs[k]) && refs[k] == (cs[k].path, cs[k].startLine, cs[k].endLine)
    ensures CiteAll(refs) == Success(cs)
  {
    CiteAllFacts(refs);
    assert CiteAll(refs).value == cs;
  }

  /**
    An answer that ends with a "Sources:" list written as the prompt asks,
    after text that holds no hit of its own, is cited with exactly the
    listed citations: writing a citation and extracting it are inverse.
  */
  lemma ExtractListing(prose: string, cs: seq<Citation>, ms: seq<Match>)
    requires FindAll(prose) == []
    requires |cs| > 0 && forall k :: 0 <= k < |cs| ==> Writable(cs[k]) && ValidCitation(cs[k])
    ensures Extract(prose + "\n" + Listing(cs), ms) == Success(cs)
  {
    ProseThenListing(prose, cs);
    HitsOfRefs(cs);
    CiteAllExact(HitRefs(HitsOf(cs)), cs);
  }

  /** The hits of text without hits, a newline and a listing are the listing's. */
  lemma ProseThenListing(prose: string, cs: seq<Citation>)
    requires FindAll(prose) == []
    requires forall k :: 0 <= k < |cs| ==> Writable(cs[k])
    ensures FindAll(prose + "\n" + Listing(cs)) == HitsOf(cs)
  {
    var tail := Listing(cs);
    AppendAssoc(prose, "\n", tail);
    assert Break(("\n" + tail)[0]);
    FindAllAppend(prose, "\n" + tail);
    NewlineThenListing(cs);
    AppendEmpty(FindAll("\n" + tail));
  }

  /** A newline before a listing adds no hit. */
  lemma NewlineThenListing(cs: seq<Citation>)
    requires forall k :: 0 <= k < |cs| ==> Writable(cs[k])
    ensures FindAll("\n" + Listing(cs)) == HitsOf(cs)
  {
    var nl: string := "\n";
    var tail := Listing(cs);
    NewlineNoHit();
    ListingHits(cs);
    assert Break(nl[0]);
    FindAllAppend(nl, tail);
    AppendEmpty(HitsOf(cs));
  }

  lemma NewlineNoHit()
    ensures FindAll("\n") == []
  {
    SpanUnique("\n", 0, PathChars, 0);
    assert FindAll("\n") == FindAll("\n"[1..]);
  }

  /** A cited line number 0 makes the citation invalid, and the extraction raises. */
  lemma ZeroLineRaises(path: string, endLine: nat, ms: seq<Match>)
    requires IsPath(path)
    ensures Extract(CitationText(Citation(path, 0, endLine)), ms) == Failure(ValidationError)
  {
    var c := Citation(path, 0, endLine);
    CitationTextHit(c);
    DigitsValueOfNatToString(0);
    CiteAllFacts(HitRefs([HitOf(c)]));
  }

  // ------------------------------------------------------------ the route

  /** What the route sends back: a response body or an HTTP error. */
  datatype Reply = Answered(response: AnswerResponse) | HttpError(status: int, detail: string)

  const RetrievalOnlyAnswer: string := "Retrieval-only mode (no LLM provider configured). See matches for context."
  const NoContext: string := "No relevant context found"
  const GenerationFailed: string := "Answer generation failed: "

  /**
    `answer`: no matches is a 404 before the model is asked; without a
    provider the fixed retrieval-only text is returned with a citation per
    match; otherwise the model answers the grounding prompt and the
    citations are extracted from its answer. Any other exception is a 500.
  */
  function Answer(question: string, maxTokens: int, provider: Config.Provider,
                  retrieved: Result<seq<Match>, string>,
                  generate: (Config.Provider, string, int) -> Result<string, string>): Reply
  {
    match retrieved
    case Failure(e) => HttpError(500, GenerationFailed + e)
    case Success(matches) =>
      if matches == [] then HttpError(404, NoContext)
      else if provider == Config.NoProvider then
        match CiteAll(MatchRefs(matches))
        case Failure(e) => HttpError(500, GenerationFailed + e)
        case Success(citations) => Answered(AnswerResponse(RetrievalOnlyAnswer, citations, matches))
      else
        match generate(provider, Prompts.GroundingPrompt(question, matches), maxTokens)
        case Failure(e) => HttpError(500, GenerationFailed + e)
        case Success(finalAnswer) =>
          match Extract(finalAnswer, matches)
          case Failure(e) => HttpError(500, GenerationFailed + e)
          case Success(citations) => Answered(AnswerResponse(finalAnswer, citations, matches))
  }

  /** No matches gives a 404 whatever the provider, and the model is never asked. */
  lemma AnswerWithoutMatches(question: string, maxTokens: int, provider: Config.Provider,
                             generate: (Config.Provider, string, int) -> Result<string, string>,
                             other: (Config.Provider, string, int) -> Result<string, string>)
    ensures Answer(question, maxTokens, provider, Success([]), generate) == HttpError(404, NoContext)
    ensures Answer(question, maxTokens, provider, Success([]), generate) == Answer(question, maxTokens, provider, Success([]), other)
  {
  }

  /**
    Without a provider the model is never asked, and valid matches come
    back with the retrieval-only text and one citation per match.
  */
  lemma AnswerRetrievalOnly(question: string, maxTokens: int, matches: seq<Match>,
                            generate: (Config.Provider, string, int) -> Result<string, string>)
    requires matches != [] && forall k :: 0 <= k < |matches| ==> ValidMatch(matches[k])
    ensures var r := Answer(question, maxTokens, Config.NoProvider, Success(matches), generate);
      && r.Answered?
      && r.response.final == RetrievalOnlyAnswer
      && r.response.matches == matches
      && |r.response.citations| == |matches|
      && forall k :: 0 <= k < |matches| ==>
           r.response.citations[k] == Citation(matches[k].path, matches[k].startLine, matches[k].endLine)
  {
    CiteAllFacts(MatchRefs(matches));
  }

  /**
    With a provider the model is asked the grounding prompt, its text is
    the final answer, and the citations are those extracted from it.
  */
  lemma AnswerGenerated(question: string, maxTokens: int, provider: Config.Provider, matches: seq<Match>,
                        generate: (Config.Provider, string, int) -> Result<string, string>, text: string)
    requires matches != [] && provider != Config.NoProvider
    requires generate(provider, Prompts.GroundingPrompt(question, matches), maxTokens) == Success(text)
    ensures var r := Answer(question, maxTokens, provider, Success(matches), generate);
      && (r.Answered? <==> Extract(text, matches).Success?)
      && (r.Answered? ==> r.response == AnswerResponse(text, Extract(text, matches).value, matches))
      && (r.HttpError? ==> r.status == 500)
  {
  }

  /** A model answer citing line 0 turns the request into a 500. */
  lemma AnswerZeroLine(question: string, maxTokens: int, provider: Config.Provider, matches: seq<Match>,
                       generate: (Config.Provider, string, int) -> Result<string, string>, path: string, endLine: nat)
    requires matches != [] && provider != Config.NoProvider && IsPath(path)
    requires generate(provider, Prompts.GroundingPrompt(question, matches), maxTokens)
          == Success(CitationText(Citation(path, 0, endLine)))
    ensures Answer(question, maxTokens, provider, Success(matches), generate) == HttpError(500, GenerationFailed + ValidationError)
  {
    ZeroLineRaises(path, endLine, matches);
  }
}
