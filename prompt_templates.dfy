/**
  The grounded question-answering prompt: a fixed instruction text around
  the user's question and a context made of one numbered entry per match,
  entries separated by a newline.
*/
module Prompts {
  import opened Text
  import opened Schemas

  /** The instructions up to and including the line that introduces the question. */
  const Preamble: string :=
    "You are a precise code assistant. Use ONLY the provided context to answer the question.\n"
    + "If you cannot answer based on the context, say \"I don't have enough information to answer that.\"\n"
    + "Always include file:line citations in your answer.\n"
    + "\n"
    + "User question:\n"

  /** What separates the question from the context. */
  const ContextHeading: string := "\n\nContext (ranked snippets with file and line numbers):\n"

  /** The closing instruction, ending the prompt with a newline. */
  const Closing: string :=
    "\n\nAnswer with a concise explanation. End with \"Sources:\" and list each citation as \"- path:start_line-end_line\".\n"

  /** The context entry for the `i`-th match, counting from 1. */
  function Entry(i: int, m: Match): string {
    "[" + IntToString(i) + "] File: " + m.path + " (lines " + IntToString(m.startLine) + "-" + IntToString(m.endLine) + ")\n"
    + m.snippet + "\n"
  }

  /** The entries, numbered from 1 in match order. */
  function Entries(ms: seq<Match>): seq<string> {
    seq(|ms|, k requires 0 <= k < |ms| => Entry(k + 1, ms[k]))
  }

  /** The context: the entries joined by single newlines. */
  function Context(ms: seq<Match>): string {
    Join(Entries(ms), "\n")
  }

  /** `build_grounding_prompt(question, matches)`. */
  function GroundingPrompt(question: string, ms: seq<Match>): string {
    Preamble + question + ContextHeading + Context(ms) + Closing
  }

  /** The loop of `build_grounding_prompt` followed by the join and the format. */
  method BuildGroundingPrompt(question: string, matches: seq<Match>) returns (prompt: string)
    ensures prompt == GroundingPrompt(question, matches)
  {
    var contextParts: seq<string> := [];
    var i := 0;
    while i < |matches|
      invariant 0 <= i <= |matches|
      invariant contextParts == Entries(matches[..i])
    {
      EntriesSnoc(matches, i);
      contextParts := contextParts + [Entry(i + 1, matches[i])];
      i := i + 1;
    }
    assert matches[..i] == matches;
    var context := Join(contextParts, "\n");
    prompt := Preamble + question + ContextHeading + context + Closing;
  }

  /** One more match adds its entry at the end. */
  lemma EntriesSnoc(ms: seq<Match>, i: nat)
    requires i < |ms|
    ensures Entries(ms[..i + 1]) == Entries(ms[..i]) + [Entry(i + 1, ms[i])]
  {
    var a, b := Entries(ms[..i + 1]), Entries(ms[..i]) + [Entry(i + 1, ms[i])];
    forall k | 0 <= k < i + 1
      ensures a[k] == b[k]
    {
      assert ms[..i + 1][k] == ms[k];
    }
  }

  /** The context is empty exactly when there are no matches. */
  lemma ContextEmpty(ms: seq<Match>)
    ensures Context(ms) == "" <==> ms == []
  {
    if ms != [] {
      var parts := Entries(ms);
      var last := parts[|parts| - 1];
      assert last == Entry(|ms|, ms[|ms| - 1]);
      assert last[0] == '[';
      if |parts| == 1 {
        assert Context(ms) == last;
      } else {
        assert Context(ms) == Join(parts[..|parts| - 1], "\n") + "\n" + last;
      }
    }
  }

  /** Joining the first `n` parts gives a prefix of joining them all. */
  lemma {:induction false} JoinPrefix(parts: seq<string>, n: nat, sep: string)
    requires n <= |parts|
    ensures |Join(parts[..n], sep)| <= |Join(parts, sep)|
    ensures Join(parts, sep)[..|Join(parts[..n], sep)|] == Join(parts[..n], sep)
    decreases |parts| - n
  {
    if n < |parts| {
      JoinPrefix(parts, n + 1, sep);
      var shorter, longer := parts[..n], parts[..n + 1];
      assert longer[..n] == shorter;
      var c, c' := Join(shorter, sep), Join(longer, sep);
      if n > 0 {
        assert c' == c + sep + parts[n];
      }
      assert c'[..|c|] == c;
    } else {
      assert parts[..n] == parts;
    }
  }

  /** The entries of the first `n` matches are the first `n` entries. */
  lemma EntriesPrefix(ms: seq<Match>, n: nat)
    requires n <= |ms|
    ensures Entries(ms[..n]) == Entries(ms)[..n]
  {
    var a, b := Entries(ms[..n]), Entries(ms)[..n];
    forall k | 0 <= k < n
      ensures a[k] == b[k]
    {
      assert ms[..n][k] == ms[k];
    }
  }

  /**
    Entry `e`, numbered `k + 1` (the `k`-th match), ends the context `c` of
    the first `k + 1` matches, and `c` begins the whole context; a newline
    precedes every entry but the first.
  */
  lemma EntryInContext(ms: seq<Match>, k: nat, c: string, e: string)
    requires k < |ms|
    requires c == Context(ms[..k + 1])
    requires e == Entry(k + 1, ms[k])
    ensures |e| <= |c| && c[|c| - |e|..] == e
    ensures |c| <= |Context(ms)| && Context(ms)[..|c|] == c
    ensures k == 0 <==> |c| == |e|
    ensures k > 0 ==> c[|c| - |e| - 1] == '\n'
  {
    EntriesPrefix(ms, k + 1);
    JoinPrefix(Entries(ms), k + 1, "\n");
    EntryEnds(ms, k, c, e);
  }

  /** Entry `k + 1` ends the context `c` of the first `k + 1` matches, after a newline unless it is the first. */
  lemma EntryEnds(ms: seq<Match>, k: nat, c: string, e: string)
    requires k < |ms|
    requires c == Context(ms[..k + 1])
    requires e == Entry(k + 1, ms[k])
    ensures |e| <= |c| && c[|c| - |e|..] == e
    ensures k == 0 <==> |c| == |e|
    ensures k > 0 ==> c[|c| - |e| - 1] == '\n'
  {
    var longer := Entries(ms[..k + 1]);
    EntriesSnoc(ms, k);
    if k == 0 {
      assert longer == [e];
    } else {
      var c0 := Join(Entries(ms[..k]), "\n");
      assert longer[..k] == Entries(ms[..k]);
      assert c == c0 + "\n" + e;
      assert (c0 + "\n" + e)[|c0|] == '\n';
    }
  }

  /**
    The prompt starts with the fixed instructions, whose last line is
    "User question:", follows them with the question verbatim, and ends with
    the closing instruction.
  */
  lemma PromptLayout(question: string, ms: seq<Match>)
    ensures var p := GroundingPrompt(question, ms);
      && p[..|Preamble|] == Preamble
      && Preamble[|Preamble| - 15..] == "User question:\n"
      && p[|Preamble|..|Preamble| + |question|] == question
      && p[|Preamble| + |question|..|Preamble| + |question| + |ContextHeading|] == ContextHeading
      && p[|p| - |Closing|..] == Closing
  {
    FiveParts(Preamble, question, ContextHeading, Context(ms), Closing);
    PreambleEnds();
  }

  /** Where each of five concatenated strings sits in the whole. */
  lemma FiveParts(a: string, b: string, c: string, d: string, e: string)
    ensures var p := a + b + c + d + e;
      && p[..|a|] == a
      && p[|a|..|a| + |b|] == b
      && p[|a| + |b|..|a| + |b| + |c|] == c
      && p[|p| - |e|..] == e
  {
    var p := a + b + c + d + e;
    assert p == a + (b + c + d + e);
    assert p == (a + b) + (c + d + e);
    assert p == (a + b + c + d) + e;
  }

  /** The instructions end with the line that introduces the question. */
  lemma PreambleEnds()
    ensures Preamble[|Preamble| - 15..] == "User question:\n"
  {
    var q := "User question:\n";
    assert Preamble == (Preamble[..|Preamble| - 15]) + q;
  }

  /** Without matches the context heading runs straight into the closing instruction. */
  lemma PromptWithoutMatches(question: string)
    ensures GroundingPrompt(question, []) == Preamble + question + ContextHeading + Closing
  {
    assert Context([]) == "";
    var head := Preamble + question + ContextHeading;
    assert head + "" == head;
  }
}
