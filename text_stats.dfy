/**
 * The document statistics of the status line (`parse` in stats.js): line,
 * word, vocabulary and character counts of the text in view, and how far
 * into it the cursor is, as a percentage.
 */
module TextStats {
  import opened Strings

  /** The fields `l`, `w`, `v`, `c`, `p` and `a` of what `parse` returns. */
  datatype Stats = Stats(
    lines: nat,
    words: nat,
    vocabulary: nat,
    chars: nat,
    percent: real,
    autoindent: bool)

  /**
   * The text the counts are taken over: the trimmed input when the input
   * is longer than five characters, otherwise the whole textarea value,
   * untrimmed.
   */
  function Normalize(input: string, value: string): string
  {
    if |input| > 5 then Trim(input) else value
  }

  /**
   * The vocabulary tokens: the text lower-cased, stripped of everything
   * but `[a-z0-9 ]`, split on single spaces. The filter keeps every space,
   * so there are exactly as many tokens as words.
   */
  function Tokens(text: string): (tokens: seq<string>)
    ensures |tokens| == Count(text, ' ') + 1
    ensures forall i :: 0 <= i < |tokens| ==> ' ' !in tokens[i]
  {
    Split(KeepWordChars(Lower(text)), ' ')
  }

  /** The keys of the dictionary `parse` fills: each token once. */
  function Distinct(tokens: seq<string>): set<string>
  {
    set t | t in tokens
  }

  /** A non-empty token list has at least one and at most as many distinct tokens as tokens. */
  lemma {:induction false} DistinctBounds(tokens: seq<string>)
    requires |tokens| >= 1
    ensures 1 <= |Distinct(tokens)| <= |tokens|
  {
    assert tokens[0] in Distinct(tokens);
    if |tokens| > 1 {
      var rest := tokens[1..];
      DistinctBounds(rest);
      assert Distinct(tokens) == {tokens[0]} + Distinct(rest) by {
        assert tokens == [tokens[0]] + rest;
      }
    } else {
      assert Distinct(tokens) == {tokens[0]};
    }
  }

  /** `clamp(v, min, max)`. */
  function Clamp(v: real, lo: real, hi: real): (r: real)
    ensures lo <= v <= hi ==> r == v
    ensures v < lo ==> r == lo
    ensures lo <= hi < v ==> r == hi
    ensures lo <= hi ==> lo <= r <= hi
  {
    if v < lo then lo else if v > hi then hi else v
  }

  /**
   * The cursor percentage `p`: 0 for an empty text, otherwise the cursor
   * offset as a share of the text's length, clamped to [0, 100].
   */
  function Percent(selectionEnd: nat, chars: nat): (p: real)
    ensures 0.0 <= p <= 100.0
    ensures chars == 0 ==> p == 0.0
    ensures 0 < chars <= selectionEnd ==> p == 100.0
    ensures 0 < chars && selectionEnd <= chars ==> p * chars as real == selectionEnd as real * 100.0
  {
    if chars > 0 then
      var share := selectionEnd as real / chars as real;
      assert share * chars as real == selectionEnd as real;
      assert chars <= selectionEnd ==> share >= 1.0;
      assert selectionEnd <= chars ==> share <= 1.0;
      Clamp(share * 100.0, 0.0, 100.0)
    else 0.0
  }

  /**
   * What `parse` computes for the selected text `input`, the textarea's
   * whole `value`, its `selectionEnd` and the autoindent setting.
   */
  function StatsOf(input: string, value: string, selectionEnd: nat, autoindent: bool): (s: Stats)
    ensures var text := Normalize(input, value);
      && s.lines == Count(text, '\n') + 1
      && s.words == Count(text, ' ') + 1
      && s.chars == |text|
      && s.vocabulary == |Distinct(Tokens(text))|
      && 1 <= s.vocabulary <= s.words
      && s.percent == Percent(selectionEnd, s.chars)
      && 0.0 <= s.percent <= 100.0
      && (s.chars == 0 ==> s.percent == 0.0)
      && s.autoindent == autoindent
  {
    var text := Normalize(input, value);
    var tokens := Tokens(text);
    DistinctBounds(tokens);
    Stats(|Split(text, '\n')|, |Split(text, ' ')|, |Distinct(tokens)|, |text|,
          Percent(selectionEnd, |text|), autoindent)
  }

  /**
   * The loop of `parse` that records every token as a key of a
   * dictionary; the number of keys is the vocabulary.
   */
  method CountVocabulary(tokens: seq<string>) returns (v: nat)
    ensures v == |Distinct(tokens)|
  {
    var h: map<string, int> := map[];
    for id := 0 to |tokens|
      invariant h.Keys == Distinct(tokens[..id])
    {
      assert tokens[..id + 1] == tokens[..id] + [tokens[id]];
      h := h[tokens[id] := 1];
    }
    assert tokens[..|tokens|] == tokens;
    v := |h.Keys|;
  }

  /** `parse`: the statistics the default status line shows. */
  method Parse(input: string, value: string, selectionEnd: nat, autoindent: bool) returns (s: Stats)
    ensures s == StatsOf(input, value, selectionEnd, autoindent)
  {
    var text := if |input| > 5 then Trim(input) else value;
    assert text == Normalize(input, value);
    var words := Split(KeepWordChars(Lower(text)), ' ');
    assert words == Tokens(text);
    var v := CountVocabulary(words);
    var p := if |text| > 0 then Clamp(selectionEnd as real / |text| as real * 100.0, 0.0, 100.0) else 0.0;
    assert p == Percent(selectionEnd, |text|);
    s := Stats(|Split(text, '\n')|, |Split(text, ' ')|, v, |text|, p, autoindent);
  }

  /** Short input: the counts are over the whole textarea, exactly as typed. */
  lemma {:induction false} ShortInputUsesWholeValue(input: string, value: string, selectionEnd: nat, autoindent: bool)
    requires |input| <= 5
    ensures StatsOf(input, value, selectionEnd, autoindent).chars == |value|
    ensures StatsOf(input, value, selectionEnd, autoindent).lines == Count(value, '\n') + 1
    ensures StatsOf(input, value, selectionEnd, autoindent).words == Count(value, ' ') + 1
    ensures StatsOf(input, value, selectionEnd, autoindent).vocabulary == |Distinct(Tokens(value))|
    ensures StatsOf(input, value, selectionEnd, autoindent).percent == Percent(selectionEnd, |value|)
  {
  }

  /** Longer input: surrounding whitespace is not counted. */
  lemma {:induction false} LongInputIgnoresPadding(w1: string, input: string, w2: string, value: string, selectionEnd: nat, autoindent: bool)
    requires AllWhitespace(w1) && AllWhitespace(w2)
    requires |input| > 5
    ensures StatsOf(w1 + input + w2, value, selectionEnd, autoindent)
         == StatsOf(input, value, selectionEnd, autoindent)
  {
    TrimPadded(w1, input, w2);
  }

  /**
   * An empty textarea: one line, one word, no characters, cursor at 0%,
   * and one vocabulary entry, the empty token.
   */
  lemma {:induction false} EmptyText(input: string, selectionEnd: nat, autoindent: bool)
    requires |input| <= 5
    ensures StatsOf(input, "", selectionEnd, autoindent)
         == Stats(1, 1, 1, 0, 0.0, autoindent)
  {
    assert Tokens("") == [""];
    assert Distinct([""]) == {""};
  }
}
