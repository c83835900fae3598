/**
 * The small string pieces of the status line: the two-digit minutes of
 * the default clock, the unpadded clock of the URL prompt, the
 * `[start,end]` selection prefix and the completion tail of a suggestion.
 */
module Format {
  import opened Strings

  /**
   * `('0' + minutes).slice(-2)`: the last two characters of the minutes
   * with a zero in front, which reads back as the minutes modulo 100.
   */
  function Pad2(minutes: nat): (r: string)
    ensures |r| == 2 && AllDigits(r)
    ensures Value(r) == minutes % 100
  {
    var d := "0" + Dec(minutes);
    var r := d[|d| - 2..];
    if minutes < 10 then
      assert r == ['0', DigitChar(minutes)];
      assert Value(r[..1]) == 0 by {
        assert r[..1][..0] == [];
      }
      r
    else
      var high := Dec(minutes / 10);
      assert Dec(minutes) == high + [DigitChar(minutes % 10)];
      assert r == [DigitChar(minutes / 10 % 10), DigitChar(minutes % 10)];
      assert Value(r[..1]) == minutes / 10 % 10 by {
        assert r[..1][..0] == [];
      }
      assert DigitValue(r[1]) == minutes % 10;
      LastTwoDigits(minutes);
      r
  }

  lemma {:induction false} LastTwoDigits(n: nat)
    ensures n / 10 % 10 * 10 + n % 10 == n % 100
  {
  }

  /** The default view's clock: hours as they are, minutes on two digits. */
  function DefaultClock(hours: nat, minutes: nat): string
  {
    Dec(hours) + ":" + Pad2(minutes)
  }

  /** The URL prompt's clock: hours and minutes both as they are. */
  function UrlClock(hours: nat, minutes: nat): string
  {
    Dec(hours) + ":" + Dec(minutes)
  }

  /**
   * The two clocks agree from ten minutes past the hour on and differ
   * before: the URL prompt shows 9:05 as "9:5".
   */
  lemma {:induction false} ClocksDifferBelowTen(hours: nat, minutes: nat)
    requires minutes < 60
    ensures DefaultClock(hours, minutes) == UrlClock(hours, minutes) <==> minutes >= 10
  {
    var p, d := Pad2(minutes), Dec(minutes);
    if minutes >= 10 {
      assert |d| == 2 by {
        assert |Dec(minutes / 10)| == 1;
      }
      assert d == p by {
        DecValue(minutes);
        TwoDigitsDetermined(d, p);
      }
    } else {
      assert |DefaultClock(hours, minutes)| != |UrlClock(hours, minutes)|;
    }
  }

  lemma {:induction false} TwoDigitsDetermined(a: string, b: string)
    requires |a| == 2 && |b| == 2 && AllDigits(a) && AllDigits(b)
    requires Value(a) == Value(b)
    ensures a == b
  {
    assert a[..1] == [a[0]] && b[..1] == [b[0]];
    assert [a[0]][..0] == [] && [b[0]][..0] == [];
  }

  /** The `[start,end]` prefix of the selection view. */
  function SelectionPrefix(start: nat, end: nat): string
  {
    "[" + Dec(start) + "," + Dec(end) + "]"
  }

  /** Between the brackets, the prefix splits at its comma into the two offsets. */
  lemma {:induction false} SelectionPrefixSplits(start: nat, end: nat)
    ensures var p := SelectionPrefix(start, end);
      |p| >= 2 && Split(p[1..|p| - 1], ',') == [Dec(start), Dec(end)]
  {
    var p := SelectionPrefix(start, end);
    assert p[1..|p| - 1] == Dec(start) + [','] + Dec(end);
    SplitAtFirst(Dec(start), ',', Dec(end));
    SplitNoSep(Dec(end), ',');
  }

  /** The prefix names the selection: different selections give different prefixes. */
  lemma {:induction false} SelectionPrefixInjective(a: nat, b: nat, c: nat, d: nat)
    requires SelectionPrefix(a, b) == SelectionPrefix(c, d)
    ensures a == c && b == d
  {
    SelectionPrefixSplits(a, b);
    SelectionPrefixSplits(c, d);
    DecInjective(a, c);
    DecInjective(b, d);
  }

  /**
   * The completion shown after the word:
   * `suggestion.substr(word.length, suggestion.length)`, the suggestion
   * from the word's length on, empty when the word is as long or longer.
   */
  function SuggestionTail(word: string, suggestion: string): (tail: string)
    ensures |word| >= |suggestion| ==> tail == []
    ensures |word| < |suggestion| ==> |word| + |tail| == |suggestion|
    ensures tail == suggestion[|suggestion| - |tail|..]
  {
    if |word| < |suggestion| then suggestion[|word|..] else []
  }

  /** When the word begins the suggestion, word and tail together spell the suggestion. */
  lemma {:induction false} SuggestionCompletes(word: string, suggestion: string)
    requires |word| <= |suggestion| && suggestion[..|word|] == word
    ensures word + SuggestionTail(word, suggestion) == suggestion
  {
    if |word| == |suggestion| {
      assert word == suggestion;
    }
  }
}
