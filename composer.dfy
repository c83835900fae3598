/**
 * The status line itself (`update`, `_default`, `_selection`, `_url` and
 * `on_scroll` in stats.js): it picks one mode of the editor, first match
 * wins, and shows what that mode calls for.
 */
module Composer {
  import opened Wrappers
  import TextStats
  import Format
  import Battery
  import Scroll
  import Synonyms

  /**
   * What `update` reads from the editor at one moment. A `null`,
   * `undefined` or empty word, suggestion or URL is the empty string:
   * all three are false in the tests of `update`. An empty synonym list
   * is not: it is `Some([])`.
   */
  datatype Snapshot = Snapshot(
    insertActive: bool,
    insertStatus: string,
    selectionStart: nat,
    selectionEnd: nat,
    synonyms: Option<seq<string>>,
    word: string,
    suggestion: string,
    url: string,
    selected: string,
    value: string,
    autoindent: bool)

  /** The local time, as `getHours` and `getMinutes` give it. */
  datatype Clock = Clock(hours: nat, minutes: nat)

  /** The modes of the status line, in the order `update` tries them. */
  datatype Mode = Insert | Selection | SynonymList | Suggestion | Url | Default

  function Rank(m: Mode): nat
  {
    match m
    case Insert => 0
    case Selection => 1
    case SynonymList => 2
    case Suggestion => 3
    case Url => 4
    case Default => 5
  }

  /** Whether the snapshot calls for a mode, that mode's test taken on its own. */
  predicate Wants(m: Mode, s: Snapshot)
  {
    match m
    case Insert => s.insertActive
    case Selection => s.selectionStart != s.selectionEnd
    case SynonymList => s.synonyms.Some?
    case Suggestion => s.word != [] && s.suggestion != []
    case Url => s.url != []
    case Default => true
  }

  /** The mode `update` picks: the first one, in the order above, that the snapshot calls for. */
  function SelectMode(s: Snapshot): (m: Mode)
    ensures Wants(m, s)
    ensures forall other: Mode :: Wants(other, s) ==> Rank(m) <= Rank(other)
  {
    if s.insertActive then Insert
    else if s.selectionStart != s.selectionEnd then Selection
    else if s.synonyms.Some? then SynonymList
    else if s.word != [] && s.suggestion != [] then Suggestion
    else if s.url != [] then Url
    else Default
  }

  /** Exactly one mode is picked: no other mode the snapshot calls for comes as early. */
  lemma {:induction false} SelectModeUnique(s: Snapshot, m: Mode)
    requires Wants(m, s)
    requires forall other: Mode :: Wants(other, s) ==> Rank(m) <= Rank(other)
    ensures m == SelectMode(s)
  {
    assert Rank(m) == Rank(SelectMode(s));
  }

  /** The statistics, battery readout and clock of the default view. */
  datatype Body = Body(stats: TextStats.Stats, battery: string, clock: string)

  /** What the status element shows. */
  datatype View =
    | Blank
    | InsertStatus(status: string)
    | SelectionStatus(prefix: string, body: Body)
    | SynonymPicker
    | SuggestionStatus(word: string, completion: string)
    | UrlPrompt(url: string, clock: string)
    | DefaultStatus(body: Body)
    | ScrollStatus(indicator: Scroll.Indicator)

  /** The mode a view belongs to; the scroll indicator and the blank element belong to none. */
  function ModeOf(v: View): Option<Mode>
  {
    match v
    case Blank => None
    case InsertStatus(_) => Some(Insert)
    case SelectionStatus(_, _) => Some(Selection)
    case SynonymPicker => Some(SynonymList)
    case SuggestionStatus(_, _) => Some(Suggestion)
    case UrlPrompt(_, _) => Some(Url)
    case DefaultStatus(_) => Some(Default)
    case ScrollStatus(_) => None
  }

  /** Why an update shows nothing new: a battery attribute could not be read, or the synonym list was empty. */
  datatype Failure = BatteryUnreadable | NoFirstSynonym

  datatype Outcome = Shown(view: View) | Failed(failure: Failure)

  /**
   * `_default` without its markup, once both battery attributes have
   * been read: the statistics of the selected text, the battery readout
   * and the clock.
   */
  function BodyOf(s: Snapshot, clock: Clock, readings: Battery.Readings): (body: Body)
    ensures 1 <= body.stats.vocabulary <= body.stats.words
  {
    Body(TextStats.StatsOf(s.selected, s.value, s.selectionEnd, s.autoindent),
         Battery.BatteryText(readings.capacity, readings.status),
         Format.DefaultClock(clock.hours, clock.minutes))
  }

  /**
   * What `update` shows in a given mode, given the default body when the
   * battery could be read (`None` when it could not), or why it shows
   * nothing new.
   */
  function ViewIn(mode: Mode, s: Snapshot, clock: Clock, body: Option<Body>): (r: Outcome)
    requires mode == SynonymList ==> s.synonyms.Some?
    ensures r.Shown? ==> ModeOf(r.view) == Some(mode)
    ensures r.Failed? <==>
      || ((mode == Selection || mode == Default) && body.None?)
      || (mode == SynonymList && s.synonyms.value == [])
  {
    match mode
    case Insert => Shown(InsertStatus(s.insertStatus))
    case Selection =>
      if body.None? then Failed(BatteryUnreadable)
      else Shown(SelectionStatus(Format.SelectionPrefix(s.selectionStart, s.selectionEnd), body.value))
    case SynonymList =>
      if s.synonyms.value == [] then Failed(NoFirstSynonym) else Shown(SynonymPicker)
    case Suggestion => Shown(SuggestionStatus(s.word, Format.SuggestionTail(s.word, s.suggestion)))
    case Url => Shown(UrlPrompt(s.url, Format.UrlClock(clock.hours, clock.minutes)))
    case Default =>
      if body.None? then Failed(BatteryUnreadable) else Shown(DefaultStatus(body.value))
  }

  /** The default body, or `None` when a battery attribute could not be read. */
  function DefaultBody(s: Snapshot, clock: Clock, battery: Option<Battery.Readings>): (body: Option<Body>)
    ensures body.Some? <==> battery.Some?
  {
    if battery.None? then None else Some(BodyOf(s, clock, battery.value))
  }

  /** `update`: the view of the mode `SelectMode` picks, or why there is none. */
  function Compose(s: Snapshot, clock: Clock, battery: Option<Battery.Readings>): (r: Outcome)
    ensures r.Shown? ==> ModeOf(r.view) == Some(SelectMode(s))
    ensures r.Failed? <==>
      || ((SelectMode(s) == Selection || SelectMode(s) == Default) && battery.None?)
      || (SelectMode(s) == SynonymList && s.synonyms == Some([]))
  {
    ViewIn(SelectMode(s), s, clock, DefaultBody(s, clock, battery))
  }

  /** In insert mode the insert status shows, whatever else the snapshot holds. */
  lemma {:induction false} InsertWins(s: Snapshot, clock: Clock, battery: Option<Battery.Readings>)
    requires s.insertActive
    ensures Compose(s, clock, battery) == Shown(InsertStatus(s.insertStatus))
  {
  }

  /** Only the views with statistics read the battery. */
  lemma {:induction false} BatteryOnlyForStatistics(s: Snapshot, clock: Clock, a: Option<Battery.Readings>, b: Option<Battery.Readings>)
    requires SelectMode(s) != Selection && SelectMode(s) != Default
    ensures Compose(s, clock, a) == Compose(s, clock, b)
  {
  }

  /**
   * The selection view is the default view of the same text and cursor
   * with the `[start,end]` prefix in front.
   */
  lemma {:induction false} SelectionExtendsDefault(s: Snapshot, clock: Clock, readings: Battery.Readings)
    requires !s.insertActive && s.selectionStart != s.selectionEnd
    ensures var plain := s.(selectionStart := s.selectionEnd, synonyms := None, word := [], url := []);
      && Compose(plain, clock, Some(readings)).Shown?
      && Compose(plain, clock, Some(readings)).view.DefaultStatus?
      && Compose(s, clock, Some(readings))
         == Shown(SelectionStatus(Format.SelectionPrefix(s.selectionStart, s.selectionEnd),
                                  Compose(plain, clock, Some(readings)).view.body))
  {
  }

  /** The status element, and the synonym picker it can show. */
  class StatusLine {
    var view: View
    const browser: Synonyms.SynonymBrowser

    ghost predicate Valid()
      reads this, browser
    {
      browser.Valid()
    }

    /** A blank element; `start` is the editor's selection index at that time. */
    constructor (start: Synonyms.Cursor)
      ensures Valid() && fresh(browser)
      ensures view == Blank && browser.rows == [] && browser.synonyms == None
      ensures browser.cursor == start && !browser.isSynonymsActive
    {
      view := Blank;
      browser := new Synonyms.SynonymBrowser(start);
    }

    /** `_default`: parses the selected text, then reads the battery. */
    method RenderDefault(s: Snapshot, clock: Clock, battery: Option<Battery.Readings>) returns (body: Option<Body>)
      ensures body == DefaultBody(s, clock, battery)
    {
      var stats := TextStats.Parse(s.selected, s.value, s.selectionEnd, s.autoindent);
      if battery.None? {
        return None;
      }
      var readings := battery.value;
      body := Some(Body(stats, Battery.BatteryText(readings.capacity, readings.status),
                        Format.DefaultClock(clock.hours, clock.minutes)));
    }

    /**
     * `update`: shows the view of the picked mode. A failed battery read
     * leaves the element as it was; an empty synonym list leaves it blank,
     * with the picker's cursor reset, as the source does before it throws.
     * Whatever the mode, the picker reads `left.synonyms` as this update
     * sees it from now on.
     */
    method Update(s: Snapshot, clock: Clock, battery: Option<Battery.Readings>) returns (ok: bool)
      requires Valid()
      modifies this, browser
      ensures Valid()
      ensures ok == Compose(s, clock, battery).Shown?
      ensures ok ==> view == Compose(s, clock, battery).view
      ensures !ok && SelectMode(s) == SynonymList ==> view == Blank
      ensures !ok && SelectMode(s) != SynonymList ==> view == old(view)
      ensures browser.synonyms == s.synonyms
      ensures SelectMode(s) == SynonymList ==> browser.cursor == Synonyms.Row(0)
      ensures SelectMode(s) == SynonymList && ok ==> browser.rows == s.synonyms.value && browser.OneMark()
      ensures SelectMode(s) == SynonymList && !ok ==>
        browser.rows == old(browser.rows) && browser.active == old(browser.active)
      ensures SelectMode(s) != SynonymList ==>
        && browser.rows == old(browser.rows) && browser.active == old(browser.active)
        && browser.cursor == old(browser.cursor)
      ensures browser.isSynonymsActive == old(browser.isSynonymsActive)
    {
      var mode := SelectMode(s);
      ghost var expected := ViewIn(mode, s, clock, DefaultBody(s, clock, battery));
      assert Compose(s, clock, battery) == expected;
      browser.Hand(s.synonyms);
      match mode
      case Insert =>
        view := InsertStatus(s.insertStatus);
        ok := true;
      case Selection =>
        var body := RenderDefault(s, clock, battery);
        ok := body.Some?;
        if ok {
          view := SelectionStatus(Format.SelectionPrefix(s.selectionStart, s.selectionEnd), body.value);
          assert view == expected.view;
        }
      case SynonymList =>
        view := Blank;
        ok := browser.Open();
        if ok {
          view := SynonymPicker;
        }
      case Suggestion =>
        view := SuggestionStatus(s.word, Format.SuggestionTail(s.word, s.suggestion));
        ok := true;
      case Url =>
        view := UrlPrompt(s.url, Format.UrlClock(clock.hours, clock.minutes));
        ok := true;
      case Default =>
        var body := RenderDefault(s, clock, battery);
        ok := body.Some?;
        if ok {
          view := DefaultStatus(body.value);
          assert view == expected.view;
        }
    }

    /** `on_scroll`: shows the scroll indicator in place of the status. */
    method OnScroll(scrollTop: real, scrollHeight: int, offsetHeight: int)
      requires Valid()
      modifies this
      ensures Valid() && unchanged(browser)
      ensures view == ScrollStatus(Scroll.IndicatorOf(scrollTop, scrollHeight, offsetHeight))
    {
      view := ScrollStatus(Scroll.IndicatorOf(scrollTop, scrollHeight, offsetHeight));
    }
  }
}
