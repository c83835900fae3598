# Status line of the Left editor, in Dafny

This project models the status line of the Left text editor, the `Stats`
component of `desktop/sources/scripts/stats.js`, and proves what it
promises. The status line shows one mode at a time, picked in a fixed
order: insert mode, then a selection, the synonym picker, a completion
suggestion, a URL prompt, and finally the default view. The default view
shows line, word, vocabulary and character counts, the cursor position as
a percentage, the autoindent marker, the battery readout and a clock. The
same element also shows a ten-cell scroll indicator while the text
scrolls.

Modules, one per component:

- `Strings`: the JavaScript string operations the component uses. These
  are `split` on one character (with `Join` as its inverse), `trim`, ASCII
  `toLowerCase`, the `[a-z0-9 ]` filter, and decimal rendering of whole
  numbers (with `Value` as its inverse).
- `TextStats`: `parse`, its counts and its cursor percentage. The
  dictionary loop is a method (`CountVocabulary`) proved against the set
  of distinct tokens.
- `Format`: the two-digit minutes, the two clocks, the `[start,end]`
  prefix and the completion tail of a suggestion.
- `Battery`: the battery readout from the `capacity` and `status`
  attributes of the Linux power-supply class.
- `Scroll`: the scroll ratio and the ten-cell bar of `on_scroll`.
- `Synonyms`: the synonym picker, a class whose fields are the rendered
  rows, their `active` marks, `left.synonyms` as the last update saw it,
  the cursor (a row, or the NaN that `% 0` leaves) and the flag that
  `applySynonym` checks. Stepping and applying read `left.synonyms`, which
  can differ from the rendered rows: it may have been cleared, emptied or
  replaced by an update in another mode.
- `Composer`: the mode chain of `update`, the views it shows, and the
  `StatusLine` class that holds the element's content and the picker.
- `Wrappers`: an `Option` type.

Behaviour that follows the code where a description of the feature might
suggest otherwise:

- `chars` is the length of the normalized text (trimmed input, or the
  whole textarea value for short input). It is not the length of the
  original selection.
- The vocabulary of an empty text is 1, because the empty token is a
  dictionary key like any other (`TextStats.EmptyText`).
- The scroll bar fills `ceil(10 * ratio)` cells, not `floor`. The only
  guard on the division is `scrollMax == 0`, so a textarea taller than its
  content and scrolled gives a negative ratio.
- A failed battery read is not caught. It fails the selection and default
  views, and the element keeps its previous content. No view is shown
  without the battery segment.
- The URL prompt's clock does not pad minutes: 9:05 shows as `9:5`.
- An empty synonym list still selects the picker mode, because an empty
  array is true in JavaScript. `_synonyms` then resets the cursor, finds
  no first row to mark and throws. The element is left blank and the old
  rendered list keeps its marks. A step after that computes `% 0`, so the
  cursor becomes NaN, the old row loses its mark and the step throws.
  Applying then hands `undefined` to the replace callback
  (`Synonyms.StepAfterEmptyList`).

## Model

| member | source | states |
|---|---|---|
| `Strings.Split` | desktop/sources/scripts/stats.js:124-125 | `split` on one character gives one more piece than there are separators, and no piece contains the separator |
| `Strings.JoinSplit` | desktop/sources/scripts/stats.js:124-125 | joining the pieces of a split gives the text back |
| `Strings.SplitJoin` | desktop/sources/scripts/stats.js:124-125 | splitting a join of separator-free pieces gives the pieces back |
| `Strings.SplitAtFirst` | desktop/sources/scripts/stats.js:124-125 | the first separator closes the first piece |
| `Strings.SplitNoSep` | desktop/sources/scripts/stats.js:124-125 | a text without the separator is a single piece |
| `Strings.TrimStart` | desktop/sources/scripts/stats.js:115 | drops exactly the leading whitespace: the result is a suffix, what it drops is whitespace, and it does not start with whitespace |
| `Strings.TrimEnd` | desktop/sources/scripts/stats.js:115 | drops exactly the trailing whitespace: the result is a prefix, what it drops is whitespace, and it does not end with whitespace |
| `Strings.Trim` | desktop/sources/scripts/stats.js:115 | a trimmed text neither starts nor ends with whitespace |
| `Strings.TrimIsSlice` | desktop/sources/scripts/stats.js:115 | what `trim` keeps is the slice of the text between a whitespace prefix and a whitespace suffix, character for character |
| `Strings.TrimIdempotent` | desktop/sources/scripts/stats.js:115 | trimming twice is trimming once |
| `Strings.TrimPadded` | desktop/sources/scripts/stats.js:115 | whitespace on either side does not change what `trim` returns |
| `Strings.TrimDropsTrailing` | desktop/sources/scripts/stats.js:138-139 | whitespace after a text does not change what `trim` returns |
| `Strings.TrimDropsLineFeed` | desktop/sources/scripts/stats.js:138-139 | a line feed after a text does not change what `trim` returns |
| `Strings.Lower` | desktop/sources/scripts/stats.js:118 | lower-casing maps each character to its ASCII lower case and keeps every space |
| `Strings.KeepWordChars` | desktop/sources/scripts/stats.js:118 | the filter leaves only `[a-z0-9 ]`, and every character of `[a-z0-9 ]` occurs as often as in the input |
| `Strings.KeepWordCharsConcat` | desktop/sources/scripts/stats.js:118 | filtering a concatenation concatenates the filtered parts, so what is kept stays in order |
| `Strings.Dec` | desktop/sources/scripts/stats.js:97 | a whole number renders as at least one digit, without a leading zero, ending in its last digit |
| `Strings.DecValue` | desktop/sources/scripts/stats.js:97 | reading the rendered digits back gives the number |
| `Strings.DecInjective` | desktop/sources/scripts/stats.js:97 | different numbers render differently |
| `TextStats.Normalize` | desktop/sources/scripts/stats.js:115 | no ensures of its own: `ShortInputUsesWholeValue` and `LongInputIgnoresPadding` state which text is counted |
| `TextStats.Tokens` | desktop/sources/scripts/stats.js:118 | there are as many vocabulary tokens as words, and no token holds a space |
| `TextStats.DistinctBounds` | desktop/sources/scripts/stats.js:117-121 | a non-empty token list has between one and as many distinct tokens as tokens |
| `TextStats.Clamp` | desktop/sources/scripts/stats.js:155 | `clamp` returns the value when it lies in range, the lower bound for a value below it, and the upper bound for a value above it |
| `TextStats.Percent` | desktop/sources/scripts/stats.js:128 | the cursor percentage lies in [0,100]: 0 for an empty text, 100 from the end on, and otherwise in proportion to the cursor offset |
| `TextStats.StatsOf` | desktop/sources/scripts/stats.js:114-131 | lines = newlines + 1, words = spaces + 1, chars = length of the normalized text, vocabulary = distinct tokens with 1 ≤ vocabulary ≤ words, percentage = `Percent` of the cursor and the length (so in [0,100], 0 for empty text), autoindent passed through |
| `TextStats.CountVocabulary` | desktop/sources/scripts/stats.js:117-127 | the dictionary loop ends with as many keys as there are distinct tokens |
| `TextStats.Parse` | desktop/sources/scripts/stats.js:114-131 | `parse` computes exactly the statistics `StatsOf` specifies |
| `TextStats.ShortInputUsesWholeValue` | desktop/sources/scripts/stats.js:115 | for input of at most 5 characters, characters, lines, words, vocabulary and percentage are those of the whole textarea value, untrimmed |
| `TextStats.LongInputIgnoresPadding` | desktop/sources/scripts/stats.js:115 | for input longer than 5 characters, surrounding whitespace does not change the statistics |
| `TextStats.EmptyText` | desktop/sources/scripts/stats.js:114-131 | an empty textarea has 1 line, 1 word, 1 vocabulary entry, 0 characters and a 0% cursor |
| `Format.Pad2` | desktop/sources/scripts/stats.js:38 | the minutes render as exactly two digits that read back as the minutes modulo 100 |
| `Format.DefaultClock` | desktop/sources/scripts/stats.js:38 | no ensures of its own: hours, a colon and `Pad2` of the minutes; `ClocksDifferBelowTen` relates it to the URL clock |
| `Format.UrlClock` | desktop/sources/scripts/stats.js:102 | no ensures of its own: hours and minutes both unpadded; see `ClocksDifferBelowTen` |
| `Format.ClocksDifferBelowTen` | desktop/sources/scripts/stats.js:102 | the URL clock agrees with the default clock exactly when the minutes are 10 or more |
| `Format.SelectionPrefix` | desktop/sources/scripts/stats.js:97 | no ensures of its own: `SelectionPrefixSplits` and `SelectionPrefixInjective` state what it shows |
| `Format.SelectionPrefixSplits` | desktop/sources/scripts/stats.js:97 | between its brackets, the selection prefix splits at its comma into the two rendered offsets |
| `Format.SelectionPrefixInjective` | desktop/sources/scripts/stats.js:97 | different selections give different prefixes |
| `Format.SuggestionTail` | desktop/sources/scripts/stats.js:93 | the completion is the end of the suggestion past the word's length, and empty when the word is at least as long |
| `Format.SuggestionCompletes` | desktop/sources/scripts/stats.js:93 | when the word begins the suggestion, word and completion together spell the suggestion |
| `Battery.StatusOf` | desktop/sources/scripts/stats.js:142-152 | no ensures of its own: the cases of the `switch`; `BatteryTextReadsBack` and `OtherStatusesBare` state which of them bracket the readout |
| `Battery.BatteryText` | desktop/sources/scripts/stats.js:138-152 | no ensures of its own: see `BatteryTextReadsBack`, `TrailingNewlineIgnored` and `OtherStatusesBare` |
| `Battery.ReadoutReadsBack` | desktop/sources/scripts/stats.js:142-152 | for a numeric level, the readout is bracketed exactly when charging, and taking off the brackets and percent sign gives the level back |
| `Battery.BatteryTextReadsBack` | desktop/sources/scripts/stats.js:138-152 | for a numeric capacity, the readout is bracketed exactly when the trimmed status is "Charging" or "Full", and it shows the trimmed capacity |
| `Battery.TrailingNewlineIgnored` | desktop/sources/scripts/stats.js:134-139 | the line feed that ends each attribute file does not change the readout |
| `Battery.OtherStatusesBare` | desktop/sources/scripts/stats.js:147-151 | every status other than "Charging" and "Full", listed or not, gives the bare `level%` |
| `Scroll.Ratio` | desktop/sources/scripts/stats.js:106-108 | the ratio is at most 1; 0 when there is nothing to scroll; exactly `scrollTop / scrollMax` whenever that quotient is below 1 (for a non-negative `scrollTop`), and any result below 1 is that quotient; 1 once `scrollTop` reaches a positive `scrollMax`; not negative for a positive scroll range, and negative when the textarea is taller than its content and scrolled |
| `Scroll.Bar` | desktop/sources/scripts/stats.js:109 | the bar has ten cells; `BarFillsPrefix` states which are filled |
| `Scroll.FilledCells` | desktop/sources/scripts/stats.js:109 | a ratio fills ten times itself rounded up, between 0 and 10 cells |
| `Scroll.BarFillsPrefix` | desktop/sources/scripts/stats.js:109 | the filled cells are exactly the first `FilledCells(ratio)` cells |
| `Scroll.PartialCellFills` | desktop/sources/scripts/stats.js:109 | a ratio above 0 and below a tenth already fills one cell |
| `Scroll.IndicatorOf` | desktop/sources/scripts/stats.js:109-111 | the indicator has ten cells of which exactly the first `FilledCells` of the ratio are filled, and shows the ratio times 100, which is at most 100 |
| `Synonyms.NextIndex` | desktop/sources/scripts/stats.js:41-43 | the cursor steps to the next row and wraps from the last row to the first |
| `Synonyms.AdvanceWithinRound` | desktop/sources/scripts/stats.js:41-43 | within one round, k steps move the cursor k rows on, wrapping past the last row |
| `Synonyms.FullCycle` | desktop/sources/scripts/stats.js:41-43 | as many steps as there are rows bring the cursor back to where it started |
| `Synonyms.Marks` | desktop/sources/scripts/stats.js:85 | exactly the one given row carries the `active` mark |
| `Synonyms.MarkMoves` | desktop/sources/scripts/stats.js:58-60 | moving the mark from the old row to the new one leaves exactly one mark, on the new row |
| `Synonyms.Step` | desktop/sources/scripts/stats.js:41-43 | the cursor becomes NaN exactly when it was NaN or the list is empty, and otherwise moves to the next row of the list, wrapping |
| `Synonyms.SynonymBrowser.constructor` | desktop/sources/scripts/stats.js:45-46 | no list is rendered, `left.synonyms` is null and the flag is down; the cursor is the editor's selection index as given, since the editor owns it |
| `Synonyms.SynonymBrowser.Hand` | desktop/sources/scripts/stats.js:22 | setting `left.synonyms` changes nothing else in the picker |
| `Synonyms.SynonymBrowser.Open` | desktop/sources/scripts/stats.js:74-90 | the cursor goes to 0; a non-empty `left.synonyms` becomes the rows with only the first marked; an empty one fails and leaves the old rows and marks; the flag is untouched |
| `Synonyms.SynonymBrowser.Next` | desktop/sources/scripts/stats.js:41-65 | raises the flag; with no rendered list or a null `left.synonyms` it fails and changes nothing else; otherwise the cursor takes a `Step` through `left.synonyms`, and it succeeds exactly when the old and new cursor are both on rendered rows, moving the mark (one mark stays one mark); when only the new cursor is off the rows, the old row loses its mark; when the list is the rendered one, a step from a row always succeeds and moves to the next row |
| `Synonyms.SynonymBrowser.Apply` | desktop/sources/scripts/stats.js:67-72 | does nothing exactly while the flag is down; once it is up, fails on a null `left.synonyms`, hands `undefined` to the replace callback for an empty list or a NaN cursor, and otherwise the synonym at the cursor modulo the list's length; with the rendered list and one mark, that is the marked row |
| `Synonyms.CycleThroughThree` | desktop/sources/scripts/stats.js:41-90 | with three synonyms, two steps mark the third, a third step wraps to the first, and applying then replaces with the first |
| `Synonyms.StepAfterEmptyList` | desktop/sources/scripts/stats.js:41-90 | after a list of two and then an empty list, a step loses the cursor and every mark, and applying hands `undefined` to the replace callback |
| `Synonyms.StepAfterListCleared` | desktop/sources/scripts/stats.js:41-72 | after a step through a list of two and `left.synonyms` cleared, a further step fails and applying fails for want of a list |
| `Synonyms.ApplyWithoutRendering` | desktop/sources/scripts/stats.js:48-72 | with a list handed over but never rendered, the first step fails before the cursor moves yet raises the flag, and applying reads the list at the editor's own cursor |
| `Synonyms.StepThroughLongerList` | desktop/sources/scripts/stats.js:41-72 | with three rows rendered and a list of four handed over, the third step leaves the rows, unmarking the last, and applying reads the fourth synonym |
| `Composer.SelectMode` | desktop/sources/scripts/stats.js:14-32 | the picked mode is one the snapshot calls for, and no mode it calls for comes earlier in the order insert, selection, synonyms, suggestion, URL, default |
| `Composer.SelectModeUnique` | desktop/sources/scripts/stats.js:14-32 | exactly one mode satisfies that description |
| `Composer.ViewIn` | desktop/sources/scripts/stats.js:14-32 | the view shown belongs to the mode asked for; it fails exactly when the selection or default view has no battery reading, or the synonym list is empty |
| `Composer.DefaultBody` | desktop/sources/scripts/stats.js:34-39 | the default body exists exactly when the battery could be read |
| `Composer.BodyOf` | desktop/sources/scripts/stats.js:34-39 | the default body's vocabulary lies between 1 and its word count |
| `Composer.Compose` | desktop/sources/scripts/stats.js:14-32 | `update` shows the view of the picked mode, and fails exactly when a view with statistics has no battery reading or the synonym list is empty |
| `Composer.InsertWins` | desktop/sources/scripts/stats.js:15-18 | in insert mode the insert status shows, whatever else the snapshot holds |
| `Composer.BatteryOnlyForStatistics` | desktop/sources/scripts/stats.js:20-31 | only the selection and default views depend on the battery reading |
| `Composer.SelectionExtendsDefault` | desktop/sources/scripts/stats.js:96-98 | the selection view is the `[start,end]` prefix followed by the default view of the same text and cursor |
| `Composer.StatusLine.constructor` | desktop/sources/scripts/stats.js:7-8 | the element starts blank with a fresh, empty picker whose cursor is the editor's selection index as given |
| `Composer.StatusLine.RenderDefault` | desktop/sources/scripts/stats.js:34-39 | `_default` parses and then reads the battery, giving the default body or nothing when the battery read fails |
| `Composer.StatusLine.Update` | desktop/sources/scripts/stats.js:14-32 | shows what `Compose` specifies; a failed battery read leaves the element as it was, an empty synonym list blanks it; every update records `left.synonyms` for the picker; only the synonym mode touches the rendered rows, marks and cursor: it resets the cursor, renders a non-empty list with one mark, and leaves the old rows and marks after an empty one; the flag is never cleared |
| `Composer.StatusLine.OnScroll` | desktop/sources/scripts/stats.js:105-112 | the element shows the scroll indicator for the current scroll position and the picker is untouched |

## Left out

- `desktop/main.js` is not part of this model: it creates the Electron window, handles the application lifecycle, adds the menu and toggles fullscreen and visibility, with no logic of its own.
- The markup of the views (`<b>`, `<span class='right'>`, the `fh` class, `<t>`, `&lt;c-b&gt;`) and the DOM calls (`createElement`, `appendChild`, `innerHTML`, `scrollIntoView`, `scrollLeft`, `install`) are left out. Views are datatypes holding the text they show, and the picker's `active` classes are a sequence of booleans.
- `toFixed(2)` and floating-point division: percentages and ratios are exact `real` numbers, and their decimal rendering is not modelled.
- Reading `/sys/class/power_supply/BAT0/capacity` and `status`: the two texts are parameters, and a failed read is `None`.
- `new Date()`: hours and minutes are parameters.
- `left.insert.status()` belongs to another component: its text is a field of the snapshot.
- `left.replace_active_word_with` belongs to the editor: `Apply` returns the word it would receive.
- The asynchronous interleaving of `update`, `_selection`, `_default` and `battery` is not modelled: each update runs to completion.
- `Synonyms.SynonymBrowser.Apply` and `Next` read `left.synonyms` as the last update saw it, in whatever mode. A change made by another component after that update and before the step or the replacement is not seen.
- Lengths and offsets are counted in characters, not UTF-16 code units, so text outside the Basic Multilingual Plane is measured differently.
- `Strings.Lower` lower-cases ASCII letters only. The few non-ASCII characters whose JavaScript lower case is an ASCII letter (the Kelvin sign, a dotted capital I) are dropped by the filter in the model instead of counted.
- The unused `special` parameter of `update` is left out.
