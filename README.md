# ik_suggest: an accessible suggest-as-you-type field, modelled in Dafny

`ik_suggest` is a jQuery plugin that turns a text input into an autocomplete
field. It is built with a fixed pool of candidate strings. On every key-up
that is not an arrow key, it filters the pool by the field's text and renders
the matches as a list. ArrowDown and ArrowUp move a `selected` class through
that list and read the selected item out through a hidden live region for
screen readers. Enter, a click, Tab, Esc and focus-out close the list; Enter
and a click also copy an item's text into the field.

The model has three modules:

- `Matching` (matching.dfy) is the test that `getSuggestions` runs on each
  candidate. The pattern is `(\b` + text `)` with the `i` flag. For a text
  without regular-expression metacharacters this is: there is a position in
  the candidate that is a word boundary and where the text starts, with ASCII
  letters compared up to case.
- `Suggest` (suggestions.dfy) gives the result of `getSuggestions` as a
  function, `Suggestions`. It is empty when the text is shorter than
  `minLength`; otherwise it is `Take(maxResults + 1, Filter(text, source))`.
  The lemmas say what it means: the first matching candidates in source
  order, at most `maxResults + 1` of them, and fewer only when fewer match.
- `Widget` (widget.dfy) is the widget's state: field text, rendered items,
  selected item, list visibility and live-region text. Each event handler is
  a function from the old state to the new one. `ValidState` is the invariant
  that every handler keeps. The class `Plugin` holds the same state in fields
  and has one method per handler. Each method is proved to change the fields
  exactly as the matching function says. `Plugin.GetSuggestions` is the
  source's `for` loop with its early `break`, proved equal to `Suggestions`.

The model follows the code where the code and its documentation differ:

- The cap is tested before each push (assets/ik_suggest.js:229). So the list
  holds up to `maxResults + 1` items, although the option is documented as the
  maximum number shown (assets/ik_suggest.js:17). A negative `maxResults`
  gives an empty list.
- Enter with nothing selected sets the field to `""`. This is `.text()` of an
  empty jQuery set (assets/ik_suggest.js:88-89).
- ArrowDown past the last item, and ArrowUp before the first, select nothing
  and set the live region to `""`. ArrowUp with nothing selected passes
  `undefined` to `.text()`, which does nothing (assets/ik_suggest.js:131-134).
- Every other key-up rebuilds the list, including the key-up of Enter and Esc.
  So pressing Enter commits the selected item on key-down, and the key-up then
  lists the suggestions for the committed text
  (`Widget.EnterPressRebuildsForCommittedText`).
- The set-up never hides the list. The model therefore starts with an empty,
  shown list, and the invariant is "a non-empty list is shown" rather than
  "shown exactly when non-empty".
- The word boundary `\b` does not hold in the middle of a word. So with the
  pool apple, apricot, banana, the text "an" gets no suggestions: its only
  occurrence is inside "banana" (`Suggest.Scenario`).

The regular expression is global (`g` flag), and the same object is reused
across candidates, so `test` changes its `lastIndex`. This does not change
which candidates match. A failed `test` resets `lastIndex` to 0. After a
successful one, the `replace` with the same global expression finishes with
`lastIndex` at 0. Every `test` therefore starts at position 0, as the model's
`Matches` does.

Inputs from outside the code are parameters or events. The field's text
changes by the browser's editing; this is the `Input` event and the
`Plugin.Edit` method. Clicks name the index of a rendered item.

## Model

| member | source | states |
|---|---|---|
| `Matching.MatchesIgnoresCase` | assets/ik_suggest.js:222-223 | because of the `i` flag, two texts equal up to ASCII case match exactly the same candidates |
| `Matching.PrefixMatches` | assets/ik_suggest.js:222-223 | a text typed as the beginning of a candidate that starts with a word character matches it |
| `Matching.Matches` | assets/ik_suggest.js:222-232 | definition of `regex.test(candidate)` for a literal text: some position of the candidate is a word boundary and the text follows it there, up to ASCII case |
| `Matching.MatchesIgnoresCandidateCase` | assets/ik_suggest.js:222-223 | because of the `i` flag, two candidates equal up to ASCII case are matched by exactly the same texts |
| `Matching.FoldKeepsWordChar` | assets/ik_suggest.js:222-223 | folding case never changes whether a character is a word character, so `\b` is unaffected by case |
| `Matching.NoMatchInsideWordAt` | assets/ik_suggest.js:222 | for any text and candidate, no match starts at a position with a word character on both sides: `\b` fails inside a word |
| `Matching.NoMatchInsideWord` | assets/ik_suggest.js:222 | instance of the rule above: "an" does not match "banana", but it matches "an apple" at the start |
| `Suggest.Filter` | assets/ik_suggest.js:228-235 | definition: the candidates the text matches, in source order, as the loop would collect them without the cap |
| `Suggest.Suggestions` | assets/ik_suggest.js:217-242 | definition of the returned list: empty when the text is shorter than `minLength`, otherwise the first `maxResults + 1` entries of `Filter` |
| `Suggest.Take` | assets/ik_suggest.js:229-230 | stopping the loop at the cap keeps a prefix of the matches, of length min(cap, number of matches) |
| `Suggest.FilterConcat` | assets/ik_suggest.js:228-235 | the matches of two consecutive runs of candidates are the matches of the first followed by those of the second |
| `Suggest.FilterMembers` | assets/ik_suggest.js:232-233 | a string is among the matches exactly when it is a candidate and the text matches it |
| `Suggest.FilterCounts` | assets/ik_suggest.js:228-235 | every occurrence of a matching candidate is kept and every occurrence of a non-matching one is dropped |
| `Suggest.FilterIsSubsequence` | assets/ik_suggest.js:228-235 | the matches keep the order of the source |
| `Suggest.SubsequencePrefix` | assets/ik_suggest.js:228-235 | cutting the matches short still leaves them in source order |
| `Suggest.FilterPrefixIsTake` | assets/ik_suggest.js:229-231 | breaking out once the list is full gives the same list as collecting all matches and keeping that many |
| `Suggest.ShortQueryHasNoSuggestions` | assets/ik_suggest.js:224-227 | a text shorter than `minLength` gets an empty list |
| `Suggest.SuggestionsAreFirstMatches` | assets/ik_suggest.js:227-235 | otherwise the list is the first min(`maxResults + 1`, number of matches) matching candidates in source order; it is shorter than the cap only when it holds every match; every item matches and comes from the source |
| `Suggest.SuggestionsBounded` | assets/ik_suggest.js:221-236 | for any text the list has at most `maxResults + 1` items, all candidates, in source order |
| `Suggest.Scenario` | assets/ik_suggest.js:217-244 | with pool apple, apricot, banana, `minLength` 2 and `maxResults` 10: "ap" gives apple, apricot; "an" and "a" give nothing |
| `Widget.Plugin.GetSuggestions` | assets/ik_suggest.js:217-244 | the loop with its early `break` returns exactly `Suggestions(arr, str, minLength, maxResults)`; the live region becomes the fixed instruction sentence when the list is non-empty and is unchanged otherwise |
| `Widget.WithDefaults` | assets/ik_suggest.js:3-22 | definition of `$.extend({}, defaults, options)` on the three options the handlers read: a given option wins, an omitted one takes its default (`source` [], `minLength` 2, `maxResults` 10) |
| `Widget.OptionsFallBackToDefaults` | assets/ik_suggest.js:3-22 | each option in force is the page's when given and the default when omitted, independently of the others |
| `Widget.Plugin.constructor` | assets/ik_suggest.js:19-62 | the widget starts with the page's options merged over the defaults and the field's text, no items, nothing selected, an empty live region, and satisfies the invariant |
| `Widget.Plugin.ClearList` | assets/ik_suggest.js:82 | `list.empty().hide()` leaves no items, no selection and a hidden list |
| `Widget.Plugin.OnKeyDown` | assets/ik_suggest.js:71-96 | the key-down handler changes the state as `KeyDown` does and keeps the invariant |
| `Widget.Plugin.OnKeyUp` | assets/ik_suggest.js:105-158 | the key-up handler changes the state as `KeyUp` does and keeps the invariant |
| `Widget.Plugin.SelectNext` | assets/ik_suggest.js:114-125 | the ArrowDown branch changes only the selection and the live region, as `ArrowDown` does, and keeps the invariant |
| `Widget.Plugin.SelectPrevious` | assets/ik_suggest.js:127-136 | the ArrowUp branch changes only the selection and the live region, as `ArrowUp` does, and keeps the invariant |
| `Widget.Plugin.RebuildList` | assets/ik_suggest.js:138-156 | the default branch rebuilds the state as `Rebuild` does and keeps the invariant |
| `Widget.Plugin.OnOptionClick` | assets/ik_suggest.js:197-209 | the click handler changes the state as `OptionClick` does and keeps the invariant |
| `Widget.Plugin.OnFocusOut` | assets/ik_suggest.js:182-188 | the focus-out clear changes the state as `FocusOut` does and keeps the invariant |
| `Widget.Plugin.Edit` | assets/ik_suggest.js:140 | the browser's edit of the field changes only the text that the next key-up reads, and keeps the invariant |
| `Widget.Announce` | assets/ik_suggest.js:238-240 | definition of the live region after a rebuild: the instruction sentence when the list is non-empty, otherwise unchanged |
| `Widget.TextOf` | assets/ik_suggest.js:88-89 | definition of `.text()` of the selected item: its plain text, or `""` when no item carries `selected` |
| `Widget.Initial` | assets/ik_suggest.js:36-60 | definition of the state after set-up: an empty live region and an empty list that is not hidden |
| `Widget.Cleared` | assets/ik_suggest.js:82 | definition of `list.empty().hide()`: no items, so no selection, and the list hidden; field and live region untouched |
| `Widget.KeyDown` | assets/ik_suggest.js:71-96 | definition of the key-down handler: Tab and Esc clear, Enter sets the field to `TextOf` the selection and clears, other keys do nothing |
| `Widget.KeyUp` | assets/ik_suggest.js:105-158 | definition of the key-up handler: dispatches ArrowDown, ArrowUp, and every other key to the rebuild |
| `Widget.ArrowDown` | assets/ik_suggest.js:114-125 | definition of ArrowDown: the next item, or the first with no selection, or none past the end; the live region gets `.text()` of the result |
| `Widget.ArrowUp` | assets/ik_suggest.js:127-136 | definition of ArrowUp: the previous item, or none before the first; the live region gets `.text()` of the result; no change with no selection |
| `Widget.Rebuild` | assets/ik_suggest.js:138-156 | definition of the default key-up branch: items become `Suggestions` of the field's text, no selection, shown iff non-empty, live region by `Announce` |
| `Widget.OptionClick` | assets/ik_suggest.js:197-208 | definition of the click handler: the field gets the clicked item's text, then the list is cleared |
| `Widget.FocusOut` | assets/ik_suggest.js:186 | definition of the focus-out clear, taken as immediate |
| `Widget.InitialIsValid` | assets/ik_suggest.js:30-62 | the state after set-up satisfies the invariant |
| `Widget.SelectedTextIsCandidate` | assets/ik_suggest.js:119-121 | in a valid state, the text of any item the arrows can select is a candidate of the source |
| `Widget.TabAndEscClose` | assets/ik_suggest.js:79-84 | Tab and Esc on key-down empty and hide the list and clear the selection; the field text and live region stay |
| `Widget.FocusOutCloses` | assets/ik_suggest.js:186 | focus-out empties and hides the list and clears the selection; the field text stays |
| `Widget.ClickCommits` | assets/ik_suggest.js:197-207 | a click on item i sets the field to that item's text, then empties and hides the list |
| `Widget.EnterCommits` | assets/ik_suggest.js:86-91 | Enter on key-down sets the field to the selected item's text, or `""` when none is selected; it empties and hides the list and leaves the live region |
| `Widget.ArrowDownMoves` | assets/ik_suggest.js:114-125 | with no selection, ArrowDown selects the first item, or nothing if the list is empty; from item i it selects i + 1, or nothing after the last; the live region reads the new item, or `""` when none; items, text and visibility stay |
| `Widget.ArrowUpMoves` | assets/ik_suggest.js:127-136 | from item i, ArrowUp selects i - 1, or nothing from the first, and the live region reads the new item or `""`; with no selection the state does not change |
| `Widget.OtherKeyUpRebuilds` | assets/ik_suggest.js:138-156 | any other key-up makes the items the suggestions for the field's text; nothing is selected; the list is shown exactly when non-empty; the live region gets the instructions only then |
| `Widget.EnterPressRebuildsForCommittedText` | assets/ik_suggest.js:86-154 | the key-down of Enter commits the selected item, and the key-up that follows lists the suggestions for the committed text |
| `Widget.ArrowDownPreservesValid` | assets/ik_suggest.js:114-125 | ArrowDown keeps the invariant: the new selection is in range and the live region reads a candidate or `""` |
| `Widget.ArrowUpPreservesValid` | assets/ik_suggest.js:127-136 | ArrowUp keeps the invariant in the same way |
| `Widget.RebuildPreservesValid` | assets/ik_suggest.js:138-156 | the rebuild keeps the invariant: at most `maxResults + 1` candidates in source order, a non-empty list shown, the live region `""`, the instructions or a candidate |
| `Widget.StepPreservesValid` | assets/ik_suggest.js:71-209 | every handler keeps the invariant: at most one selected item, and it is in range; a non-empty list is shown; at most `maxResults + 1` items, in source order; the live region holds `""`, the instructions or a candidate |
| `Widget.RunPreservesValid` | assets/ik_suggest.js:71-209 | every sequence of events from a valid state ends in a valid state |
| `Widget.CommitIsCandidate` | assets/ik_suggest.js:86-207 | after Enter or a click, the field holds a candidate of the source, or `""` (Enter with nothing selected) |
| `Widget.DownsKeepItems` | assets/ik_suggest.js:114-125 | pressing ArrowDown any number of times does not change the items |
| `Widget.DownsWalkTheList` | assets/ik_suggest.js:114-125 | from no selection, the k-th ArrowDown selects item k - 1 and reads it out; one press after the last selects nothing and reads `""` (no wrap-around) |
| `Widget.UpsKeepItems` | assets/ik_suggest.js:127-136 | pressing ArrowUp any number of times does not change the items |
| `Widget.TypeAp` | assets/ik_suggest.js:138-154 | on the pool apple, apricot, banana with default limits, typing "ap" then a key-up lists apple and apricot, shown, nothing selected |
| `Widget.ChooseSecond` | assets/ik_suggest.js:86-125 | on that list, two ArrowDown key-ups select and read out apricot, and Enter's key-down puts apricot in the field and empties and hides the list, the live region still reading apricot |
| `Widget.TypingAndChoosing` | assets/ik_suggest.js:86-154 | a fresh widget fed "ap", a key-up, two ArrowDowns and Enter ends with apricot in the field and the list emptied, hidden and valid |
| `Widget.TypingAndClicking` | assets/ik_suggest.js:138-207 | a fresh widget fed "ap" and a key-up, then a click on the second item, ends with apricot in the field and the list emptied, hidden and valid |
| `Widget.UpsWalkBack` | assets/ik_suggest.js:127-136 | from item i, k ≤ i presses of ArrowUp select item i - k; any more select nothing and leave the live region `""` |

## Left out

- DOM and jQuery set-up (wrapping the input, attributes, creating the list and
  live region, registering the plugin, assets/ik_suggest.js:30-62 and 246-257).
  This is presentation. Only the resulting initial state is modelled.
- The `#country` focus-in handler that writes the default instructions
  (assets/ik_suggest.js:45-47). It is tied to one page's element id. The
  unbound `onFocusIn` (assets/ik_suggest.js:167-173) is left out too.
- The 200 ms delay of the focus-out clear (assets/ik_suggest.js:186). It
  depends on timers and the event loop. The clear is an immediate event,
  ordered with the other events by the caller. The race with a list rebuilt
  during the delay is therefore not modelled.
- Matching.Matches: it equals the source's regular expression only for a text
  without metacharacters. Other texts are matched literally in the model. In
  the source they act as operators, or make `new RegExp` throw, which aborts
  the key-up handler.
- Matching.Fold: case is folded on ASCII letters only. The `i` flag also folds
  other letters (é and É, for instance).
- Lengths count characters, whereas `str.length` counts UTF-16 code units.
- The highlight markup (`<span>` around each match, assets/ik_suggest.js:233).
  Items are the plain candidate strings, which is what `.text()` reads back.
  This assumes, as the model does, that candidates contain no HTML markup or
  entities, since `.html()` would interpret them.
- Key codes (`ik_utils.keys`) are not part of this model. Keys are an
  enumeration in which every key other than Tab, Esc, Enter, Down and Up is
  `Other`.
- Options that are not integers, options other than the three the handlers
  read, and the `instructions` option (the handlers never read it). An option
  passed as `undefined` is the same as one left out (`None`); `$.extend`
  skips both.
