/** The autocomplete widget without its DOM: the text of the field, the rendered
    suggestion items, which item carries the `selected` class, whether the list
    is shown, and the text of the hidden live region read by screen readers.
    Each event handler is a function from the old state to the new one; the
    class `Plugin` holds the same state in fields and has one method per
    handler, proved to follow those functions. */
module Widget {
  import opened Matching
  import opened Suggest

  datatype Option<T> = None | Some(value: T)

  /** The keys the handlers tell apart; every other key is `Other`. */
  datatype Key = Tab | Esc | Enter | Down | Up | Other

  /** The options in force once the plugin is constructed (the instructions text is not used by
      the handlers). */
  datatype Config = Config(source: seq<string>, minLength: int, maxResults: int)

  /** The options a page passes to the plugin; each one may be left out. */
  datatype UserOptions = UserOptions(source: Option<seq<string>>, minLength: Option<int>, maxResults: Option<int>)

  /** The plugin's defaults: an empty pool, two characters before suggesting, ten results. */
  const Defaults: Config := Config([], 2, 10)

  /** The options merged over the defaults: an option that is given wins, one left out takes its default. */
  function WithDefaults(o: UserOptions): Config
  {
    Config(
      if o.source.Some? then o.source.value else Defaults.source,
      if o.minLength.Some? then o.minLength.value else Defaults.minLength,
      if o.maxResults.Some? then o.maxResults.value else Defaults.maxResults)
  }

  /** Each option is the given one when present and the default otherwise, independently of the others. */
  lemma OptionsFallBackToDefaults(o: UserOptions)
    ensures var c := WithDefaults(o);
            && (o.source.Some? ==> c.source == o.source.value) && (o.source.None? ==> c.source == [])
            && (o.minLength.Some? ==> c.minLength == o.minLength.value) && (o.minLength.None? ==> c.minLength == 2)
            && (o.maxResults.Some? ==> c.maxResults == o.maxResults.value) && (o.maxResults.None? ==> c.maxResults == 10)
  {
  }

  /** The widget as the handlers see it. Items are the plain candidate texts: the highlight
      markup around the match is dropped by `.text()` wherever an item's text is read. */
  datatype State = State(
    value: string,             // the field's value
    items: seq<string>,        // the `li` elements of the suggestion list, in order
    selected: Option<nat>,     // the item with the class `selected`, if any
    visible: bool,             // the list is shown
    announcement: string)      // the text of the live region

  /** The sentence written to the live region whenever suggestions are found. */
  const Instructions: string :=
    "Suggestions are available for this field. Use up and down arrows to select a suggestion and enter key to use it."

  /** The live region after building the list r: the instructions when r is non-empty, else unchanged. */
  function Announce(announcement: string, r: seq<string>): string
  {
    if r != [] then Instructions else announcement
  }

  /** `.text()` of the selected item: its text, or "" for an empty selection. */
  function TextOf(items: seq<string>, sel: Option<nat>): string
  {
    if sel.Some? && sel.value < |items| then items[sel.value] else ""
  }

  /** The state right after construction: no items, nothing selected, an empty live region;
      the list is never hidden by the set-up, so it starts out shown (and empty). */
  function Initial(value: string): State
  {
    State(value, [], None, true, "")
  }

  /** The states the handlers keep: the selection is one item of the list, a non-empty list is
      shown, the items are at most `maxResults + 1` candidates in source order, and the live
      region holds nothing, the instructions, or a candidate. */
  predicate ValidState(cfg: Config, s: State)
  {
    && (s.selected.Some? ==> s.selected.value < |s.items|)
    && (s.items != [] ==> s.visible)
    && |s.items| <= Cap(cfg.maxResults)
    && IsSubsequence(s.items, cfg.source)
    && (s.announcement == "" || s.announcement == Instructions || s.announcement in cfg.source)
  }

  /** `list.empty().hide()`: no items, hence no selection, and the list hidden. */
  function Cleared(s: State): State
  {
    s.(items := [], selected := None, visible := false)
  }

  /** The key-down handler: Tab and Esc close the list; Enter copies the selected item's text
      (or "" when none is selected) into the field and closes the list; other keys do nothing. */
  function KeyDown(s: State, k: Key): State
  {
    match k
    case Tab => Cleared(s)
    case Esc => Cleared(s)
    case Enter => Cleared(s.(value := TextOf(s.items, s.selected)))
    case _ => s
  }

  /** ArrowDown on key-up: the class moves to the next item (to the first when nothing is
      selected) and falls off after the last; the live region reads the new item's text, "" if none. */
  function ArrowDown(s: State): State
  {
    var sel := match s.selected
      case None => if 0 < |s.items| then Some(0) else None
      case Some(i) => if i + 1 < |s.items| then Some(i + 1) else None;
    s.(selected := sel, announcement := TextOf(s.items, sel))
  }

  /** ArrowUp on key-up: the class moves to the previous item and falls off before the first,
      the live region reading the new item's text; with nothing selected, nothing happens. */
  function ArrowUp(s: State): State
  {
    match s.selected
    case None => s
    case Some(i) =>
      var sel := if 0 < i && i - 1 < |s.items| then Some(i - 1) else None;
      s.(selected := sel, announcement := TextOf(s.items, sel))
  }

  /** Any other key-up rebuilds the list from the field's value: the items become the
      suggestions, nothing is selected, the list is shown exactly when it is non-empty. */
  function Rebuild(cfg: Config, s: State): State
  {
    var r := Suggestions(cfg.source, s.value, cfg.minLength, cfg.maxResults);
    State(s.value, r, None, r != [], Announce(s.announcement, r))
  }

  /** The key-up handler. */
  function KeyUp(cfg: Config, s: State, k: Key): State
  {
    match k
    case Down => ArrowDown(s)
    case Up => ArrowUp(s)
    case _ => Rebuild(cfg, s)
  }

  /** A click on item i copies its text into the field and closes the list. */
  function OptionClick(s: State, i: nat): State
    requires i < |s.items|
  {
    Cleared(s.(value := s.items[i]))
  }

  /** The delayed clear scheduled by focus-out, taken as happening at once. */
  function FocusOut(s: State): State
  {
    Cleared(s)
  }

  /** The events that reach the widget; `Input` is the browser editing the field's text. */
  datatype Event = KeyDownEvent(key: Key) | KeyUpEvent(key: Key) | Click(index: nat) | Blur | Input(text: string)

  /** An event can happen: a click is on an item that is rendered. */
  predicate Enabled(s: State, e: Event)
  {
    e.Click? ==> e.index < |s.items|
  }

  function Step(cfg: Config, s: State, e: Event): State
    requires Enabled(s, e)
  {
    match e
    case KeyDownEvent(k) => KeyDown(s, k)
    case KeyUpEvent(k) => KeyUp(cfg, s, k)
    case Click(i) => OptionClick(s, i)
    case Blur => FocusOut(s)
    case Input(t) => s.(value := t)
  }

  /** Every event of es can happen when its turn comes. */
  predicate EnabledRun(cfg: Config, s: State, es: seq<Event>)
    decreases |es|
  {
    es == [] || (Enabled(s, es[0]) && EnabledRun(cfg, Step(cfg, s, es[0]), es[1..]))
  }

  function Run(cfg: Config, s: State, es: seq<Event>): State
    requires EnabledRun(cfg, s, es)
    decreases |es|
  {
    if es == [] then s else Run(cfg, Step(cfg, s, es[0]), es[1..])
  }

  // ---------------------------------------------------------------------------
  // What each handler does

  lemma InitialIsValid(cfg: Config, value: string)
    ensures ValidState(cfg, Initial(value))
  {
  }

  /** A selected item's text, when the state is valid, is a candidate of the source. */
  lemma SelectedTextIsCandidate(cfg: Config, s: State, sel: Option<nat>)
    requires ValidState(cfg, s)
    ensures TextOf(s.items, sel) == "" || TextOf(s.items, sel) in cfg.source
  {
    SubsequenceMembers(s.items, cfg.source);
  }

  /** Tab and Esc on key-down empty and hide the list, whatever was selected; the field keeps its text. */
  lemma TabAndEscClose(s: State, k: Key)
    requires k == Tab || k == Esc
    ensures var t := KeyDown(s, k);
            t.items == [] && !t.visible && t.selected == None && t.value == s.value
            && t.announcement == s.announcement
  {
  }

  /** Focus-out empties and hides the list, whatever was selected; the field keeps its text. */
  lemma FocusOutCloses(s: State)
    ensures var t := FocusOut(s);
            t.items == [] && !t.visible && t.selected == None && t.value == s.value
            && t.announcement == s.announcement
  {
  }

  /** A click on item i puts that item's text in the field and empties and hides the list. */
  lemma ClickCommits(s: State, i: nat)
    requires i < |s.items|
    ensures var t := OptionClick(s, i);
            t.items == [] && !t.visible && t.selected == None && t.value == s.items[i]
            && t.announcement == s.announcement
  {
  }

  /** Enter on key-down puts the selected item's text in the field, or "" when nothing is
      selected, and empties and hides the list; the live region is left as it was. */
  lemma EnterCommits(s: State)
    requires s.selected.Some? ==> s.selected.value < |s.items|
    ensures var t := KeyDown(s, Enter);
            && t.value == (if s.selected.Some? then s.items[s.selected.value] else "")
            && t.items == [] && !t.visible && t.selected == None
            && t.announcement == s.announcement
  {
  }

  /** ArrowDown: nothing selected goes to the first item (nothing if the list is empty); item i
      goes to i + 1, or to nothing after the last; the live region reads the new item or "". */
  lemma ArrowDownMoves(cfg: Config, s: State)
    ensures var t := KeyUp(cfg, s, Down);
            && t.items == s.items && t.value == s.value && t.visible == s.visible
            && (s.selected.None? ==> t.selected == (if s.items == [] then None else Some(0)))
            && (s.selected.Some? ==>
                  t.selected == (if s.selected.value + 1 < |s.items| then Some(s.selected.value + 1) else None))
            && t.announcement == (if t.selected.Some? then s.items[t.selected.value] else "")
  {
  }

  /** ArrowUp: item i goes to i - 1, or to nothing from the first, the live region reading the
      new item or ""; with nothing selected the state does not change at all. */
  lemma ArrowUpMoves(cfg: Config, s: State)
    requires s.selected.Some? ==> s.selected.value < |s.items|
    ensures var t := KeyUp(cfg, s, Up);
            && t.items == s.items && t.value == s.value && t.visible == s.visible
            && (s.selected.None? ==> t == s)
            && (s.selected.Some? ==>
                  && t.selected == (if s.selected.value > 0 then Some(s.selected.value - 1) else None)
                  && t.announcement == (if t.selected.Some? then s.items[t.selected.value] else ""))
  {
  }

  /** Every key-up other than the arrows, Enter and Esc included, rebuilds the list from the
      field's value: the items are its suggestions, nothing is selected, the list is shown
      exactly when it is non-empty, and the live region gets the instructions only then. */
  lemma OtherKeyUpRebuilds(cfg: Config, s: State, k: Key)
    requires k != Down && k != Up
    ensures var t := KeyUp(cfg, s, k);
            && t.items == Suggestions(cfg.source, s.value, cfg.minLength, cfg.maxResults)
            && t.selected == None && (t.visible <==> t.items != []) && t.value == s.value
            && t.announcement == (if t.items != [] then Instructions else s.announcement)
  {
  }

  /** Pressing Enter is a key-down followed by a key-up: the key-down commits the selection, the
      key-up then rebuilds the list for the committed text. */
  lemma EnterPressRebuildsForCommittedText(cfg: Config, s: State)
    requires s.selected.Some? && s.selected.value < |s.items|
    ensures var t := KeyUp(cfg, KeyDown(s, Enter), Enter);
            t.value == s.items[s.selected.value]
            && t.items == Suggestions(cfg.source, s.items[s.selected.value], cfg.minLength, cfg.maxResults)
  {
  }

  // ---------------------------------------------------------------------------
  // The invariant

  lemma ArrowDownPreservesValid(cfg: Config, s: State)
    requires ValidState(cfg, s)
    ensures ValidState(cfg, ArrowDown(s))
  {
    SelectedTextIsCandidate(cfg, s, ArrowDown(s).selected);
  }

  lemma ArrowUpPreservesValid(cfg: Config, s: State)
    requires ValidState(cfg, s)
    ensures ValidState(cfg, ArrowUp(s))
  {
    SelectedTextIsCandidate(cfg, s, ArrowUp(s).selected);
  }

  lemma RebuildPreservesValid(cfg: Config, s: State)
    requires ValidState(cfg, s)
    ensures ValidState(cfg, Rebuild(cfg, s))
  {
    SuggestionsBounded(cfg.source, s.value, cfg.minLength, cfg.maxResults);
  }

  /** Every handler keeps the invariant. */
  lemma StepPreservesValid(cfg: Config, s: State, e: Event)
    requires ValidState(cfg, s) && Enabled(s, e)
    ensures ValidState(cfg, Step(cfg, s, e))
  {
    match e {
      case KeyUpEvent(k) =>
        match k {
          case Down => ArrowDownPreservesValid(cfg, s);
          case Up => ArrowUpPreservesValid(cfg, s);
          case _ => RebuildPreservesValid(cfg, s);
        }
      case _ =>
    }
  }

  /** Every state reached from the initial one by any run of events is valid; in particular at
      most one item is ever selected and it is always one of the rendered items. */
  lemma {:induction false} RunPreservesValid(cfg: Config, s: State, es: seq<Event>)
    requires ValidState(cfg, s) && EnabledRun(cfg, s, es)
    ensures ValidState(cfg, Run(cfg, s, es))
    decreases |es|
  {
    if es != [] {
      StepPreservesValid(cfg, s, es[0]);
      RunPreservesValid(cfg, Step(cfg, s, es[0]), es[1..]);
    }
  }

  /** A committed value is always a candidate of the source, or "" for Enter with nothing selected. */
  lemma CommitIsCandidate(cfg: Config, s: State, e: Event)
    requires ValidState(cfg, s) && Enabled(s, e)
    requires e == KeyDownEvent(Enter) || e.Click?
    ensures var t := Step(cfg, s, e); t.value == "" || t.value in cfg.source
  {
    SubsequenceMembers(s.items, cfg.source);
  }

  // ---------------------------------------------------------------------------
  // Walking the list with the arrows

  /** n presses of ArrowDown. */
  function Downs(s: State, n: nat): State
  {
    if n == 0 then s else ArrowDown(Downs(s, n - 1))
  }

  /** n presses of ArrowUp. */
  function Ups(s: State, n: nat): State
  {
    if n == 0 then s else ArrowUp(Ups(s, n - 1))
  }

  lemma {:induction false} DownsKeepItems(s: State, n: nat)
    ensures Downs(s, n).items == s.items
  {
    if n > 0 { DownsKeepItems(s, n - 1); }
  }

  /** From no selection, the k-th ArrowDown selects item k - 1 and reads it out, for every item in
      turn; one more press after the last selects nothing and empties the live region (no wrap). */
  lemma {:induction false} DownsWalkTheList(s: State, k: nat)
    requires s.selected.None? && k <= |s.items|
    ensures Downs(s, k).selected == (if k == 0 then None else Some(k - 1))
    ensures k > 0 ==> Downs(s, k).announcement == s.items[k - 1]
    ensures k == |s.items| ==> Downs(s, k + 1).selected == None && Downs(s, k + 1).announcement == ""
  {
    if k > 0 {
      DownsWalkTheList(s, k - 1);
      DownsKeepItems(s, k - 1);
    }
    DownsKeepItems(s, k);
  }

  lemma {:induction false} UpsKeepItems(s: State, n: nat)
    ensures Ups(s, n).items == s.items
  {
    if n > 0 { UpsKeepItems(s, n - 1); }
  }

  /** From item i, k <= i presses of ArrowUp select item i - k; one more selects nothing, and from
      then on ArrowUp changes nothing. */
  lemma {:induction false} UpsWalkBack(s: State, i: nat, k: nat)
    requires s.selected == Some(i) && i < |s.items|
    ensures k <= i ==> Ups(s, k).selected == Some(i - k)
    ensures k > i ==> Ups(s, k).selected == None && Ups(s, k).announcement == ""
  {
    if k > 0 {
      UpsWalkBack(s, i, k - 1);
      UpsKeepItems(s, k - 1);
    }
  }

  // ---------------------------------------------------------------------------
  // The plugin object

  /** One widget instance: the options it was built with and the state its handlers update in
      place. Each handler method is proved to change the state as the function of the same
      event does, and to keep the invariant. */
  class Plugin {
    const source: seq<string>
    const minLength: int
    const maxResults: int
    var value: string
    var items: seq<string>
    var selected: Option<nat>
    var visible: bool
    var announcement: string

    function Options(): Config
    {
      Config(source, minLength, maxResults)
    }

    function Snapshot(): State
      reads this
    {
      State(value, items, selected, visible, announcement)
    }

    ghost predicate Valid()
      reads this
    {
      ValidState(Options(), Snapshot())
    }

    /** Attaches the widget to a field whose current text is `value`, with the page's options merged over the defaults. */
    constructor (options: UserOptions, value: string)
      ensures Options() == WithDefaults(options)
      ensures Snapshot() == Initial(value) && Valid()
    {
      var merged := WithDefaults(options);
      source, minLength, maxResults := merged.source, merged.minLength, merged.maxResults;
      this.value := value;
      items, selected, visible, announcement := [], None, true, "";
    }

    /** Collects the matching candidates of arr in order, stopping once the list holds more than
        `maxResults`, and writes the instructions to the live region if anything was found. */
    method GetSuggestions(arr: seq<string>, str: string) returns (r: seq<string>)
      modifies this`announcement
      ensures r == Suggestions(arr, str, minLength, maxResults)
      ensures announcement == Announce(old(announcement), r)
    {
      r := [];
      if |str| >= minLength {
        var i := 0;
        while i < |arr|
          invariant 0 <= i <= |arr|
          invariant r == Filter(str, arr[..i])
          invariant |r| <= Cap(maxResults)
          invariant announcement == old(announcement)
        {
          if |r| > maxResults {
            break;
          }
          assert arr[..i + 1] == arr[..i] + [arr[i]];
          FilterSnoc(str, arr[..i], arr[i]);
          if Matches(str, arr[i]) {
            r := r + [arr[i]];
          }
          i := i + 1;
        }
        assert i == |arr| ==> arr[..i] == arr;
        FilterPrefixIsTake(str, arr, i, |r|);
      }
      if r != [] {
        announcement := Instructions;
      }
    }

    /** `list.empty().hide()`. */
    method ClearList()
      modifies this`items, this`selected, this`visible
      ensures items == [] && selected == None && !visible
    {
      items := [];
      selected := None;
      visible := false;
    }

    method OnKeyDown(k: Key)
      requires Valid()
      modifies this
      ensures Valid()
      ensures Snapshot() == KeyDown(old(Snapshot()), k)
    {
      StepPreservesValid(Options(), Snapshot(), KeyDownEvent(k));
      match k {
        case Tab =>
          ClearList();
        case Esc =>
          ClearList();
        case Enter =>
          value := if selected.Some? then items[selected.value] else "";
          ClearList();
        case _ =>
      }
    }

    method OnKeyUp(k: Key)
      requires Valid()
      modifies this
      ensures Valid()
      ensures Snapshot() == KeyUp(Options(), old(Snapshot()), k)
    {
      match k {
        case Down => SelectNext();
        case Up => SelectPrevious();
        case _ => RebuildList();
      }
    }

    /** ArrowDown: the `selected` class moves to the next item, and the live region reads it. */
    method SelectNext()
      requires Valid()
      modifies this`selected, this`announcement
      ensures Valid()
      ensures Snapshot() == ArrowDown(old(Snapshot()))
    {
      ArrowDownPreservesValid(Options(), Snapshot());
      var next: Option<nat>;
      if selected.Some? {
        next := if selected.value + 1 < |items| then Some(selected.value + 1) else None;
      } else {
        next := if 0 < |items| then Some(0) else None;
      }
      selected := next;
      announcement := if next.Some? then items[next.value] else "";
    }

    /** ArrowUp: the `selected` class moves to the previous item, and the live region reads it. */
    method SelectPrevious()
      requires Valid()
      modifies this`selected, this`announcement
      ensures Valid()
      ensures Snapshot() == ArrowUp(old(Snapshot()))
    {
      ArrowUpPreservesValid(Options(), Snapshot());
      if selected.Some? {
        var prev: Option<nat> := if selected.value > 0 then Some(selected.value - 1) else None;
        selected := prev;
        announcement := if prev.Some? then items[prev.value] else "";
      }
    }

    /** Any other key: the list is rebuilt from the field's value. */
    method RebuildList()
      requires Valid()
      modifies this
      ensures Valid()
      ensures Snapshot() == Rebuild(Options(), old(Snapshot()))
    {
      RebuildPreservesValid(Options(), Snapshot());
      var suggestions := GetSuggestions(source, value);
      visible := suggestions != [];
      items := suggestions;
      selected := None;
    }

    method OnOptionClick(i: nat)
      requires Valid() && i < |items|
      modifies this
      ensures Valid()
      ensures Snapshot() == OptionClick(old(Snapshot()), i)
    {
      StepPreservesValid(Options(), Snapshot(), Click(i));
      value := items[i];
      ClearList();
    }

    method OnFocusOut()
      requires Valid()
      modifies this
      ensures Valid()
      ensures Snapshot() == FocusOut(old(Snapshot()))
    {
      ClearList();
    }

    /** The browser replacing the field's text as the user types. */
    method Edit(text: string)
      requires Valid()
      modifies this`value
      ensures Valid()
      ensures Snapshot() == old(Snapshot()).(value := text)
    {
      value := text;
    }
  }

  /** Typing "ap" into a fresh widget on the pool apple, apricot, banana (default limits)
      lists apple and apricot, with nothing selected. */
  method TypeAp() returns (w: Plugin)
    ensures fresh(w) && w.Valid()
    ensures w.items == ["apple", "apricot"] && w.selected == None && w.visible
  {
    var pool := ["apple", "apricot", "banana"];
    w := new Plugin(UserOptions(Some(pool), None, None), "");
    w.Edit("ap");
    w.OnKeyUp(Other);
    assert w.items == Suggestions(pool, "ap", 2, 10);
    Scenario();
  }

  /** Two presses of ArrowDown select the second item and read it out; Enter commits it. */
  method ChooseSecond(w: Plugin)
    requires w.Valid() && w.items == ["apple", "apricot"] && w.selected == None
    modifies w
    ensures w.Valid()
    ensures w.value == "apricot" && w.items == [] && w.selected == None && !w.visible
    ensures w.announcement == "apricot"
  {
    w.OnKeyUp(Down);
    assert w.selected == Some(0) && w.announcement == "apple";
    w.OnKeyUp(Down);
    assert w.selected == Some(1) && w.announcement == "apricot";
    w.OnKeyDown(Enter);
  }

  /** A session: type "ap", choose apricot with the arrows and Enter. */
  method TypingAndChoosing() returns (w: Plugin)
    ensures fresh(w) && w.Valid()
    ensures w.value == "apricot" && w.items == [] && w.selected == None && !w.visible
  {
    w := TypeAp();
    ChooseSecond(w);
  }

  /** The same list, committed with a click on its second item. */
  method TypingAndClicking() returns (w: Plugin)
    ensures fresh(w) && w.Valid()
    ensures w.value == "apricot" && w.items == [] && w.selected == None && !w.visible
  {
    w := TypeAp();
    w.OnOptionClick(1);
  }
}
