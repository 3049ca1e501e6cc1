/** The component's editing state as an object: the snapshot history, the
    cursor, the sixteen live fields the preview renders from, and the search
    query (src/components/LogoGenerator.tsx:128-183). Its methods are the
    handlers that change that state: `updateHistory`, `handleUndo`,
    `handleRedo`, the setting handlers of the side panel, `handleIconSelect`
    and `handleRandomIcon`. Each is proved against the value-level history of
    module `History`. */
module Editor {
  import opened Options
  import opened Style
  import H = History
  import IconSearch

  datatype GradientStop = From | Via | To

  /** One user action of the side panel: each handler sets one live field and
      records the same value with `updateHistory` (lines 284-287, 741-742,
      759-760, 774-775, 787-788, 813-814, 833-834, 853-854, 873-874, 893-894,
      916-917, 935-936, 954-955, 972-973, 991-992, 1010-1011, 1029-1030). */
  datatype Setting =
    | SelectIcon(icon: Icon)
    | SetSize(size: int)
    | SetRotation(rotation: int)
    | SetBackgroundType(backgroundType: BackgroundType)
    | SetSolidColor(color: string)
    | SetGradientAngle(angle: int)
    | SetGradientStop(stop: GradientStop, color: string)
    | SetBorderWidth(width: real)
    | SetBorderColor(color: string)
    | SetBorderRadius(radius: int)
    | SetPadding(padding: int)
    | SetShadowIntensity(intensity: real)
    | SetFillOpacity(opacity: real)
    | SetFillColor(color: string)

  /** `{ ...gradientColors, from|via|to: color }`. */
  function WithStop(g: GradientColors, stop: GradientStop, color: string): GradientColors
  {
    match stop
    case From => g.(from := color)
    case Via => g.(via := color)
    case To => g.(to := color)
  }

  /** The partial update a handler records. Gradient stops are recorded as the
      whole live gradient with one stop replaced. No handler ever records the
      icon colour, the background colour, the scale or the background toggle. */
  function PatchFor(setting: Setting, live: LiveView): (p: Patch)
    ensures p.iconColor.None? && p.backgroundColor.None? && p.scale.None? && p.hasBackground.None?
    ensures setting.SetGradientStop? ==>
      p == NoChange.(gradientColors := Some(WithStop(live.gradientColors, setting.stop, setting.color)))
  {
    match setting
    case SelectIcon(icon) => NoChange.(selectedIcon := Some(icon))
    case SetSize(v) => NoChange.(size := Some(v))
    case SetRotation(v) => NoChange.(rotation := Some(v))
    case SetBackgroundType(t) => NoChange.(backgroundType := Some(t))
    case SetSolidColor(c) => NoChange.(solidColor := Some(c))
    case SetGradientAngle(v) => NoChange.(gradientAngle := Some(v))
    case SetGradientStop(stop, c) => NoChange.(gradientColors := Some(WithStop(live.gradientColors, stop, c)))
    case SetBorderWidth(v) => NoChange.(borderWidth := Some(v))
    case SetBorderColor(c) => NoChange.(borderColor := Some(c))
    case SetBorderRadius(v) => NoChange.(borderRadius := Some(v))
    case SetPadding(v) => NoChange.(padding := Some(v))
    case SetShadowIntensity(v) => NoChange.(shadowIntensity := Some(v))
    case SetFillOpacity(v) => NoChange.(fillOpacity := Some(v))
    case SetFillColor(c) => NoChange.(fillColor := Some(c))
  }

  class LogoEditor {
    var history: seq<LogoState>
    var currentIndex: nat

    /** The sixteen live `useState` fields. One handler's setters are applied
        together at the next render, so they are one update of this value. */
    var live: LiveView

    var searchQuery: string

    /** `allIcons`, the catalog the search and the random pick draw from. */
    const allIcons: seq<Icon>

    /** The history and cursor as a value. */
    function Model(): H.History
      reads this
    {
      H.History(history, currentIndex)
    }

    /** The history is never empty and the cursor is inside it. */
    ghost predicate Valid()
      reads this
    {
      H.Valid(Model())
    }

    /** The preview shows exactly the snapshot under the cursor. */
    ghost predicate Synced()
      reads this
      requires Valid()
    {
      live == View(history[currentIndex])
    }

    /** Mounting: the history holds the seed snapshot, the live fields hold
        their initial values with the icon colour the mount effect sets
        (`MountedView`). */
    constructor (defaultSize: int)
      ensures Valid() && Model() == H.Seeded(InitialState(defaultSize))
      ensures live == MountedView(defaultSize) && searchQuery == ""
      ensures allIcons == IconSearch.Catalog
    {
      history := [InitialState(defaultSize)];
      currentIndex := 0;
      live := MountedView(defaultSize);
      searchQuery := "";
      allIcons := IconSearch.Catalog;
    }

    /** The flags passed to `onStateChange` (lines 191-195): undo is offered
        exactly when undo would move the cursor, redo exactly when redo would. */
    method ReportState() returns (canUndo: bool, canRedo: bool)
      requires Valid()
      ensures canUndo <==> H.Undo(Model()) != Model()
      ensures canRedo <==> H.Redo(Model()) != Model()
    {
      canUndo := currentIndex > 0;
      canRedo := currentIndex < |history| - 1;
      H.FlagsMeanMovement(Model());
    }

    /** `updateHistory` (lines 247-253). The live fields are left alone: the
        handlers set them themselves. */
    method UpdateHistory(newState: Patch)
      requires Valid()
      modifies this
      ensures Valid() && Model() == H.Push(old(Model()), newState)
      ensures live == old(live) && searchQuery == old(searchQuery)
    {
      var currentState := history[currentIndex];
      var newFullState := Merge(currentState, newState);
      var newHistory := history[..currentIndex + 1];
      history := newHistory + [newFullState];
      currentIndex := currentIndex + 1;
    }

    /** `handleUndo` (lines 201-222): at the first snapshot nothing changes;
        otherwise the cursor steps back and the live fields show that snapshot. */
    method Undo()
      requires Valid()
      modifies this
      ensures Valid() && Model() == H.Undo(old(Model()))
      ensures old(currentIndex) > 0 ==> Synced()
      ensures old(currentIndex) == 0 ==> live == old(live)
      ensures searchQuery == old(searchQuery)
    {
      if currentIndex > 0 {
        var currentState := history[currentIndex - 1];
        currentIndex := currentIndex - 1;
        live := View(currentState);
      }
    }

    /** `handleRedo` (lines 224-245): at the last snapshot nothing changes;
        otherwise the cursor steps forward and the live fields show that snapshot. */
    method Redo()
      requires Valid()
      modifies this
      ensures Valid() && Model() == H.Redo(old(Model()))
      ensures old(currentIndex) < |old(history)| - 1 ==> Synced()
      ensures old(currentIndex) == |old(history)| - 1 ==> live == old(live)
      ensures searchQuery == old(searchQuery)
    {
      if currentIndex < |history| - 1 {
        var currentState := history[currentIndex + 1];
        currentIndex := currentIndex + 1;
        live := View(currentState);
      }
    }

    /** A side-panel handler: set the live field, then record the change. A
        preview that showed the current snapshot still does afterwards. */
    method Edit(setting: Setting)
      requires Valid()
      modifies this
      ensures Valid()
      ensures Model() == H.Push(old(Model()), PatchFor(setting, old(live)))
      ensures live == ApplyToView(old(live), PatchFor(setting, old(live)))
      ensures old(Synced()) ==> Synced()
      ensures searchQuery == old(searchQuery)
    {
      var p := PatchFor(setting, live);
      ghost var before := history[currentIndex];
      live := ApplyToView(live, p);
      UpdateHistory(p);
      ViewMerge(before, p);
    }

    /** The search box (line 684). */
    method SetSearchQuery(query: string)
      modifies this`searchQuery
      ensures searchQuery == query
    {
      searchQuery := query;
    }

    /** `handleRandomIcon` (lines 267-282), with the random index supplied:
        pick from the searched list (or the whole catalog), select it, record
        it and clear the search. An empty search result makes the source read a
        property of `undefined` and throw before any state changes. */
    method RandomIcon(randomIndex: nat) returns (ok: bool)
      requires Valid()
      requires var list := IconSearch.FilteredIcons(allIcons, searchQuery);
        randomIndex < |list| || (|list| == 0 && randomIndex == 0)
      modifies this
      ensures Valid()
      ensures var list := IconSearch.FilteredIcons(allIcons, old(searchQuery));
        && ok == (|list| > 0)
        && (ok ==> && Model() == H.Push(old(Model()), NoChange.(selectedIcon := Some(list[randomIndex])))
                   && live == old(live).(selectedIcon := list[randomIndex])
                   && searchQuery == "")
        && (!ok ==> Model() == old(Model()) && live == old(live) && searchQuery == old(searchQuery))
    {
      var filteredIconsList := if searchQuery != "" then IconSearch.Filter(allIcons, searchQuery)
                               else allIcons;
      if |filteredIconsList| == 0 {
        return false;
      }
      var randomIconData := filteredIconsList[randomIndex];
      live := live.(selectedIcon := randomIconData);
      UpdateHistory(NoChange.(selectedIcon := Some(randomIconData)));
      searchQuery := "";
      ok := true;
    }
  }

  /** After mounting, the first edit followed by an undo sets the live icon
      colour to the seed snapshot's black, not the white the mount effect had
      set: the seed snapshot never recorded that effect. The same holds for
      every undo or redo that moves the cursor (`RecordedIconColorStaysBlack`).
      The preview draws its icon in white whatever this field holds; the live
      icon colour only strokes the icons of a package generated afterwards,
      which are then black where they had been white. */
  lemma UndoToSeedRestoresRecordedIconColor(defaultSize: int, p: Patch)
    ensures var h := H.Undo(H.Push(H.Seeded(InitialState(defaultSize)), p));
      && View(H.Current(h)).iconColor == "#000000"
      && MountedView(defaultSize).iconColor == "#ffffff"
  {
  }

  /** What can happen to the history after mounting: a side-panel handler
      records its patch (taken from the live fields it was given), or undo or
      redo moves the cursor. */
  datatype Action = Handle(setting: Setting, live: LiveView) | UndoAction | RedoAction

  function Perform(h: H.History, a: Action): (r: H.History)
    requires H.Valid(h)
    ensures H.Valid(r)
  {
    match a
    case Handle(setting, live) => H.Push(h, PatchFor(setting, live))
    case UndoAction => H.Undo(h)
    case RedoAction => H.Redo(h)
  }

  function PerformAll(h: H.History, actions: seq<Action>): (r: H.History)
    requires H.Valid(h)
    ensures H.Valid(r)
    decreases |actions|
  {
    if |actions| == 0 then h else PerformAll(Perform(h, actions[0]), actions[1..])
  }

  /** Every snapshot of the history records the black icon colour. */
  predicate RecordsBlack(h: H.History)
  {
    forall k :: 0 <= k < |h.states| ==> h.states[k].iconColor == "#000000"
  }

  /** No handler records the icon colour, so every snapshot of every history
      reached from the seed holds the seed's black: whichever snapshot an undo
      or a redo restores, the live icon colour becomes black. */
  lemma {:induction false} RecordedIconColorStaysBlack(defaultSize: int, actions: seq<Action>)
    ensures RecordsBlack(PerformAll(H.Seeded(InitialState(defaultSize)), actions))
    ensures View(H.Current(PerformAll(H.Seeded(InitialState(defaultSize)), actions))).iconColor == "#000000"
  {
    var h := H.Seeded(InitialState(defaultSize));
    assert RecordsBlack(h);
    PerformAllKeepsBlack(h, actions);
  }

  lemma {:induction false} PerformAllKeepsBlack(h: H.History, actions: seq<Action>)
    requires H.Valid(h) && RecordsBlack(h)
    ensures RecordsBlack(PerformAll(h, actions))
    decreases |actions|
  {
    if |actions| > 0 {
      var a := actions[0];
      var next := Perform(h, a);
      if a.Handle? {
        var p := PatchFor(a.setting, a.live);
        assert next.states == h.states[..h.cursor + 1] + [Merge(H.Current(h), p)];
      }
      assert RecordsBlack(next);
      PerformAllKeepsBlack(next, actions[1..]);
    }
  }
}
