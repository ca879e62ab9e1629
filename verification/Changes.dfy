/** What preparing a wallpaper change does, as a function of layout, deck and disk, as long as the
    current bag holds every wallpaper that has to be drawn. */
module Changes {
  import opened Prelude
  import opened Decks
  import opened Draws
  import opened History

  datatype Action = Move(m: Move) | Replace(index: nat) | Quarantine(index: nat) | Other

  /** A layout reached and the position in the bag after the draws it took. */
  datatype Dealt = Dealt(layout: Layout, pos: nat)

  function DealRow(d: Deck, count: nat, exclude: Option<string>, disk: Disk): (r: Option<(Row, nat)>)
    ensures r.Some? ==> |r.value.0| == count
  {
    if DrawFails(d, count, exclude, disk) then None else Scan(d.bag, d.pos, [], WantOf(d, count, exclude), disk)
  }

  predicate SameShape(a: Layout, b: Layout) { a.out_count == b.out_count && a.max_history == b.max_history }

  /** `ensure_initialized`. */
  function Initialized(l: Layout, row: Row): Layout { Append(l, row).(idx := 1, offset := 0) }

  lemma InitializedStarts(l: Layout, row: Row)
    requires WellFormed(l) && |row| == l.out_count && l.history == []
    ensures Started(Initialized(l, row)) && Complete(Initialized(l, row)) && Initialized(l, row).history == [row]
    ensures SameShape(Initialized(l, row), l)
    ensures Window(Initialized(l, row)) == row && Shows(Initialized(l, row), Cursor(row, 0, 0))
  {
    FlatOne(row);
  }

  function DealInitial(d: Deck, l: Layout, disk: Disk): (r: Option<Dealt>)
    requires WellFormed(l)
    ensures r.Some? ==> Started(r.value.layout) && SameShape(r.value.layout, l)
    ensures l.history != [] ==> r == Some(Dealt(l, d.pos))
    ensures r.Some? && l.history == [] ==> r.value.layout.offset == 0
  {
    if l.history != [] then Some(Dealt(l, d.pos))
    else
      match DealRow(d, l.out_count, None, disk)
      case None => None
      case Some((row, pos)) => InitializedStarts(l, row); Some(Dealt(Initialized(l, row), pos))
  }

  /** `ensure_window`. */
  function DealWindow(d: Deck, l: Layout, disk: Disk): (r: Option<Dealt>)
    requires Started(l) && CanComplete(l)
    ensures r.Some? ==> Started(r.value.layout) && Complete(r.value.layout) && SameShape(r.value.layout, l)
    ensures r.Some? ==> r.value.layout.offset == l.offset
    decreases Deficit(l)
  {
    if Complete(l) then Some(Dealt(l, d.pos))
    else
      match DealRow(d, l.out_count, None, disk)
      case None => None
      case Some((row, pos)) => GrowProgress(l, row); DealWindow(d.(pos := pos), Grow(l, row), disk)
  }

  predicate Shown(path: string, disk: Disk) { path == "" || path in disk.files }
  predicate AllShown(selection: Row, disk: Disk) { forall x | x in selection :: Shown(x, disk) }

  /** Replacements for the wallpapers of a selection that are gone, in order. */
  function DealHealing(d: Deck, selection: Row, disk: Disk): (r: Option<(Row, nat)>)
    ensures r.Some? ==> |r.value.0| == |selection|
    ensures AllShown(selection, disk) ==> r == Some((selection, d.pos))
    decreases |selection|
  {
    if selection == [] then Some(([], d.pos))
    else
      var last := selection[|selection| - 1];
      assert selection == selection[..|selection| - 1] + [last];
      match DealHealing(d, selection[..|selection| - 1], disk)
      case None => None
      case Some((healed, pos)) =>
        if Shown(last, disk) then Some((healed + [last], pos))
        else
          match DealRow(d.(pos := pos), 1, None, disk)
          case None => None
          case Some((one, pos')) => Some((healed + one, pos'))
  }

  /** A healed selection and the layout it leaves. */
  function AfterHealing(l: Layout, selection: Row, healed: Row, disk: Disk): Layout {
    if AllShown(selection, disk) then l else Healed(l, healed)
  }

  datatype Planned = Planned(layout: Layout, selection: Row, pos: nat, before_start: Option<nat>, after_start: Option<nat>, target: Option<string>)

  /** A prepared selection and what follows: make the window whole, replace what is gone. */
  function DealSelection(d: Deck, l: Layout, disk: Disk): (r: Option<(Layout, Row, nat)>)
    requires Started(l) && CanComplete(l)
  {
    match DealWindow(d, l, disk)
    case None => None
    case Some(dealt) =>
      match DealHealing(d.(pos := dealt.pos), Window(dealt.layout), disk)
      case None => None
      case Some((healed, pos)) => Some((AfterHealing(dealt.layout, Window(dealt.layout), healed, disk), healed, pos))
  }

  /** From a window of one freshly drawn row, or one made whole with drawn rows, the action leads to a
      window that can be reached. */
  predicate Fresh(l: Layout, action: Action) { l.max_history >= 2 || l.out_count == 1 || action != Move(ShiftForward) }

  /** Every window the action asks for can be reached. */
  predicate Reaches(l: Layout, action: Action)
    requires l.out_count > 0
  {
    if l.history == [] then Fresh(l, action)
    else
      match action
      case Move(m) => CanComplete(Moved(l, m))
      case Replace(_) => CanComplete(l)
      case Quarantine(_) => CanComplete(l)
      case Other => true
  }

  /** The same when the window is first made whole to capture its position. */
  predicate ReachesWith(l: Layout, action: Action, capture: bool)
    requires l.out_count > 0
  {
    if capture && l.history != [] && !Complete(l) then CanComplete(l) && Fresh(l, action) else Reaches(l, action)
  }

  lemma ReachesMoved(l: Layout, m: Move)
    requires Started(l) && Reaches(l, Move(m))
    ensures Started(Moved(l, m)) && CanComplete(Moved(l, m)) && SameShape(Moved(l, m), l)
  {
    MovedStarts(l, m);
  }

  lemma MovedStarts(l: Layout, m: Move)
    requires Started(l)
    ensures Started(Moved(l, m)) && SameShape(Moved(l, m), l)
  {
    hide Complete, Started;
    HereShows(l);
    MovedShows(l, Here(l), m);
  }

  /** A window of one drawn row, the only one there is, still reaches after the action. */
  lemma FreshReaches(l: Layout, action: Action)
    requires Started(l) && Fresh(l, action) && Complete(l)
    requires l.max_history >= 2 || (l.offset == 0 && l.idx == 1)
    ensures Reaches(l, action)
  {
    hide Complete, Deficit;
    if action.Move? {
      MovedStarts(l, action.m);
      CompleteIsNoDeficit(Moved(l, action.m));
      FreshMoved(l, action.m);
    }
  }

  lemma FreshMoved(l: Layout, m: Move)
    requires Started(l) && Fresh(l, Move(m)) && (l.max_history >= 2 || (l.offset == 0 && l.idx == 1))
    ensures l.max_history >= 2 || Moved(l, m).offset == 0 || Deficit(Moved(l, m)) == 0
  {}

  /** A layout whose window can be made whole, once it is started. */
  predicate Completable(l: Layout) { l.history == [] || CanComplete(l) }

  /** `ensure_initialized`, then `ensure_window`. */
  function DealWhole(d: Deck, l: Layout, disk: Disk): (r: Option<Dealt>)
    requires WellFormed(l) && Completable(l)
    ensures r.Some? ==> Started(r.value.layout) && Complete(r.value.layout) && SameShape(r.value.layout, l)
  {
    match DealInitial(d, l, disk)
    case None => None
    case Some(initial) => DealWindow(d.(pos := initial.pos), initial.layout, disk)
  }

  lemma WholeWindow(l: Layout)
    requires Started(l) && Complete(l)
    ensures |Window(l)| == l.out_count
  {
    WindowIsStream(l, Here(l));
  }

  /** `run_replace`. */
  function DealReplaced(d: Deck, l: Layout, index: nat, exclude: Option<string>, disk: Disk): (r: Option<(Layout, nat)>)
    requires WellFormed(l) && Completable(l) && index < l.out_count
    ensures r.Some? ==> Started(r.value.0) && Complete(r.value.0) && SameShape(r.value.0, l)
  {
    match DealWhole(d, l, disk)
    case None => None
    case Some(whole) =>
      match DealRow(d.(pos := whole.pos), 1, exclude, disk)
      case None => None
      case Some((one, pos)) =>
        WholeWindow(whole.layout);
        var selection := Window(whole.layout)[index := one[0]];
        RecordShows(whole.layout, selection);
        Some((Record(whole.layout, selection), pos))
  }

  /** The layout a rendering action leads to before the window is made whole, and what it quarantines. */
  function DealAction(d: Deck, l: Layout, action: Action, disk: Disk): (r: Option<(Layout, nat, Option<string>)>)
    requires Started(l) && Reaches(l, action) && IndexOk(action, l.out_count)
    ensures r.Some? ==> Started(r.value.0) && SameShape(r.value.0, l) && CanComplete(r.value.0)
  {
    match action
    case Move(m) => ReachesMoved(l, m); Some((Moved(l, m), d.pos, None))
    case Replace(index) =>
      (match DealReplaced(d, l, index, None, disk)
       case None => None
       case Some((layout, pos)) => Some((layout, pos, None)))
    case Quarantine(index) =>
      (match DealWindow(d, l, disk)
       case None => None
       case Some(whole) =>
         WholeWindow(whole.layout);
         var target := Window(whole.layout)[index];
         match DealReplaced(d.(pos := whole.pos), whole.layout, index, Some(target), disk)
         case None => None
         case Some((layout, pos)) => Some((layout, pos, Some(target))))
    case Other => None
  }

  predicate IndexOk(action: Action, out_count: nat) {
    match action
    case Replace(index) => index < out_count
    case Quarantine(index) => index < out_count
    case _ => true
  }

  lemma InitialReaches(d: Deck, l: Layout, action: Action, capture: bool, disk: Disk)
    requires WellFormed(l) && ReachesWith(l, action, capture) && DealInitial(d, l, disk).Some?
    ensures var begun := DealInitial(d, l, disk).value.layout;
      && ReachesWith(begun, action, capture) && (capture ==> CanComplete(begun)) && (!capture ==> Reaches(begun, action))
  {
    hide Complete, DealRow;
    if l.history == [] {
      var row := DealRow(d, l.out_count, None, disk).value.0;
      BegunFresh(l, row, action);
    }
  }

  lemma BegunFresh(l: Layout, row: Row, action: Action)
    requires WellFormed(l) && l.history == [] && |row| == l.out_count && Fresh(l, action)
    ensures Reaches(Initialized(l, row), action) && Complete(Initialized(l, row))
  {
    hide Complete, Reaches, Prune, Append;
    InitializedStarts(l, row);
    FreshReaches(Initialized(l, row), action);
  }

  /** Made whole, the window is as it was or ends in drawn rows. */
  lemma WindowReaches(d: Deck, l: Layout, action: Action, disk: Disk)
    requires Started(l) && CanComplete(l) && ReachesWith(l, action, true) && DealWindow(d, l, disk).Some?
    ensures Reaches(DealWindow(d, l, disk).value.layout, action)
  {
    hide Reaches, Complete, DealRow;
    if !Complete(l) {
      SingleRowLeft(d, l, disk);
      FreshReaches(DealWindow(d, l, disk).value.layout, action);
    }
  }

  /** Where there is room for one row, the drawn one is all that is left. */
  lemma {:induction false} SingleRowLeft(d: Deck, l: Layout, disk: Disk)
    requires Started(l) && CanComplete(l) && !Complete(l) && DealWindow(d, l, disk).Some?
    ensures var whole := DealWindow(d, l, disk).value.layout; whole.max_history >= 2 || (whole.offset == 0 && whole.idx == 1)
    decreases Deficit(l)
  {
    hide Complete, DealRow, Grow;
    var (row, pos) := DealRow(d, l.out_count, None, disk).value;
    GrowProgress(l, row);
    CompleteIsNoDeficit(Grow(l, row));
    if !Complete(Grow(l, row)) {
      SingleRowLeft(d.(pos := pos), Grow(l, row), disk);
    }
  }

  /** The window before the action, made whole if its position is captured. */
  function DealBefore(d: Deck, l: Layout, action: Action, capture: bool, disk: Disk): (r: Option<Dealt>)
    requires WellFormed(l) && ReachesWith(l, action, capture)
    ensures r.Some? ==> Started(r.value.layout) && SameShape(r.value.layout, l) && Reaches(r.value.layout, action)
  {
    match DealInitial(d, l, disk)
    case None => None
    case Some(initial) =>
      InitialReaches(d, l, action, capture, disk);
      if capture then
        match DealWindow(d.(pos := initial.pos), initial.layout, disk)
        case None => None
        case Some(before) => WindowReaches(d.(pos := initial.pos), initial.layout, action, disk); Some(before)
      else Some(initial)
  }

  /** `prepare_wallpaper_change`, where the bag suffices. */
  function DealChange(d: Deck, l: Layout, action: Action, capture: bool, disk: Disk): Option<Planned>
    requires WellFormed(l) && ReachesWith(l, action, capture) && IndexOk(action, l.out_count)
  {
    match DealBefore(d, l, action, capture, disk)
    case None => None
    case Some(before) =>
      match DealAction(d.(pos := before.pos), before.layout, action, disk)
      case None => None
      case Some((acted, pos, target)) =>
        match DealSelection(d.(pos := pos), acted, disk)
        case None => None
        case Some((layout, selection, pos')) =>
          Some(Planned(layout, selection, pos', if capture then Some(Start(before.layout)) else None,
                       if capture then Some(Start(layout)) else None, target))
  }

  // ---- beyond the end of the bag ----

  predicate PastEnd(d: Deck) { d.pos >= |d.bag| }

  /** Past the end nothing can be dealt, wherever the position is. */
  lemma NothingPastEnd(d: Deck, count: nat, exclude: Option<string>, disk: Disk)
    requires PastEnd(d) && count > 0
    ensures DealRow(d, count, exclude, disk) == None
  {}

  lemma WindowPastEnd(d: Deck, l: Layout, disk: Disk)
    requires Started(l) && CanComplete(l) && PastEnd(d)
    ensures DealWindow(d, l, disk) == if Complete(l) then Some(Dealt(l, d.pos)) else None
  {
    hide Complete, CanComplete, DealRow;
    NothingPastEnd(d, l.out_count, None, disk);
  }

  lemma InitialPastEnd(d: Deck, l: Layout, disk: Disk)
    requires WellFormed(l) && PastEnd(d)
    ensures DealInitial(d, l, disk) == if l.history != [] then Some(Dealt(l, d.pos)) else None
  {
    hide DealRow;
    NothingPastEnd(d, l.out_count, None, disk);
  }

  lemma {:induction false} HealingPastEnd(d: Deck, selection: Row, disk: Disk)
    requires PastEnd(d)
    ensures DealHealing(d, selection, disk) == if AllShown(selection, disk) then Some((selection, d.pos)) else None
    decreases |selection|
  {
    hide DealRow;
    if selection != [] {
      var last := selection[|selection| - 1];
      assert selection == selection[..|selection| - 1] + [last];
      HealingPastEnd(d, selection[..|selection| - 1], disk);
      NothingPastEnd(d, 1, None, disk);
    }
  }

  lemma ReplacedPastEnd(d: Deck, l: Layout, index: nat, exclude: Option<string>, disk: Disk)
    requires WellFormed(l) && Completable(l) && index < l.out_count && PastEnd(d)
    ensures DealReplaced(d, l, index, exclude, disk) == None
  {
    hide DealRow, DealWindow, DealInitial;
    InitialPastEnd(d, l, disk);
    if l.history != [] {
      WindowPastEnd(d, l, disk);
      NothingPastEnd(d, 1, exclude, disk);
    }
  }

  lemma SelectionPastEnd(d: Deck, l: Layout, disk: Disk)
    requires Started(l) && CanComplete(l) && PastEnd(d)
    ensures DealSelection(d, l, disk) == if Complete(l) && AllShown(Window(l), disk) then Some((l, Window(l), d.pos)) else None
  {
    hide DealWindow, DealHealing, Complete, CanComplete;
    WindowPastEnd(d, l, disk);
    HealingPastEnd(d, Window(l), disk);
  }

  /** What a plan past the end is: only a move that needs no draw. */
  lemma ChangePastEnd(d: Deck, l: Layout, action: Action, capture: bool, disk: Disk)
    requires WellFormed(l) && ReachesWith(l, action, capture) && IndexOk(action, l.out_count) && PastEnd(d)
    ensures DealChange(d, l, action, capture, disk).Some? ==>
      DealChange(d, l, action, capture, disk).value.pos == d.pos && action.Move? && Started(l)
    ensures forall q: nat | q >= |d.bag| ::
      DealChange(d.(pos := q), l, action, capture, disk) == AtPosition(DealChange(d, l, action, capture, disk), q)
  {
    hide DealWindow, DealInitial, DealHealing, DealSelection, Complete, CanComplete, Window, DealReplaced, Moved, Started, ReachesWith, WellFormed, Ends;
    forall q: nat | q >= |d.bag|
      ensures DealChange(d.(pos := q), l, action, capture, disk) == ChangeWithoutDraws(l, action, capture, disk, q)
    {
      PlanPastEnd(d.(pos := q), l, action, capture, disk);
    }
    PlanPastEnd(d, l, action, capture, disk);
    assert d == d.(pos := d.pos);
  }

  function AtPosition(plan: Option<Planned>, q: nat): Option<Planned> {
    match plan
    case None => None
    case Some(p) => Some(p.(pos := q))
  }

  function ChangeWithoutDraws(l: Layout, action: Action, capture: bool, disk: Disk, pos: nat): Option<Planned>
    requires WellFormed(l)
  {
    if !action.Move? || l.history == [] || (capture && !Complete(l)) then None
    else
      var moved := Moved(l, action.m);
      if Complete(moved) && AllShown(Window(moved), disk) then
        Some(Planned(moved, Window(moved), pos, if capture then Some(Start(l)) else None, if capture then Some(Start(moved)) else None, None))
      else None
  }

  lemma BeforePastEnd(d: Deck, l: Layout, action: Action, capture: bool, disk: Disk)
    requires WellFormed(l) && ReachesWith(l, action, capture) && PastEnd(d)
    ensures DealBefore(d, l, action, capture, disk) == if l.history == [] || (capture && !Complete(l)) then None else Some(Dealt(l, d.pos))
  {
    hide DealWindow, DealInitial, Complete, Reaches;
    InitialPastEnd(d, l, disk);
    if l.history != [] {
      InitialReaches(d, l, action, capture, disk);
      if capture {
        WindowPastEnd(d, l, disk);
      }
    }
  }

  lemma ActionPastEnd(d: Deck, l: Layout, action: Action, disk: Disk)
    requires Started(l) && Reaches(l, action) && IndexOk(action, l.out_count) && PastEnd(d)
    ensures DealAction(d, l, action, disk) == if action.Move? then Some((Moved(l, action.m), d.pos, None)) else None
  {
    hide DealWindow, Complete, Window, DealReplaced, Moved;
    match action
    case Move(m) =>
    case Replace(index) => ReplacedPastEnd(d, l, index, None, disk);
    case Quarantine(index) =>
      WindowPastEnd(d, l, disk);
      if Complete(l) {
        WholeWindow(l);
        ReplacedPastEnd(d, l, index, Some(Window(l)[index]), disk);
      }
    case Other =>
  }

  lemma PlanPastEnd(d: Deck, l: Layout, action: Action, capture: bool, disk: Disk)
    requires WellFormed(l) && ReachesWith(l, action, capture) && IndexOk(action, l.out_count) && PastEnd(d)
    ensures DealChange(d, l, action, capture, disk) == ChangeWithoutDraws(l, action, capture, disk, d.pos)
  {
    hide DealBefore, DealAction, DealSelection, DealWindow, Complete, Window, Moved;
    BeforePastEnd(d, l, action, capture, disk);
    if DealBefore(d, l, action, capture, disk).Some? {
      ActionPastEnd(d, l, action, disk);
      if action.Move? {
        ReachesMoved(l, action.m);
        SelectionPastEnd(d, Moved(l, action.m), disk);
      }
    }
  }

  /** After a rollback, which clips a position beyond the bag to its end, the same preparation deals the
      same layout and selection. */
  lemma SamePreparation(d: Deck, l: Layout, action: Action, capture: bool, disk: Disk)
    requires WellFormed(l) && ReachesWith(l, action, capture) && IndexOk(action, l.out_count)
    ensures var again, before := DealChange(d.(pos := Min(d.pos, |d.bag|)), l, action, capture, disk), DealChange(d, l, action, capture, disk);
      && again == (if d.pos <= |d.bag| then before else AtPosition(before, |d.bag|))
      && (before.Some? <==> again.Some?)
      && (before.Some? ==> again.value.layout == before.value.layout && again.value.selection == before.value.selection)
  {
    hide DealChange, ReachesWith, WellFormed;
    if d.pos <= |d.bag| {
      assert d.(pos := Min(d.pos, |d.bag|)) == d;
    } else {
      ChangePastEnd(d, l, action, capture, disk);
    }
  }

  // ---- going on through the bag ----

  /** At the end of its history. */
  ghost predicate AtEnd(l: Layout) { Started(l) && l.offset == 0 && l.idx == |l.history| }

  /** A row drawn at the end of the history becomes the window, again at the end. */
  lemma NextRow(l: Layout, row: Row)
    requires AtEnd(l) && |row| == l.out_count
    ensures var m := Moved(l, Next);
      && Started(m) && CanComplete(m) && !Complete(m) && Deficit(m) == 1
      && var g := Grow(m, row); AtEnd(g) && Complete(g) && SameShape(g, l) && Window(g) == row
  {
    hide Complete, Flat;
    var m := Moved(l, Next);
    MovedStarts(l, Next);
    CompleteIsNoDeficit(m);
    GrowProgress(m, row);
    var g := Grow(m, row);
    CompleteIsNoDeficit(g);
    var init := g.history[..|g.history| - 1];
    assert g.history == init + [row];
    FlatAppend(init, [row]);
    FlatOne(row);
    FlatLength(init, l.out_count);
  }

  /** Next at the end of the history shows the next row of the bag. */
  lemma NextDealsRow(d: Deck, l: Layout, capture: bool, disk: Disk)
    requires AtEnd(l) && Complete(l) && DealRow(d, l.out_count, None, disk).Some?
    requires forall x | x in DealRow(d, l.out_count, None, disk).value.0 :: x in disk.files
    ensures ReachesWith(l, Move(Next), capture)
    ensures var (row, pos), plan := DealRow(d, l.out_count, None, disk).value, DealChange(d, l, Move(Next), capture, disk);
      plan.Some? && plan.value.selection == row && plan.value.pos == pos && plan.value.target == None
      && AtEnd(plan.value.layout) && Complete(plan.value.layout) && SameShape(plan.value.layout, l) && Window(plan.value.layout) == row
  {
    hide DealRow, Complete, Window, Grow;
    var (row, pos) := DealRow(d, l.out_count, None, disk).value;
    NextRow(l, row);
    var m := Moved(l, Next);
    assert DealWindow(d, m, disk) == Some(Dealt(Grow(m, row), pos));
    assert d.(pos := d.pos) == d;
    assert AllShown(row, disk);
  }

  /** A stretch of the bag without a vanished wallpaper or a repetition is taken as it is. */
  lemma {:induction false} ScanStretch(bag: seq<string>, pos: nat, picked: seq<string>, n: nat, want: Want, disk: Disk)
    requires pos + n <= |bag| && |picked| + n == want.count && want.exclude == None
    requires forall i | pos <= i < pos + n :: bag[i] in disk.files && bag[i] !in picked
    requires forall i, j | pos <= i < j < pos + n :: bag[i] != bag[j]
    ensures Scan(bag, pos, picked, want, disk) == Some((picked + bag[pos..pos + n], pos + n))
    decreases n
  {
    if n == 0 {
      assert picked + bag[pos..pos] == picked;
    } else {
      ScanStretch(bag, pos + 1, picked + [bag[pos]], n - 1, want, disk);
      assert picked + [bag[pos]] + bag[pos + 1..pos + n] == picked + bag[pos..pos + n];
    }
  }

  /** `n` wallpapers from a position: on disk, and none twice. */
  predicate Stretch(bag: seq<string>, pos: nat, n: nat, disk: Disk) {
    && pos + n <= |bag| && (forall i | pos <= i < pos + n :: bag[i] in disk.files)
    && forall i, j | pos <= i < j < pos + n :: bag[i] != bag[j]
  }

  lemma StretchDealt(d: Deck, n: nat, disk: Disk)
    requires DeckOk(d) && Listed(d, disk) && Stretch(d.bag, d.pos, n, disk) && n > 0
    ensures DealRow(d, n, None, disk) == Some((d.bag[d.pos..d.pos + n], d.pos + n))
  {
    ScanStretch(d.bag, d.pos, [], n, WantOf(d, n, None), disk);
    InBag(d, d.pos);
    assert d.library != [] && d.library[0] in Elements(d.library);
    assert d.bag[d.pos] in disk.folder;
    assert [] + d.bag[d.pos..d.pos + n] == d.bag[d.pos..d.pos + n];
  }

  /** Two Next in a row, from the deck and the layout the first one left, show two consecutive stretches
      of the bag, and leave the position after both. */
  lemma NextsShowStretches(d: Deck, l: Layout, capture: bool, disk: Disk)
    requires DeckOk(d) && Listed(d, disk) && AtEnd(l) && Complete(l)
    requires Stretch(d.bag, d.pos, l.out_count, disk) && Stretch(d.bag, d.pos + l.out_count, l.out_count, disk)
    ensures ReachesWith(l, Move(Next), capture) && DealChange(d, l, Move(Next), capture, disk).Some?
    ensures var first, n := DealChange(d, l, Move(Next), capture, disk).value, l.out_count;
      && first.selection == d.bag[d.pos..d.pos + n] && first.pos == d.pos + n
      && WellFormed(first.layout) && ReachesWith(first.layout, Move(Next), capture)
      && var second := DealChange(d.(pos := first.pos), first.layout, Move(Next), capture, disk);
      && second.Some? && second.value.selection == d.bag[d.pos + n..d.pos + n + n] && second.value.pos == d.pos + n + n
  {
    hide DealRow, DealChange, Complete, DeckOk, Listed, Stretch, ReachesWith, Window;
    var n, next := l.out_count, d.(pos := d.pos + l.out_count);
    StartedRows(l);
    StretchDealt(d, n, disk);
    StretchOnDisk(d, n, disk);
    NextDealsRow(d, l, capture, disk);
    PositionMoves(d, next, disk);
    StretchDealt(next, n, disk);
    StretchOnDisk(next, n, disk);
    NextDealsRow(next, DealChange(d, l, Move(Next), capture, disk).value.layout, capture, disk);
  }

  lemma StretchOnDisk(d: Deck, n: nat, disk: Disk)
    requires Stretch(d.bag, d.pos, n, disk)
    ensures d.pos + n <= |d.bag| && forall x | x in d.bag[d.pos..d.pos + n] :: x in disk.files
  {}

  lemma PositionMoves(d: Deck, d': Deck, disk: Disk)
    requires DeckOk(d) && Listed(d, disk) && d' == d.(pos := d'.pos)
    ensures DeckOk(d') && Listed(d', disk)
  {}

  // ---- in general: whatever is drawn ----

  ghost predicate FromFolder(rows: seq<Row>, disk: Disk) {
    forall i, j | 0 <= i < |rows| && 0 <= j < |rows[i]| :: rows[i][j] in disk.folder
  }

  /** Started, with one drawn row if there was no history. */
  ghost predicate Begins(l: Layout, l': Layout, disk: Disk) {
    if l.history != [] then l' == l
    else exists row :: |row| == l.out_count && FromFolder([row], disk) && l' == Initialized(l, row)
  }

  /** Made whole with drawn rows. */
  ghost predicate Reached(l: Layout, l': Layout, disk: Disk) {
    exists rows :: FromFolder(rows, disk) && Ensured(l, rows, l')
  }

  ghost predicate Acts(l: Layout, action: Action, l': Layout, disk: Disk)
    requires l.out_count > 0
  {
    match action
    case Move(m) => l' == Moved(l, m)
    case Replace(index) => Substitutes(l, index, false, l', disk)
    case Quarantine(index) => Substitutes(l, index, true, l', disk)
    case Other => false
  }

  /** The window with one entry replaced, by a different one when it is quarantined, is recorded. */
  ghost predicate Substitutes(l: Layout, index: nat, quarantine: bool, l': Layout, disk: Disk) {
    exists whole, one :: Reached(l, whole, disk) && index < |Window(whole)| && one in disk.folder
      && (quarantine ==> one != Window(whole)[index])
      && l' == Record(whole, Window(whole)[index := one])
  }

  /** What is still there stays, what is gone is replaced. */
  ghost predicate HealedFrom(selection: Row, healed: Row, disk: Disk) {
    && |healed| == |selection|
    && forall i | 0 <= i < |selection| :: if Shown(selection[i], disk) then healed[i] == selection[i] else healed[i] in disk.folder
  }

  ghost predicate Selects(l: Layout, l': Layout, selection: Row, disk: Disk) {
    exists whole :: Reached(l, whole, disk) && HealedFrom(Window(whole), selection, disk)
      && l' == AfterHealing(whole, Window(whole), selection, disk)
  }

  ghost predicate Prepares(l: Layout, action: Action, capture: bool, l': Layout, selection: Row, disk: Disk)
    requires l.out_count > 0
  {
    exists begun, before, acted ::
      && Begins(l, begun, disk)
      && (if capture then Reached(begun, before, disk) else before == begun)
      && before.out_count == l.out_count && Acts(before, action, acted, disk)
      && Selects(acted, l', selection, disk)
  }

  lemma ReachedKeeps(l: Layout, l': Layout, disk: Disk)
    requires Started(l) && CanComplete(l) && Reached(l, l', disk)
    ensures Started(l') && Complete(l') && SameShape(l', l) && l'.offset == l.offset && |Window(l')| == l.out_count
  {
    var rows :| FromFolder(rows, disk) && Ensured(l, rows, l');
    GrowAllRows(l, rows);
    HereShows(l);
    GrowAllShows(l, Here(l), rows);
    WindowIsStream(l', Extended(Here(l), l.out_count, l.max_history, rows));
  }

  lemma GrowAllRows(l: Layout, rows: seq<Row>)
    requires Ensured(l, rows, GrowAll(l, rows))
    ensures Rows(rows, l.out_count) && |rows| == Deficit(l)
  {}

  /** What is prepared is the window of the prepared layout, whole, and nothing in it is gone. */
  lemma SelectedIsWindow(l: Layout, l': Layout, selection: Row, disk: Disk)
    requires Started(l) && CanComplete(l) && DiskOk(disk) && Selects(l, l', selection, disk)
    ensures Started(l') && Complete(l') && SameShape(l', l) && Window(l') == selection && |selection| == l.out_count
    ensures AllShown(selection, disk)
  {
    hide Started, Complete, Healed, Window, CanComplete, Reached;
    var whole :| Reached(l, whole, disk) && HealedFrom(Window(whole), selection, disk) && l' == AfterHealing(whole, Window(whole), selection, disk);
    ReachedKeeps(l, whole, disk);
    if AllShown(Window(whole), disk) {
      forall i | 0 <= i < |selection| ensures selection[i] == Window(whole)[i] {
        assert Window(whole)[i] in Window(whole);
      }
      assert selection == Window(whole);
    } else {
      HealedShows(whole, selection);
      HealedShape(whole, selection);
    }
  }

  lemma HealedShape(l: Layout, healed: Row)
    ensures SameShape(Healed(l, healed), l)
  {}

  /** What has been done to a layout could be done. */
  lemma ReachedCanComplete(l: Layout, l': Layout, disk: Disk)
    requires Started(l) && Reached(l, l', disk)
    ensures CanComplete(l)
  {
    hide Complete;
    var rows :| FromFolder(rows, disk) && Ensured(l, rows, l');
    if !CanComplete(l) {
      NeverCompletes(l, rows);
    }
  }

  lemma ActsKeeps(l: Layout, action: Action, l': Layout, disk: Disk)
    requires Started(l) && Acts(l, action, l', disk)
    ensures Started(l') && SameShape(l', l) && (!action.Move? ==> CanComplete(l'))
  {
    hide Complete, Window, Reached, Record, CanComplete, Moved;
    match action
    case Move(m) => MovedStarts(l, m);
    case Replace(index) => SubstitutesKeeps(l, index, false, l', disk);
    case Quarantine(index) => SubstitutesKeeps(l, index, true, l', disk);
  }

  lemma SubstitutesKeeps(l: Layout, index: nat, quarantine: bool, l': Layout, disk: Disk)
    requires Started(l) && Substitutes(l, index, quarantine, l', disk)
    ensures Started(l') && CanComplete(l') && SameShape(l', l)
  {
    hide Complete, Window, Reached, Record;
    var whole, one :| Reached(l, whole, disk) && index < |Window(whole)| && one in disk.folder && l' == Record(whole, Window(whole)[index := one]);
    ReachedCanComplete(l, whole, disk);
    ReachedKeeps(l, whole, disk);
    RecordShows(whole, Window(whole)[index := one]);
    RecordShape(whole, Window(whole)[index := one]);
  }

  lemma RecordShape(l: Layout, selection: Row)
    ensures SameShape(Record(l, selection), l)
  {}

  lemma BeginsKeeps(l: Layout, l': Layout, disk: Disk)
    requires WellFormed(l) && Begins(l, l', disk)
    ensures Started(l') && SameShape(l', l) && (l.history == [] ==> l'.offset == 0)
  {
    if l.history == [] {
      var row :| |row| == l.out_count && l' == Initialized(l, row);
      InitializedStarts(l, row);
    }
  }

  /** Every prepared change selects the whole window of its layout, and shows nothing that is gone. */
  lemma PreparedIsWindow(l: Layout, action: Action, capture: bool, l': Layout, selection: Row, disk: Disk)
    requires WellFormed(l) && DiskOk(disk) && Prepares(l, action, capture, l', selection, disk)
    ensures Started(l') && Complete(l') && SameShape(l', l) && Window(l') == selection && |selection| == l.out_count
    ensures AllShown(selection, disk)
  {
    hide Started, Complete, Window, CanComplete, Reached, Begins, Acts, Selects;
    var begun, before, acted :|
      && Begins(l, begun, disk)
      && (if capture then Reached(begun, before, disk) else before == begun)
      && before.out_count == l.out_count && Acts(before, action, acted, disk)
      && Selects(acted, l', selection, disk);
    BeginsKeeps(l, begun, disk);
    if capture {
      ReachedCanComplete(begun, before, disk);
      ReachedKeeps(begun, before, disk);
    }
    ActsKeeps(before, action, acted, disk);
    SelectsCanComplete(acted, l', selection, disk);
    SelectedIsWindow(acted, l', selection, disk);
  }

  lemma SelectsCanComplete(l: Layout, l': Layout, selection: Row, disk: Disk)
    requires Started(l) && Selects(l, l', selection, disk)
    ensures CanComplete(l)
  {
    hide Reached, CanComplete;
    var whole :| Reached(l, whole, disk);
    ReachedCanComplete(l, whole, disk);
  }

  lemma BegunReaches(l: Layout, l': Layout, action: Action, capture: bool, disk: Disk)
    requires WellFormed(l) && Begins(l, l', disk) && ReachesWith(l, action, capture)
    ensures Started(l') && SameShape(l', l) && ReachesWith(l', action, capture)
    ensures if capture then CanComplete(l') else Reaches(l', action)
  {
    hide Complete, Initialized;
    BeginsKeeps(l, l', disk);
    if l.history == [] {
      var row :| |row| == l.out_count && l' == Initialized(l, row);
      BegunFresh(l, row, action);
      OneRowBegun(l, l', disk);
    }
  }

  /** After the window has been made whole the action still reaches. */
  lemma ReachedReaches(l: Layout, l': Layout, action: Action, disk: Disk)
    requires Started(l) && ReachesWith(l, action, true) && Reached(l, l', disk)
    ensures Started(l') && Complete(l') && SameShape(l', l) && Reaches(l', action)
  {
    hide Complete, Reaches, Reached;
    ReachedCanComplete(l, l', disk);
    ReachedKeeps(l, l', disk);
    StaysIfComplete(l, l', disk);
    if !Complete(l) {
      GrownFits(l, l', disk);
      CompleteIsNoDeficit(l');
      FreshReaches(l', action);
    }
  }

  /** Nothing can be prepared where some window the action asks for cannot be reached: whatever rows are
      drawn, making it whole does not end. */
  lemma PreparedReaches(l: Layout, action: Action, capture: bool, l': Layout, selection: Row, disk: Disk)
    requires WellFormed(l) && Prepares(l, action, capture, l', selection, disk)
    ensures ReachesWith(l, action, capture)
  {
    hide Started, Complete, CanComplete, Reached, Begins, Selects, Moved, Substitutes, Fresh;
    var begun, before, acted :|
      && Begins(l, begun, disk)
      && (if capture then Reached(begun, before, disk) else before == begun)
      && before.out_count == l.out_count && Acts(before, action, acted, disk)
      && Selects(acted, l', selection, disk);
    BeginsKeeps(l, begun, disk);
    if capture {
      ReachedCanComplete(begun, before, disk);
      ReachedKeeps(begun, before, disk);
    }
    ActsKeeps(before, action, acted, disk);
    SelectsCanComplete(acted, l', selection, disk);
    if !action.Move? && action != Other {
      SubstitutedCanComplete(before, action, acted, disk);
    }
    OneRowBegun(l, begun, disk);
    if l.history == [] || (capture && !Complete(l)) {
      if capture {
        GrownFits(begun, before, disk);
      }
      if action == Move(ShiftForward) {
        FreshNeeded(before);
      }
      FreshOther(l, action);
    }
    if capture {
      StaysIfComplete(begun, before, disk);
    }
  }

  lemma FreshOther(l: Layout, action: Action)
    ensures Fresh(l, action) <==> action == Move(ShiftForward) ==> l.max_history >= 2 || l.out_count == 1
  {}

  lemma SubstitutedCanComplete(l: Layout, action: Action, l': Layout, disk: Disk)
    requires Started(l) && Acts(l, action, l', disk) && !action.Move? && action != Other
    ensures CanComplete(l)
  {
    hide Reached, CanComplete, Window, Record;
    var index := action.index;
    var whole, one :| Reached(l, whole, disk) && index < |Window(whole)| && one in disk.folder && l' == Record(whole, Window(whole)[index := one]);
    ReachedCanComplete(l, whole, disk);
  }

  lemma StaysIfComplete(l: Layout, l': Layout, disk: Disk)
    requires Started(l) && Reached(l, l', disk)
    ensures Complete(l) ==> l' == l
  {
    hide Complete, Reached;
    if Complete(l) {
      CompleteStays(l, disk);
    }
  }

  lemma OneRowBegun(l: Layout, l': Layout, disk: Disk)
    requires WellFormed(l) && Begins(l, l', disk)
    ensures l.history != [] ==> l' == l
    ensures l.history == [] ==> |l'.history| == 1 && l'.offset == 0 && Complete(l')
  {
    hide Complete;
    if l.history == [] {
      var row :| |row| == l.out_count && l' == Initialized(l, row);
      InitializedStarts(l, row);
    }
  }

  /** A history that was made to reach a window holds no more than there is room for. */
  lemma GrownFits(l: Layout, l': Layout, disk: Disk)
    requires Started(l) && Reached(l, l', disk)
    ensures l' == l || |l'.history| <= l.max_history
    ensures !Complete(l) ==> l' != l
  {
    hide Complete;
    var rows :| FromFolder(rows, disk) && Ensured(l, rows, l');
    GrowAllFits(l, rows);
  }

  lemma {:induction false} GrowAllFits(l: Layout, rows: seq<Row>)
    ensures rows == [] || |GrowAll(l, rows).history| <= l.max_history
    ensures GrowAll(l, rows).max_history == l.max_history
    decreases |rows|
  {
    if rows != [] {
      GrowAllFits(Grow(l, rows[0]), rows[1..]);
    }
  }

  /** With room for one row, the window after a shift from a row's boundary cannot be reached. */
  lemma FreshNeeded(l: Layout)
    requires Started(l) && CanComplete(Moved(l, ShiftForward)) && |l.history| <= l.max_history
    requires l.max_history >= 2 || l.offset == 0
    ensures l.max_history >= 2 || l.out_count == 1
  {
    hide Complete;
    MovedStarts(l, ShiftForward);
    CompleteIsNoDeficit(Moved(l, ShiftForward));
  }

  lemma DealHealingStep(d: Deck, selection: Row, last: string, disk: Disk)
    ensures DealHealing(d, selection, disk).None? ==> DealHealing(d, selection + [last], disk).None?
    ensures DealHealing(d, selection, disk).Some? ==>
      var before := DealHealing(d, selection, disk).value;
      DealHealing(d, selection + [last], disk) ==
        if Shown(last, disk) then Some((before.0 + [last], before.1))
        else var one := DealRow(d.(pos := before.1), 1, None, disk); if one.None? then None else Some((before.0 + one.value.0, one.value.1))
  {
    assert (selection + [last])[..|selection|] == selection;
  }

  lemma HealedNothing(d: Deck, disk: Disk)
    ensures HealedFrom([], [], disk) && AllShown([], disk) && DealHealing(d, [], disk) == Some(([], d.pos))
  {}

  lemma HealedFromStep(selection: Row, healed: Row, last: string, last': string, disk: Disk)
    requires HealedFrom(selection, healed, disk) && if Shown(last, disk) then last' == last else last' in disk.folder
    ensures HealedFrom(selection + [last], healed + [last'], disk)
  {}

  /** A prepared move, with the files of its window on disk, is a step of the cursor: so over runs of
      committed moves `RunRefines`, `BackUndoesNext` and the others apply. */
  lemma PreparedMoveIsStep(l: Layout, m: Move, l': Layout, selection: Row, disk: Disk)
    requires Started(l) && DiskOk(disk) && Prepares(l, Move(m), false, l', selection, disk)
    ensures exists whole, rows ::
      && Step(l, m, rows, whole) && FromFolder(rows, disk)
      && (AllShown(Window(whole), disk) ==> l' == whole && selection == Window(whole))
  {
    hide Window, Ensured, Moved, CanComplete;
    var acted := Moved(l, m);
    assert Selects(acted, l', selection, disk);
    var whole :| Reached(acted, whole, disk) && HealedFrom(Window(whole), selection, disk) && l' == AfterHealing(whole, Window(whole), selection, disk);
    var rows :| FromFolder(rows, disk) && Ensured(acted, rows, whole);
    assert Step(l, m, rows, whole);
    if AllShown(Window(whole), disk) {
      forall i | 0 <= i < |selection| ensures selection[i] == Window(whole)[i] {
        assert Window(whole)[i] in Window(whole);
      }
      assert selection == Window(whole);
    }
  }

  /** A replaced wallpaper changes exactly its entry of the window. */
  lemma PreparedReplacement(l: Layout, index: nat, quarantine: bool, l': Layout, selection: Row, disk: Disk)
    requires Started(l) && Complete(l) && CanComplete(l) && DiskOk(disk)
    requires Prepares(l, if quarantine then Quarantine(index) else Replace(index), false, l', selection, disk)
    requires AllShown(Window(l), disk)
    ensures index < |Window(l)| && |selection| == |Window(l)| && selection[index] in disk.folder
    ensures quarantine ==> selection[index] != Window(l)[index]
    ensures forall i | 0 <= i < |selection| && i != index :: selection[i] == Window(l)[i]
  {
    hide Record, CanComplete, Started, Reached, Complete, Window, Substitutes, Selects;
    CompleteStays(l, disk);
    StartedRows(l);
    var acted :| Substitutes(l, index, quarantine, acted, disk) && Selects(acted, l', selection, disk);
    var one := SubstitutedOne(l, index, quarantine, acted, disk);
    var recorded := Window(l)[index := one];
    ReachedKeeps(l, l, disk);
    RecordShows(l, recorded);
    forall x | x in recorded ensures Shown(x, disk) {
      if x != one {
        var i :| 0 <= i < |recorded| && recorded[i] == x;
        assert Window(l)[i] in Window(l);
      }
    }
    SelectsWhole(acted, l', selection, disk);
  }

  lemma SubstitutedOne(l: Layout, index: nat, quarantine: bool, acted: Layout, disk: Disk) returns (one: string)
    requires Started(l) && Complete(l) && Substitutes(l, index, quarantine, acted, disk)
    ensures one in disk.folder && index < |Window(l)| && (quarantine ==> one != Window(l)[index])
    ensures acted == Record(l, Window(l)[index := one])
  {
    hide Record, Started, Reached, Complete, Window;
    CompleteStays(l, disk);
    var whole :| Reached(l, whole, disk) && index < |Window(whole)|
      && (exists o :: o in disk.folder && (quarantine ==> o != Window(whole)[index]) && acted == Record(whole, Window(whole)[index := o]));
    one :| one in disk.folder && (quarantine ==> one != Window(whole)[index]) && acted == Record(whole, Window(whole)[index := one]);
  }

  /** A window that is whole and on disk is selected as it is. */
  lemma SelectsWhole(l: Layout, l': Layout, selection: Row, disk: Disk)
    requires Started(l) && Complete(l) && Selects(l, l', selection, disk) && AllShown(Window(l), disk)
    ensures l' == l && selection == Window(l)
  {
    hide Started, Complete, Window, Reached;
    CompleteStays(l, disk);
    var whole :| Reached(l, whole, disk) && HealedFrom(Window(whole), selection, disk) && l' == AfterHealing(whole, Window(whole), selection, disk);
    forall i | 0 <= i < |selection| ensures selection[i] == Window(whole)[i] {
      assert Window(whole)[i] in Window(whole);
    }
    assert selection == Window(whole);
  }

  lemma StartedRows(l: Layout)
    requires Started(l)
    ensures l.out_count > 0 && l.max_history > 0 && Rows(l.history, l.out_count) && l.history != []
  {}

  lemma CompleteStays(l: Layout, disk: Disk)
    requires Started(l) && Complete(l)
    ensures forall l' | Reached(l, l', disk) :: l' == l
    ensures Reached(l, l, disk)
  {
    CompleteIsNoDeficit(l);
    assert FromFolder([], disk) && Ensured(l, [], l);
    forall l' | Reached(l, l', disk) ensures l' == l {
      var rows :| FromFolder(rows, disk) && Ensured(l, rows, l');
      assert |rows| == Deficit(l);
      assert rows == [];
    }
  }
}
