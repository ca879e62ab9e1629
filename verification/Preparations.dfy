/** Preparing a wallpaper change, with the deck each draw leaves: everything a preparation can do, when
    a rollback takes all of it back, and when none of it can be completed. */
module Preparations {
  import opened Prelude
  import opened StringOrder
  import opened Decks
  import opened Draws
  import opened RollbackRuns
  import opened History
  import opened Changes

  // ---- what a preparation can do ----

  /** `ensure_initialized`. */
  ghost predicate BeginsBy(d: Deck, l: Layout, d': Deck, l': Layout, disk: Disk, weight: nat) {
    if l.history != [] then d' == d && l' == l
    else exists row :: DrawsTo(d, l.out_count, None, row, d', disk, weight) && l' == Initialized(l, row)
  }

  /** Rows of `n` drawn one after the other. */
  ghost predicate RowsBy(d: Deck, n: nat, rows: seq<Row>, d': Deck, disk: Disk, weight: nat)
    decreases |rows|
  {
    if rows == [] then d' == d
    else exists next :: DrawsTo(d, n, None, rows[0], next, disk, weight) && RowsBy(next, n, rows[1..], d', disk, weight)
  }

  /** `ensure_window`. */
  ghost predicate WindowBy(d: Deck, l: Layout, d': Deck, l': Layout, disk: Disk, weight: nat) {
    exists rows :: Ensured(l, rows, l') && RowsBy(d, l.out_count, rows, d', disk, weight)
  }

  /** One entry of a whole window is replaced. */
  ghost predicate SubstitutesBy(d: Deck, l: Layout, index: nat, exclude: Option<string>, d': Deck, l': Layout, disk: Disk, weight: nat) {
    exists one :: DrawsTo(d, 1, exclude, [one], d', disk, weight) && index < |Window(l)| && l' == Record(l, Window(l)[index := one])
  }

  /** The action, from a layout with a history; and what it puts into quarantine. */
  ghost predicate ActsBy(d: Deck, l: Layout, action: Action, d': Deck, l': Layout, target: Option<string>, disk: Disk, weight: nat)
    requires l.out_count > 0
  {
    match action
    case Move(m) => d' == d && l' == Moved(l, m) && target == None
    case Replace(index) => target == None && ReplacesBy(d, l, index, None, d', l', disk, weight)
    case Quarantine(index) =>
      exists mid, whole ::
        && WindowBy(d, l, mid, whole, disk, weight) && index < |Window(whole)| && target == Some(Window(whole)[index])
        && SubstitutesBy(mid, whole, index, target, d', l', disk, weight)
    case Other => false
  }

  ghost predicate ReplacesBy(d: Deck, l: Layout, index: nat, exclude: Option<string>, d': Deck, l': Layout, disk: Disk, weight: nat) {
    exists mid, whole :: WindowBy(d, l, mid, whole, disk, weight) && SubstitutesBy(mid, whole, index, exclude, d', l', disk, weight)
  }

  /** `heal_selection`: what is gone is replaced, in order. */
  ghost predicate HealedBy(d: Deck, selection: Row, d': Deck, healed: Row, disk: Disk, weight: nat)
    decreases |selection|
  {
    if selection == [] then d' == d && healed == []
    else
      var last := |selection| - 1;
      exists mid, init :: HealedBy(d, selection[..last], mid, init, disk, weight)
        && if Shown(selection[last], disk) then d' == mid && healed == init + [selection[last]]
           else exists one :: DrawsTo(mid, 1, None, [one], d', disk, weight) && healed == init + [one]
  }

  /** The window is made whole and healed. */
  ghost predicate SelectsBy(d: Deck, l: Layout, d': Deck, l': Layout, selection: Row, disk: Disk, weight: nat) {
    exists mid, whole ::
      && WindowBy(d, l, mid, whole, disk, weight) && HealedBy(mid, Window(whole), d', selection, disk, weight)
      && l' == AfterHealing(whole, Window(whole), selection, disk)
  }

  /** The layout before the action. */
  ghost predicate BeforeBy(d: Deck, l: Layout, capture: bool, d': Deck, l': Layout, disk: Disk, weight: nat) {
    exists mid, begun :: BeginsBy(d, l, mid, begun, disk, weight)
      && if capture then WindowBy(mid, begun, d', l', disk, weight) else d' == mid && l' == begun
  }

  /** What a preparation makes: a layout and its selection, where the window was before if that was
      captured, and the wallpaper to be put into quarantine. */
  datatype Preparation = Preparation(layout: Layout, selection: Row, before_start: Option<nat>, target: Option<string>)

  /** `prepare_wallpaper_change`, completed. */
  ghost predicate PreparesBy(d: Deck, l: Layout, action: Action, capture: bool, d': Deck, p: Preparation, disk: Disk, weight: nat) {
    exists d1, before, d2, acted ::
      && BeforeBy(d, l, capture, d1, before, disk, weight) && before.out_count == l.out_count > 0
      && p.before_start == (if capture then Some(Start(before)) else None)
      && ActsBy(d1, before, action, d2, acted, p.target, disk, weight)
      && SelectsBy(d2, acted, d', p.layout, p.selection, disk, weight)
  }

  /** The preparation that a plan is of. */
  function Made(plan: Planned): Preparation { Preparation(plan.layout, plan.selection, plan.before_start, plan.target) }

  /** `prepare_startup_display`, completed. */
  ghost predicate StartsBy(d: Deck, l: Layout, d': Deck, l': Layout, selection: Row, disk: Disk, weight: nat) {
    exists mid, whole ::
      && BeforeBy(d, l, true, mid, whole, disk, weight) && HealedBy(mid, Window(whole), d', selection, disk, weight)
      && l' == AfterHealing(whole, Window(whole), selection, disk)
  }

  // ---- how the parts are put together ----

  lemma FateThen(d0: Deck, d: Deck, d1: Deck, d2: Deck, first: Option<nat>, second: Option<nat>, disk: Disk, weight: nat)
    requires Fate(d0, d, d1, first, disk, weight) && Fate(d0, d1, d2, second, disk, weight)
    ensures Fate(d0, d, d2, if first.Some? then second else None, disk, weight)
  {
    hide Kept, Lost, OneForAll, Rigid;
  }

  lemma FateOfNothing(d0: Deck, d: Deck, disk: Disk, weight: nat)
    requires Kept(d0, d, disk)
    ensures Fate(d0, d, d, Some(d.pos), disk, weight)
  {}

  /** What is asked of the decks in all that follows. */
  ghost predicate Dealing(d0: Deck, disk: Disk, weight: nat) { DeckOk(d0) && Listed(d0, disk) && weight >= 1 }

  function RowPos(r: Option<(Row, nat)>): Option<nat> { if r.Some? then Some(r.value.1) else None }
  function DealtPos(r: Option<Dealt>): Option<nat> { if r.Some? then Some(r.value.pos) else None }

  /** A draw. */
  lemma RowFate(d0: Deck, d: Deck, count: nat, exclude: Option<string>, row: Row, d': Deck, disk: Disk, weight: nat)
    requires DrawsTo(d, count, exclude, row, d', disk, weight) && Kept(d0, d, disk) && Dealing(d0, disk, weight) && count > 0
    ensures |row| == count && Fate(d0, d, d', RowPos(DealRow(d, count, exclude, disk)), disk, weight)
    ensures DealRow(d, count, exclude, disk).Some? ==> DealRow(d, count, exclude, disk).value.0 == row
    ensures forall x | x in row :: x in disk.folder && exclude != Some(x)
  {
    hide Scan, Fate, Kept;
    DrawFate(d0, d, count, exclude, row, d', disk, weight);
    NotFailed(d, count, exclude, row, d', disk, weight);
  }

  lemma NotFailed(d: Deck, count: nat, exclude: Option<string>, row: Row, d': Deck, disk: Disk, weight: nat)
    requires DrawsTo(d, count, exclude, row, d', disk, weight)
    ensures !DrawFails(d, count, exclude, disk)
    ensures DealRow(d, count, exclude, disk) == Scan(d.bag, d.pos, [], WantOf(d, count, exclude), disk)
  {
    hide CompleteRun, DrawFails;
  }

  lemma FateKept(d0: Deck, d: Deck, d': Deck, dealt: Option<nat>, disk: Disk, weight: nat)
    requires Fate(d0, d, d', dealt, disk, weight)
    ensures Kept(d0, d', disk) && (dealt.Some? ==> d' == d.(pos := dealt.value))
  {}

  lemma BeginsFate(d0: Deck, d: Deck, l: Layout, d': Deck, l': Layout, disk: Disk, weight: nat)
    requires BeginsBy(d, l, d', l', disk, weight) && WellFormed(l) && Kept(d0, d, disk) && Dealing(d0, disk, weight)
    ensures Started(l') && SameShape(l', l) && Begins(l, l', disk)
    ensures Fate(d0, d, d', DealtPos(DealInitial(d, l, disk)), disk, weight)
    ensures DealInitial(d, l, disk).Some? ==> DealInitial(d, l, disk).value.layout == l'
  {
    hide Kept, Fate, DealRow, DrawsTo, Initialized;
    if l.history != [] {
      FateOfNothing(d0, d, disk, weight);
    } else {
      var row :| DrawsTo(d, l.out_count, None, row, d', disk, weight) && l' == Initialized(l, row);
      RowFate(d0, d, l.out_count, None, row, d', disk, weight);
      InitializedStarts(l, row);
      RowFromFolder(row, disk);
    }
  }

  lemma RowFromFolder(row: Row, disk: Disk)
    requires forall x | x in row :: x in disk.folder
    ensures FromFolder([row], disk)
  {
    forall i, j | 0 <= i < 1 && 0 <= j < |[row][i]| ensures [row][i][j] in disk.folder {
      assert [row][i] == row && row[j] in row;
    }
  }

  /** Rows that are drawn until a window is whole. */
  lemma {:induction false} RowsFate(d0: Deck, d: Deck, l: Layout, rows: seq<Row>, d': Deck, disk: Disk, weight: nat)
    requires RowsBy(d, l.out_count, rows, d', disk, weight) && Started(l) && CanComplete(l) && Kept(d0, d, disk) && Dealing(d0, disk, weight)
    requires Complete(GrowAll(l, rows)) && |rows| == Deficit(l)
    ensures Rows(rows, l.out_count) && FromFolder(rows, disk)
    ensures Fate(d0, d, d', DealtPos(DealWindow(d, l, disk)), disk, weight)
    ensures DealWindow(d, l, disk).Some? ==> DealWindow(d, l, disk).value.layout == GrowAll(l, rows)
    decreases |rows|
  {
    hide Kept, Fate, DealRow, DrawsTo, Complete, CanComplete, Grow, Deficit;
    CompleteIsNoDeficit(l);
    if rows == [] {
      FateOfNothing(d0, d, disk, weight);
    } else {
      var next :| DrawsTo(d, l.out_count, None, rows[0], next, disk, weight) && RowsBy(next, l.out_count, rows[1..], d', disk, weight);
      RowFate(d0, d, l.out_count, None, rows[0], next, disk, weight);
      FateKept(d0, d, next, RowPos(DealRow(d, l.out_count, None, disk)), disk, weight);
      GrowProgress(l, rows[0]);
      var grown := Grow(l, rows[0]);
      RowsFate(d0, next, grown, rows[1..], d', disk, weight);
      FateThen(d0, d, next, d', RowPos(DealRow(d, l.out_count, None, disk)), DealtPos(DealWindow(next, grown, disk)), disk, weight);
      RowFromFolder(rows[0], disk);
      MoreRows(rows, l.out_count, disk);
    }
  }

  lemma MoreRows(rows: seq<Row>, n: nat, disk: Disk)
    requires rows != [] && |rows[0]| == n && Rows(rows[1..], n) && FromFolder([rows[0]], disk) && FromFolder(rows[1..], disk)
    ensures Rows(rows, n) && FromFolder(rows, disk)
  {
    forall i | 0 <= i < |rows| ensures |rows[i]| == n {
      assert i > 0 ==> rows[i] == rows[1..][i - 1];
    }
    forall i, j | 0 <= i < |rows| && 0 <= j < |rows[i]| ensures rows[i][j] in disk.folder {
      if i > 0 {
        assert rows[i] == rows[1..][i - 1];
      } else {
        assert rows[0] == [rows[0]][0];
      }
    }
  }

  /** One more row. */
  lemma {:induction false} RowsAppend(d: Deck, n: nat, rows: seq<Row>, mid: Deck, row: Row, d': Deck, disk: Disk, weight: nat)
    requires RowsBy(d, n, rows, mid, disk, weight) && DrawsTo(mid, n, None, row, d', disk, weight)
    ensures RowsBy(d, n, rows + [row], d', disk, weight)
    decreases |rows|
  {
    hide DrawsTo;
    if rows == [] {
      assert rows + [row] == [row];
      assert RowsBy(d', n, [row][1..], d', disk, weight);
    } else {
      var next :| DrawsTo(d, n, None, rows[0], next, disk, weight) && RowsBy(next, n, rows[1..], mid, disk, weight);
      RowsAppend(next, n, rows[1..], mid, row, d', disk, weight);
      assert (rows + [row])[1..] == rows[1..] + [row];
    }
  }

  lemma WindowFate(d0: Deck, d: Deck, l: Layout, d': Deck, l': Layout, disk: Disk, weight: nat)
    requires WindowBy(d, l, d', l', disk, weight) && Started(l) && Kept(d0, d, disk) && Dealing(d0, disk, weight)
    ensures CanComplete(l) && Reached(l, l', disk) && Started(l') && Complete(l') && SameShape(l', l) && |Window(l')| == l.out_count
    ensures Fate(d0, d, d', DealtPos(DealWindow(d, l, disk)), disk, weight)
    ensures DealWindow(d, l, disk).Some? ==> DealWindow(d, l, disk).value.layout == l'
  {
    hide Kept, Fate, DealWindow, RowsBy, Complete, CanComplete, Deficit, Window;
    var rows :| Ensured(l, rows, l') && RowsBy(d, l.out_count, rows, d', disk, weight);
    if !CanComplete(l) {
      NeverCompletes(l, rows);
    }
    RowsFate(d0, d, l, rows, d', disk, weight);
    ReachedKeeps(l, l', disk);
  }

  function ActedPos(r: Option<(Layout, nat, Option<string>)>): Option<nat> { if r.Some? then Some(r.value.1) else None }

  /** Replacing one entry of a window that is whole already. */
  function DealOne(d: Deck, l: Layout, index: nat, exclude: Option<string>, disk: Disk): Option<(Layout, nat)>
    requires index < |Window(l)|
  {
    match DealRow(d, 1, exclude, disk)
    case None => None
    case Some((one, pos)) => Some((Record(l, Window(l)[index := one[0]]), pos))
  }

  lemma OneFate(d0: Deck, d: Deck, l: Layout, index: nat, exclude: Option<string>, d': Deck, l': Layout, disk: Disk, weight: nat)
    requires SubstitutesBy(d, l, index, exclude, d', l', disk, weight) && Started(l) && Complete(l) && Kept(d0, d, disk) && Dealing(d0, disk, weight)
    ensures index < |Window(l)| && Started(l') && Complete(l') && SameShape(l', l)
    ensures exists one :: SubstitutedIn(l, index, exclude, one, l', disk)
    ensures var deal := DealOne(d, l, index, exclude, disk);
      && Fate(d0, d, d', if deal.Some? then Some(deal.value.1) else None, disk, weight)
      && (deal.Some? ==> deal.value.0 == l')
  {
    hide Kept, Fate, DealRow, DrawsTo, Complete, Window, Record, Started;
    var one :| DrawsTo(d, 1, exclude, [one], d', disk, weight) && index < |Window(l)| && l' == Record(l, Window(l)[index := one]);
    RowFate(d0, d, 1, exclude, [one], d', disk, weight);
    assert [one][0] == one && one in [one];
    WholeWindow(l);
    StartedRows(l);
    RecordShows(l, Window(l)[index := one]);
    RecordShape(l, Window(l)[index := one]);
    assert SubstitutedIn(l, index, exclude, one, l', disk);
  }

  /** `DealReplaced` from a layout with a history. */
  lemma DealReplacedIs(d: Deck, l: Layout, index: nat, exclude: Option<string>, disk: Disk)
    requires Started(l) && CanComplete(l) && index < l.out_count
    ensures DealWindow(d, l, disk).None? ==> DealReplaced(d, l, index, exclude, disk).None?
    ensures DealWindow(d, l, disk).Some? ==>
      var whole := DealWindow(d, l, disk).value;
      index < |Window(whole.layout)| && DealReplaced(d, l, index, exclude, disk) == DealOne(d.(pos := whole.pos), whole.layout, index, exclude, disk)
  {
    hide DealWindow, DealRow, Record, Window, Complete, CanComplete;
    if DealWindow(d, l, disk).Some? {
      WholeWindow(DealWindow(d, l, disk).value.layout);
    }
  }

  ghost predicate RecordsOne(l: Layout, index: nat, exclude: Option<string>, l': Layout, disk: Disk) {
    exists whole, one :: Reached(l, whole, disk) && SubstitutedIn(whole, index, exclude, one, l', disk)
  }

  predicate SubstitutedIn(whole: Layout, index: nat, exclude: Option<string>, one: string, l': Layout, disk: Disk) {
    index < |Window(whole)| && one in disk.folder && exclude != Some(one) && l' == Record(whole, Window(whole)[index := one])
  }

  lemma ReplacesFate(d0: Deck, d: Deck, l: Layout, index: nat, exclude: Option<string>, d': Deck, l': Layout, disk: Disk, weight: nat)
    requires ReplacesBy(d, l, index, exclude, d', l', disk, weight) && Started(l) && Kept(d0, d, disk) && Dealing(d0, disk, weight)
    ensures CanComplete(l) && index < l.out_count && Started(l') && Complete(l') && SameShape(l', l)
    ensures RecordsOne(l, index, exclude, l', disk)
    ensures var deal := DealReplaced(d, l, index, exclude, disk);
      && Fate(d0, d, d', if deal.Some? then Some(deal.value.1) else None, disk, weight)
      && (deal.Some? ==> deal.value.0 == l')
  {
    hide Kept, Fate, WindowBy, SubstitutesBy, DealOne, DealReplaced, DealWindow, Complete, Window, Record, Started, CanComplete, Reached;
    var mid, whole :| WindowBy(d, l, mid, whole, disk, weight) && SubstitutesBy(mid, whole, index, exclude, d', l', disk, weight);
    WindowFate(d0, d, l, mid, whole, disk, weight);
    FateKept(d0, d, mid, DealtPos(DealWindow(d, l, disk)), disk, weight);
    OneFate(d0, mid, whole, index, exclude, d', l', disk, weight);
    DealReplacedIs(d, l, index, exclude, disk);
    var one := DealOne(mid, whole, index, exclude, disk);
    FateThen(d0, d, mid, d', DealtPos(DealWindow(d, l, disk)), if one.Some? then Some(one.value.1) else None, disk, weight);
  }

  /** A wallpaper is put into quarantine. */
  lemma QuarantineFate(d0: Deck, d: Deck, l: Layout, index: nat, d': Deck, l': Layout, target: Option<string>, disk: Disk, weight: nat)
    requires Started(l) && ActsBy(d, l, Quarantine(index), d', l', target, disk, weight) && Kept(d0, d, disk) && Dealing(d0, disk, weight)
    ensures Reaches(l, Quarantine(index)) && index < l.out_count && Started(l') && Complete(l') && SameShape(l', l)
    ensures Substitutes(l, index, true, l', disk)
    ensures var deal := DealAction(d, l, Quarantine(index), disk);
      && Fate(d0, d, d', ActedPos(deal), disk, weight)
      && (deal.Some? ==> deal.value.0 == l' && deal.value.2 == target)
  {
    hide Kept, Fate, WindowBy, SubstitutesBy, DealOne, DealReplaced, DealWindow, Complete, Window, Record, Started, CanComplete, Reached;
    var mid, whole :|
      && WindowBy(d, l, mid, whole, disk, weight) && index < |Window(whole)| && target == Some(Window(whole)[index])
      && SubstitutesBy(mid, whole, index, target, d', l', disk, weight);
    WindowFate(d0, d, l, mid, whole, disk, weight);
    FateKept(d0, d, mid, DealtPos(DealWindow(d, l, disk)), disk, weight);
    OneFate(d0, mid, whole, index, target, d', l', disk, weight);
    DealOneOfWhole(mid, whole, index, target, disk);
    var one := DealOne(mid, whole, index, target, disk);
    FateThen(d0, d, mid, d', DealtPos(DealWindow(d, l, disk)), if one.Some? then Some(one.value.1) else None, disk, weight);
  }

  lemma DealOneOfWhole(d: Deck, l: Layout, index: nat, exclude: Option<string>, disk: Disk)
    requires Started(l) && Complete(l) && index < l.out_count && index < |Window(l)|
    ensures DealReplaced(d, l, index, exclude, disk) == DealOne(d, l, index, exclude, disk)
  {
    hide DealReplaced, DealOne, Window;
    DealReplacedIs(d, l, index, exclude, disk);
    assert DealWindow(d, l, disk) == Some(Dealt(l, d.pos)) && d == d.(pos := d.pos);
  }

  /** The action; what has been done to a window that can be made whole was to be done. */
  lemma ActsFate(d0: Deck, d: Deck, l: Layout, action: Action, d': Deck, l': Layout, target: Option<string>, disk: Disk, weight: nat)
    requires Started(l) && ActsBy(d, l, action, d', l', target, disk, weight) && Kept(d0, d, disk) && Dealing(d0, disk, weight)
    ensures Kept(d0, d', disk) && IndexOk(action, l.out_count) && Started(l') && SameShape(l', l) && Acts(l, action, l', disk)
    ensures CanComplete(l') ==>
      && Reaches(l, action)
      && var deal := DealAction(d, l, action, disk);
      && Fate(d0, d, d', ActedPos(deal), disk, weight)
      && (deal.Some? ==> deal.value.0 == l' && deal.value.2 == target)
  {
    hide Kept, Fate, DealReplaced, DealWindow, Complete, Window, Record, CanComplete, Moved, Reached, ReplacesBy, WindowBy;
    match action
    case Move(m) =>
      MovedStarts(l, m);
      FateOfNothing(d0, d, disk, weight);
    case Replace(index) =>
      ReplacesFate(d0, d, l, index, None, d', l', disk, weight);
      var deal := DealReplaced(d, l, index, None, disk);
      FateKept(d0, d, d', if deal.Some? then Some(deal.value.1) else None, disk, weight);
    case Quarantine(index) =>
      QuarantineFate(d0, d, l, index, d', l', target, disk, weight);
      FateKept(d0, d, d', ActedPos(DealAction(d, l, action, disk)), disk, weight);
  }

  lemma {:induction false} HealedFate(d0: Deck, d: Deck, selection: Row, d': Deck, healed: Row, disk: Disk, weight: nat)
    requires HealedBy(d, selection, d', healed, disk, weight) && Kept(d0, d, disk) && Dealing(d0, disk, weight)
    ensures Fate(d0, d, d', RowPos(DealHealing(d, selection, disk)), disk, weight)
    ensures DealHealing(d, selection, disk).Some? ==> DealHealing(d, selection, disk).value.0 == healed
    ensures HealedFrom(selection, healed, disk)
    decreases |selection|
  {
    hide Kept, Fate, DealHealing, DrawsTo, HealedFrom;
    HealedNothing(d, disk);
    if selection == [] {
      FateOfNothing(d0, d, disk, weight);
    } else {
      var last := |selection| - 1;
      var mid, init :| HealedBy(d, selection[..last], mid, init, disk, weight)
        && if Shown(selection[last], disk) then d' == mid && healed == init + [selection[last]]
           else exists one :: DrawsTo(mid, 1, None, [one], d', disk, weight) && healed == init + [one];
      HealedFate(d0, d, selection[..last], mid, init, disk, weight);
      FateKept(d0, d, mid, RowPos(DealHealing(d, selection[..last], disk)), disk, weight);
      assert selection == selection[..last] + [selection[last]];
      DealHealingStep(d, selection[..last], selection[last], disk);
      if Shown(selection[last], disk) {
        HealedFromStep(selection[..last], init, selection[last], selection[last], disk);
      } else {
        var one :| DrawsTo(mid, 1, None, [one], d', disk, weight) && healed == init + [one];
        HealOneFate(d0, d, selection[..last], mid, init, one, d', disk, weight);
        HealedFromStep(selection[..last], init, selection[last], one, disk);
      }
    }
  }

  /** One more wallpaper is replaced. */
  lemma HealOneFate(d0: Deck, d: Deck, selection: Row, mid: Deck, init: Row, one: string, d': Deck, disk: Disk, weight: nat)
    requires Fate(d0, d, mid, RowPos(DealHealing(d, selection, disk)), disk, weight) && Kept(d0, mid, disk) && Dealing(d0, disk, weight)
    requires DrawsTo(mid, 1, None, [one], d', disk, weight)
    ensures one in disk.folder && Fate(d0, d, d', if DealHealing(d, selection, disk).Some? then RowPos(DealRow(mid, 1, None, disk)) else None, disk, weight)
    ensures DealRow(mid, 1, None, disk).Some? ==> DealRow(mid, 1, None, disk).value.0 == [one]
  {
    hide Kept, Fate, DealHealing, DrawsTo, DealRow;
    RowFate(d0, mid, 1, None, [one], d', disk, weight);
    FateThen(d0, d, mid, d', RowPos(DealHealing(d, selection, disk)), RowPos(DealRow(mid, 1, None, disk)), disk, weight);
    assert one in [one];
  }

  function SelectedPos(r: Option<(Layout, Row, nat)>): Option<nat> { if r.Some? then Some(r.value.2) else None }

  lemma SelectsFate(d0: Deck, d: Deck, l: Layout, d': Deck, l': Layout, selection: Row, disk: Disk, weight: nat)
    requires SelectsBy(d, l, d', l', selection, disk, weight) && Started(l) && Kept(d0, d, disk) && Dealing(d0, disk, weight)
    ensures CanComplete(l) && Selects(l, l', selection, disk)
    ensures Fate(d0, d, d', SelectedPos(DealSelection(d, l, disk)), disk, weight)
    ensures DealSelection(d, l, disk).Some? ==> DealSelection(d, l, disk).value.0 == l' && DealSelection(d, l, disk).value.1 == selection
  {
    hide Kept, Fate, DealHealing, DealWindow, Complete, Window, CanComplete, Reached, HealedBy, WindowBy, HealedFrom, Started;
    var mid, whole :|
      && WindowBy(d, l, mid, whole, disk, weight) && HealedBy(mid, Window(whole), d', selection, disk, weight)
      && l' == AfterHealing(whole, Window(whole), selection, disk);
    WindowFate(d0, d, l, mid, whole, disk, weight);
    FateKept(d0, d, mid, DealtPos(DealWindow(d, l, disk)), disk, weight);
    HealedFate(d0, mid, Window(whole), d', selection, disk, weight);
    FateThen(d0, d, mid, d', DealtPos(DealWindow(d, l, disk)), RowPos(DealHealing(mid, Window(whole), disk)), disk, weight);
  }

  lemma BeforeFate(d0: Deck, d: Deck, l: Layout, action: Action, capture: bool, d': Deck, l': Layout, disk: Disk, weight: nat)
    requires BeforeBy(d, l, capture, d', l', disk, weight) && WellFormed(l) && Kept(d0, d, disk) && Dealing(d0, disk, weight)
    ensures Kept(d0, d', disk) && Started(l') && SameShape(l', l)
    ensures exists begun :: Begins(l, begun, disk) && if capture then Reached(begun, l', disk) else l' == begun
    ensures ReachesWith(l, action, capture) ==>
      var deal := DealBefore(d, l, action, capture, disk);
      && Fate(d0, d, d', DealtPos(deal), disk, weight)
      && (deal.Some? ==> deal.value.layout == l')
  {
    hide Kept, Fate, DealInitial, DealWindow, Complete, CanComplete, Reached, BeginsBy, Begins, WindowBy, Started, Reaches, ReachesWith;
    var mid, begun :| BeginsBy(d, l, mid, begun, disk, weight)
      && if capture then WindowBy(mid, begun, d', l', disk, weight) else d' == mid && l' == begun;
    BeginsFate(d0, d, l, mid, begun, disk, weight);
    FateKept(d0, d, mid, DealtPos(DealInitial(d, l, disk)), disk, weight);
    if capture {
      WindowFate(d0, mid, begun, d', l', disk, weight);
      FateKept(d0, mid, d', DealtPos(DealWindow(mid, begun, disk)), disk, weight);
      FateThen(d0, d, mid, d', DealtPos(DealInitial(d, l, disk)), DealtPos(DealWindow(mid, begun, disk)), disk, weight);
    }
  }

  function PlannedPos(r: Option<Planned>): Option<nat> { if r.Some? then Some(r.value.pos) else None }

  /** All that a completed preparation can do: it is one of `Prepares`; where the bag suffices it is the
      one that is dealt. */
  lemma PreparesFate(d0: Deck, d: Deck, l: Layout, action: Action, capture: bool, d': Deck, p: Preparation, disk: Disk, weight: nat)
    requires PreparesBy(d, l, action, capture, d', p, disk, weight) && WellFormed(l)
    requires Kept(d0, d, disk) && Dealing(d0, disk, weight)
    ensures l.out_count > 0 && Prepares(l, action, capture, p.layout, p.selection, disk)
    ensures ReachesWith(l, action, capture) && IndexOk(action, l.out_count)
    ensures var plan := DealChange(d, l, action, capture, disk);
      && Fate(d0, d, d', PlannedPos(plan), disk, weight)
      && (plan.Some? ==> Made(plan.value) == p)
  {
    hide Kept, Fate, BeforeBy, ActsBy, SelectsBy, DealBefore, DealAction, DealSelection, Started, CanComplete, Begins, Reached, Acts, Selects, Reaches, ReachesWith;
    var d1, before, d2, acted :|
      && BeforeBy(d, l, capture, d1, before, disk, weight) && before.out_count == l.out_count > 0
      && p.before_start == (if capture then Some(Start(before)) else None)
      && ActsBy(d1, before, action, d2, acted, p.target, disk, weight)
      && SelectsBy(d2, acted, d', p.layout, p.selection, disk, weight);
    BeforeFate(d0, d, l, action, capture, d1, before, disk, weight);
    ActsFate(d0, d1, before, action, d2, acted, p.target, disk, weight);
    SelectsFate(d0, d2, acted, d', p.layout, p.selection, disk, weight);
    assert Prepares(l, action, capture, p.layout, p.selection, disk);
    PreparedReaches(l, action, capture, p.layout, p.selection, disk);
    var first, second, third := DealBefore(d, l, action, capture, disk), DealAction(d1, before, action, disk), DealSelection(d2, acted, disk);
    FateKept(d0, d, d1, DealtPos(first), disk, weight);
    FateKept(d0, d1, d2, ActedPos(second), disk, weight);
    FateThen(d0, d1, d2, d', ActedPos(second), SelectedPos(third), disk, weight);
    FateThen(d0, d, d1, d', DealtPos(first), if second.Some? then SelectedPos(third) else None, disk, weight);
  }

  /** What goes into quarantine: for a quarantine the wallpaper at the index of the window, made whole with
      drawn rows if need be, and nothing for another action. */
  lemma PreparedTarget(d: Deck, l: Layout, action: Action, capture: bool, d': Deck, p: Preparation, disk: Disk, weight: nat)
    requires PreparesBy(d, l, action, capture, d', p, disk, weight) && WellFormed(l) && Kept(d, d, disk) && Dealing(d, disk, weight)
    ensures !action.Quarantine? ==> p.target == None
    ensures action.Quarantine? ==> TargetOf(l, action.index, p.target, disk)
    ensures action.Quarantine? && Started(l) && Complete(l) ==> action.index < |Window(l)| && p.target == Some(Window(l)[action.index])
  {
    hide BeforeBy, SelectsBy, Kept, Dealing, Fate, Started, Complete, CanComplete, WellFormed, Window, WindowBy, SubstitutesBy, ReplacesBy, Begins, Reached, DealWindow, ReachesWith;
    var d1, before, d2, acted :|
      && BeforeBy(d, l, capture, d1, before, disk, weight) && before.out_count == l.out_count > 0
      && ActsBy(d1, before, action, d2, acted, p.target, disk, weight)
      && SelectsBy(d2, acted, d', p.layout, p.selection, disk, weight);
    BeforeFate(d, d, l, action, capture, d1, before, disk, weight);
    if action.Quarantine? {
      var index := action.index;
      assert ActsBy(d1, before, Quarantine(index), d2, acted, p.target, disk, weight);
      var mid, whole :|
        && WindowBy(d1, before, mid, whole, disk, weight) && index < |Window(whole)| && p.target == Some(Window(whole)[index])
        && SubstitutesBy(mid, whole, index, p.target, d2, acted, disk, weight);
      WindowFate(d, d1, before, mid, whole, disk, weight);
      var begun :| Begins(l, begun, disk) && if capture then Reached(begun, before, disk) else before == begun;
      WholeFrom(l, begun, capture, before, whole, disk);
    }
  }

  /** Entry `index` of the window that drawing makes whole. */
  ghost predicate TargetOf(l: Layout, index: nat, target: Option<string>, disk: Disk) {
    exists begun, whole :: Begins(l, begun, disk) && Reached(begun, whole, disk) && index < |Window(whole)| && target == Some(Window(whole)[index])
  }

  /** Making whole what has been made whole changes nothing. */
  lemma WholeFrom(l: Layout, begun: Layout, capture: bool, before: Layout, whole: Layout, disk: Disk)
    requires WellFormed(l) && Begins(l, begun, disk) && Reached(before, whole, disk) && if capture then Reached(begun, before, disk) else before == begun
    ensures Reached(begun, whole, disk)
    ensures Started(l) && Complete(l) ==> whole == l
  {
    hide Reached, Complete, WellFormed;
    BeginsKeeps(l, begun, disk);
    if capture {
      ReachedCanComplete(begun, before, disk);
      ReachedKeeps(begun, before, disk);
      CompleteStays(before, disk);
    }
    if Complete(begun) {
      CompleteStays(begun, disk);
    }
  }

  // ---- as the methods go ----

  /** Left as it is, or made whole. */
  ghost predicate LeftAt(d: Deck, l: Layout, d': Deck, l': Layout, disk: Disk, weight: nat) {
    (d' == d && l' == l) || WindowBy(d, l, d', l', disk, weight)
  }

  /** Started, acted upon, and possibly made whole already. */
  ghost predicate ActedBy(d: Deck, l: Layout, action: Action, d': Deck, l': Layout, target: Option<string>, disk: Disk, weight: nat) {
    exists d1, begun, d2, acted ::
      && BeginsBy(d, l, d1, begun, disk, weight) && begun.out_count == l.out_count > 0
      && ActsBy(d1, begun, action, d2, acted, target, disk, weight)
      && LeftAt(d2, acted, d', l', disk, weight)
  }

  /** `run_replace`. */
  ghost predicate ReplacedBy(d: Deck, l: Layout, index: nat, exclude: Option<string>, d': Deck, l': Layout, disk: Disk, weight: nat) {
    exists mid, begun :: BeginsBy(d, l, mid, begun, disk, weight) && ReplacesBy(mid, begun, index, exclude, d', l', disk, weight)
  }

  lemma ReplacedNow(d: Deck, l: Layout, mid: Deck, begun: Layout, mid2: Deck, whole: Layout, index: nat, exclude: Option<string>, one: string,
                    d': Deck, l': Layout, disk: Disk, weight: nat)
    requires BeginsBy(d, l, mid, begun, disk, weight) && WindowBy(mid, begun, mid2, whole, disk, weight)
    requires DrawsTo(mid2, 1, exclude, [one], d', disk, weight) && Started(whole) && Complete(whole) && index < whole.out_count
    ensures index < |Window(whole)|
    ensures l' == Record(whole, Window(whole)[index := one]) ==>
      ReplacedBy(d, l, index, exclude, d', l', disk, weight) && Window(l') == Window(whole)[index := one]
  {
    hide BeginsBy, WindowBy, DrawsTo, Started, Complete, Window, Record;
    WholeWindow(whole);
    StartedRows(whole);
    RecordShows(whole, Window(whole)[index := one]);
    if l' == Record(whole, Window(whole)[index := one]) {
      assert SubstitutesBy(mid2, whole, index, exclude, d', l', disk, weight);
      assert ReplacesBy(mid, begun, index, exclude, d', l', disk, weight);
    }
  }

  lemma ReplacedActed(d: Deck, l: Layout, index: nat, d': Deck, l': Layout, disk: Disk, weight: nat)
    requires ReplacedBy(d, l, index, None, d', l', disk, weight) && WellFormed(l) && Kept(d, d, disk) && Dealing(d, disk, weight)
    ensures ActedBy(d, l, Replace(index), d', l', None, disk, weight)
  {
    hide BeginsBy, ReplacesBy, Started, WellFormed, Kept, Fate;
    var mid, begun :| BeginsBy(d, l, mid, begun, disk, weight) && ReplacesBy(mid, begun, index, None, d', l', disk, weight);
    BeginsFate(d, d, l, mid, begun, disk, weight);
    StartedRows(begun);
    assert ActsBy(mid, begun, Replace(index), d', l', None, disk, weight);
  }

  lemma MovedActed(d: Deck, l: Layout, m: Move, mid: Deck, begun: Layout, d': Deck, l': Layout, disk: Disk, weight: nat)
    requires BeginsBy(d, l, mid, begun, disk, weight) && begun.out_count == l.out_count > 0
    requires LeftAt(mid, Moved(begun, m), d', l', disk, weight)
    ensures ActedBy(d, l, Action.Move(m), d', l', None, disk, weight)
  {
    hide BeginsBy, LeftAt, Moved;
    assert ActsBy(mid, begun, Action.Move(m), mid, Moved(begun, m), None, disk, weight);
  }

  /** Replaced in a window that was made whole, a wallpaper goes into quarantine. */
  lemma QuarantineActed(d: Deck, l: Layout, mid: Deck, begun: Layout, mid2: Deck, whole: Layout, index: nat, d': Deck, l': Layout, disk: Disk, weight: nat)
    requires BeginsBy(d, l, mid, begun, disk, weight) && begun.out_count == l.out_count > 0 && WindowBy(mid, begun, mid2, whole, disk, weight)
    requires Started(whole) && Complete(whole) && index < |Window(whole)|
    requires ReplacedBy(mid2, whole, index, Some(Window(whole)[index]), d', l', disk, weight)
    ensures ActedBy(d, l, Quarantine(index), d', l', Some(Window(whole)[index]), disk, weight)
  {
    hide Started, Complete, Window, SubstitutesBy;
    var target := Some(Window(whole)[index]);
    StartedRows(whole);
    var mid3, begun2 :| BeginsBy(mid2, whole, mid3, begun2, disk, weight) && ReplacesBy(mid3, begun2, index, target, d', l', disk, weight);
    var mid4, whole2 :| WindowBy(mid3, begun2, mid4, whole2, disk, weight) && SubstitutesBy(mid4, whole2, index, target, d', l', disk, weight);
    WindowStays(mid3, whole, mid4, whole2, disk, weight);
    assert ActsBy(mid, begun, Quarantine(index), d', l', target, disk, weight);
  }

  lemma ActedShape(d: Deck, l: Layout, action: Action, d': Deck, l': Layout, target: Option<string>, disk: Disk, weight: nat)
    requires ActedBy(d, l, action, d', l', target, disk, weight) && WellFormed(l) && Reaches(l, action) && Kept(d, d, disk) && Dealing(d, disk, weight)
    ensures Started(l') && SameShape(l', l) && CanComplete(l')
  {
    hide BeginsBy, ActsBy, WindowBy, Started, WellFormed, Kept, Fate, Begins, Reaches, CanComplete, Complete, Moved;
    var d1, begun, d2, acted :|
      && BeginsBy(d, l, d1, begun, disk, weight) && begun.out_count == l.out_count > 0
      && ActsBy(d1, begun, action, d2, acted, target, disk, weight)
      && LeftAt(d2, acted, d', l', disk, weight);
    BeginsFate(d, d, l, d1, begun, disk, weight);
    FateKept(d, d, d1, DealtPos(DealInitial(d, l, disk)), disk, weight);
    assert ReachesWith(l, action, false);
    BegunReaches(l, begun, action, false, disk);
    ActsFate(d, d1, begun, action, d2, acted, target, disk, weight);
    ActedOnReaches(begun, action, acted, disk);
    if !(d' == d2 && l' == acted) {
      WindowFate(d, d2, acted, d', l', disk, weight);
      CompleteCan(l');
    }
  }

  lemma ActedOnReaches(l: Layout, action: Action, l': Layout, disk: Disk)
    requires Started(l) && Reaches(l, action) && Acts(l, action, l', disk)
    ensures CanComplete(l')
  {
    hide Reaches, Started, Complete, CanComplete, Moved, Substitutes;
    StartedRows(l);
    if action.Move? {
      ReachesMoved(l, action.m);
    } else {
      ActsKeeps(l, action, l', disk);
    }
  }

  lemma HealedByNothing(d: Deck, disk: Disk, weight: nat)
    ensures HealedBy(d, [], d, [], disk, weight)
  {}

  lemma HealedByStep(d: Deck, selection: Row, mid: Deck, healed: Row, last: string, last': string, d': Deck, disk: Disk, weight: nat)
    requires HealedBy(d, selection, mid, healed, disk, weight)
    requires if Shown(last, disk) then d' == mid && last' == last else DrawsTo(mid, 1, None, [last'], d', disk, weight)
    ensures HealedBy(d, selection + [last], d', healed + [last'], disk, weight)
  {
    hide DrawsTo;
    var all := selection + [last];
    assert all[..|all| - 1] == selection && all[|all| - 1] == last;
  }

  lemma WindowStays(d: Deck, l: Layout, d': Deck, l': Layout, disk: Disk, weight: nat)
    requires Started(l) && Complete(l) && WindowBy(d, l, d', l', disk, weight)
    ensures d' == d && l' == l
  {
    hide Started, Complete;
    CompleteIsNoDeficit(l);
    var rows :| Ensured(l, rows, l') && RowsBy(d, l.out_count, rows, d', disk, weight);
    assert |rows| == Deficit(l);
    assert rows == [];
  }

  lemma WindowAlready(d: Deck, l: Layout, disk: Disk, weight: nat)
    requires Started(l) && Complete(l)
    ensures WindowBy(d, l, d, l, disk, weight)
  {
    hide Complete, Deficit;
    CompleteIsNoDeficit(l);
    assert Ensured(l, [], l) && RowsBy(d, l.out_count, [], d, disk, weight);
  }

  /** Selecting after the window has been made whole is selecting once. */
  lemma SelectsLeft(d: Deck, l: Layout, mid: Deck, l2: Layout, d': Deck, l': Layout, selection: Row, disk: Disk, weight: nat)
    requires LeftAt(d, l, mid, l2, disk, weight) && SelectsBy(mid, l2, d', l', selection, disk, weight) && Started(l2)
    ensures SelectsBy(d, l, d', l', selection, disk, weight)
  {
    hide Started, Complete, Window, HealedBy;
    if !(mid == d && l2 == l) {
      var mid2, whole :|
        && WindowBy(mid, l2, mid2, whole, disk, weight) && HealedBy(mid2, Window(whole), d', selection, disk, weight)
        && l' == AfterHealing(whole, Window(whole), selection, disk);
      WindowIsComplete(d, l, mid, l2, disk, weight);
      WindowStays(mid, l2, mid2, whole, disk, weight);
    }
  }

  lemma WindowIsComplete(d: Deck, l: Layout, d': Deck, l': Layout, disk: Disk, weight: nat)
    requires WindowBy(d, l, d', l', disk, weight)
    ensures Complete(l')
  {}

  /** The parts of a preparation, as they are gone through. */
  lemma PreparedNow(d: Deck, l: Layout, action: Action, capture: bool, d1: Deck, mid: Layout, d2: Deck, l2: Layout, d': Deck, p: Preparation, disk: Disk, weight: nat)
    requires WellFormed(l) && Kept(d, d, disk) && Dealing(d, disk, weight)
    requires if capture then BeforeBy(d, l, true, d1, mid, disk, weight) else d1 == d && mid == l
    requires p.before_start == if capture then Some(Start(mid)) else None
    requires ActedBy(d1, mid, action, d2, l2, p.target, disk, weight) && Started(l2) && SelectsBy(d2, l2, d', p.layout, p.selection, disk, weight)
    ensures PreparesBy(d, l, action, capture, d', p, disk, weight)
  {
    hide ActsBy, LeftAt, SelectsBy, Started, WellFormed, Kept, Dealing, Begins, Reached, ReachesWith;
    var d3, begun, d4, acted :|
      && BeginsBy(d1, mid, d3, begun, disk, weight) && begun.out_count == mid.out_count > 0
      && ActsBy(d3, begun, action, d4, acted, p.target, disk, weight)
      && LeftAt(d4, acted, d2, l2, disk, weight);
    SelectsLeft(d4, acted, d2, l2, d', p.layout, p.selection, disk, weight);
    if capture {
      BeforeFate(d, d, l, action, true, d1, mid, disk, weight);
      StartedRows(mid);
    } else {
      assert BeforeBy(d, l, false, d3, begun, disk, weight);
    }
  }

  // ---- some way a preparation can go ----

  /** At least two wallpapers are listed and one is on disk: no draw for the outputs is refused, and all
      of them end. */
  ghost predicate Free(d0: Deck, n: nat, disk: Disk, weight: nat) {
    Dealing(d0, disk, weight) && |d0.library| >= 2 && disk.folder != {} && n > 0 && Ends(d0, n, None, disk)
  }

  /** A way on which lists once changed stay changed, and which changes them if the bag does not suffice. */
  ghost predicate Turns(d0: Deck, d: Deck, d': Deck, dealt: Option<nat>, disk: Disk) {
    Open(d0, d', disk) && (Changed(d0, d) || dealt.None? ==> Changed(d0, d'))
  }

  lemma TurnsThen(d0: Deck, d: Deck, d1: Deck, d2: Deck, first: Option<nat>, second: Option<nat>, disk: Disk)
    requires Turns(d0, d, d1, first, disk) && Turns(d0, d1, d2, second, disk)
    ensures Turns(d0, d, d2, if first.Some? then second else None, disk)
  {
    hide Open, Changed;
  }

  lemma OpenKept(d0: Deck, d: Deck, disk: Disk)
    requires Open(d0, d, disk)
    ensures Kept(d0, d, disk) && Turns(d0, d, d, Some(d.pos), disk)
  {}

  lemma TwoElements(s: seq<string>)
    requires StrictlySorted(s) && |s| >= 2
    ensures |Elements(s)| >= 2
  {
    SortedDistinct(s);
    assert {s[0], s[1]} <= Elements(s);
    CardinalityMono({s[0], s[1]}, Elements(s));
  }

  lemma FreeLists(d0: Deck, n: nat, d: Deck, disk: Disk, weight: nat)
    requires Free(d0, n, disk, weight) && Open(d0, d, disk)
    ensures d.library != [] && Elements(d.library) != {}
    ensures OtherEnds(d0, disk) ==> |Elements(d.library)| >= 2 && |disk.folder| >= 2
  {
    TwoElements(d0.library);
    ListsFolder(disk);
    assert d.library[0] in Elements(d.library);
    if OtherEnds(d0, disk) && |disk.folder| == 1 {
      CardinalityMono(Elements(d0.library), disk.folder);
    }
    assert disk.folder != {} ==> |disk.folder| > 0;
    if d.library == Sorted(disk.folder) {
      assert Elements(d.library) == disk.folder;
    }
  }

  /** The draws of a preparation can be made. */
  lemma FreeDraws(d0: Deck, n: nat, d: Deck, disk: Disk, weight: nat)
    requires Free(d0, n, disk, weight) && Open(d0, d, disk)
    ensures !DrawFails(d, n, None, disk) && Settles(d, n, None, disk)
    ensures !DrawFails(d, 1, None, disk) && Settles(d, 1, None, disk)
    ensures OtherEnds(d0, disk) ==> forall x :: !DrawFails(d, 1, Some(x), disk) && Settles(d, 1, Some(x), disk)
  {
    hide Settles, StrictlySorted;
    FreeLists(d0, n, d, disk, weight);
    EndsStays(d0, d, n, None, disk);
    OneEnds(d, disk);
    if OtherEnds(d0, disk) {
      OtherEndsStays(d0, d, disk);
      OtherEndsIff(d, disk);
      forall x ensures !DrawFails(d, 1, Some(x), disk) {
        var others := Candidates(Elements(d.library), Some(x));
        assert Elements(d.library) <= others + {x};
        CardinalityMono(Elements(d.library), others + {x});
        assert others == {} ==> others + {x} == {x};
      }
    }
  }

  /** One draw. */
  lemma SomeRow(d0: Deck, n: nat, d: Deck, count: nat, exclude: Option<string>, disk: Disk, weight: nat) returns (row: Row, d': Deck)
    requires Free(d0, n, disk, weight) && Open(d0, d, disk) && count > 0 && !DrawFails(d, count, exclude, disk) && Settles(d, count, exclude, disk)
    ensures DrawsTo(d, count, exclude, row, d', disk, weight) && |row| == count
    ensures Turns(d0, d, d', RowPos(DealRow(d, count, exclude, disk)), disk)
    ensures DealRow(d, count, exclude, disk).Some? ==> DealRow(d, count, exclude, disk) == Some((row, d'.pos)) && d' == d.(pos := d'.pos)
  {
    hide DrawFails, Settles, DrawsTo, Open, Changed, Fate, Scan;
    OpenKept(d0, d, disk);
    row, d' := SomeDraw(d0, d, count, exclude, disk, weight);
    RowFate(d0, d, count, exclude, row, d', disk, weight);
    FateKept(d0, d, d', RowPos(DealRow(d, count, exclude, disk)), disk, weight);
  }

  lemma SomeBegin(d0: Deck, d: Deck, l: Layout, disk: Disk, weight: nat) returns (d': Deck, l': Layout)
    requires Free(d0, l.out_count, disk, weight) && Open(d0, d, disk) && WellFormed(l)
    ensures BeginsBy(d, l, d', l', disk, weight) && Turns(d0, d, d', DealtPos(DealInitial(d, l, disk)), disk)
  {
    hide DrawFails, Settles, DrawsTo, Open, Turns, DealRow, Initialized;
    if l.history != [] {
      d', l' := d, l;
      OpenKept(d0, d, disk);
    } else {
      FreeDraws(d0, l.out_count, d, disk, weight);
      var row;
      row, d' := SomeRow(d0, l.out_count, d, l.out_count, None, disk, weight);
      l' := Initialized(l, row);
    }
  }

  lemma {:induction false} SomeRows(d0: Deck, d: Deck, l: Layout, disk: Disk, weight: nat) returns (rows: seq<Row>, d': Deck)
    requires Free(d0, l.out_count, disk, weight) && Open(d0, d, disk) && Started(l) && CanComplete(l)
    ensures RowsBy(d, l.out_count, rows, d', disk, weight) && Rows(rows, l.out_count) && |rows| == Deficit(l) && Complete(GrowAll(l, rows))
    ensures Turns(d0, d, d', DealtPos(DealWindow(d, l, disk)), disk)
    decreases Deficit(l)
  {
    hide DrawFails, Settles, DrawsTo, Open, Turns, DealRow, Complete, CanComplete, Grow, Free, Deficit;
    CompleteIsNoDeficit(l);
    if Complete(l) {
      rows, d' := [], d;
      OpenKept(d0, d, disk);
    } else {
      FreeDraws(d0, l.out_count, d, disk, weight);
      var row, next := SomeRow(d0, l.out_count, d, l.out_count, None, disk, weight);
      GrowProgress(l, row);
      TurnsOpen(d0, d, next, RowPos(DealRow(d, l.out_count, None, disk)), disk);
      var rest;
      rest, d' := SomeRows(d0, next, Grow(l, row), disk, weight);
      rows := [row] + rest;
      assert rows[1..] == rest;
      TurnsThen(d0, d, next, d', RowPos(DealRow(d, l.out_count, None, disk)), DealtPos(DealWindow(next, Grow(l, row), disk)), disk);
    }
  }

  lemma TurnsOpen(d0: Deck, d: Deck, d': Deck, dealt: Option<nat>, disk: Disk)
    requires Turns(d0, d, d', dealt, disk)
    ensures Open(d0, d', disk)
  {}

  lemma SomeWindow(d0: Deck, d: Deck, l: Layout, disk: Disk, weight: nat) returns (d': Deck, l': Layout)
    requires Free(d0, l.out_count, disk, weight) && Open(d0, d, disk) && Started(l) && CanComplete(l)
    ensures WindowBy(d, l, d', l', disk, weight) && Turns(d0, d, d', DealtPos(DealWindow(d, l, disk)), disk)
  {
    hide Open, Turns, DealWindow, Complete, CanComplete, Free, RowsBy;
    var rows;
    rows, d' := SomeRows(d0, d, l, disk, weight);
    l' := GrowAll(l, rows);
  }

  lemma SomeOne(d0: Deck, d: Deck, l: Layout, index: nat, exclude: Option<string>, disk: Disk, weight: nat) returns (d': Deck, l': Layout)
    requires Free(d0, l.out_count, disk, weight) && Open(d0, d, disk) && (exclude.Some? ==> OtherEnds(d0, disk)) && index < |Window(l)|
    ensures SubstitutesBy(d, l, index, exclude, d', l', disk, weight)
    ensures var deal := DealOne(d, l, index, exclude, disk); Turns(d0, d, d', if deal.Some? then Some(deal.value.1) else None, disk)
  {
    hide DrawFails, Settles, DrawsTo, Open, Turns, DealRow, Window, Record, Free;
    FreeDraws(d0, l.out_count, d, disk, weight);
    var row;
    row, d' := SomeRow(d0, l.out_count, d, 1, exclude, disk, weight);
    assert row == [row[0]];
    l' := Record(l, Window(l)[index := row[0]]);
  }

  lemma SomeAct(d0: Deck, d: Deck, l: Layout, action: Action, disk: Disk, weight: nat) returns (d': Deck, l': Layout, target: Option<string>)
    requires Free(d0, l.out_count, disk, weight) && Open(d0, d, disk) && Started(l) && Reaches(l, action) && IndexOk(action, l.out_count)
    requires action != Other && (action.Quarantine? ==> OtherEnds(d0, disk))
    ensures ActsBy(d, l, action, d', l', target, disk, weight) && Turns(d0, d, d', ActedPos(DealAction(d, l, action, disk)), disk)
    ensures CanComplete(l')
  {
    hide Open, Turns, DealWindow, Complete, CanComplete, Free, OtherEnds, Window, WindowBy, SubstitutesBy, DealOne, DealReplaced, Record, Started;
    StartedRows(l);
    if action.Move? {
      ReachesMoved(l, action.m);
      d', l', target := d, Moved(l, action.m), None;
      OpenKept(d0, d, disk);
    } else {
      var index := action.index;
      var mid, whole := SomeWindow(d0, d, l, disk, weight);
      OpenKept(d0, d, disk);
      FreeDealing(d0, l.out_count, disk, weight);
      WindowFate(d0, d, l, mid, whole, disk, weight);
      FateKept(d0, d, mid, DealtPos(DealWindow(d, l, disk)), disk, weight);
      TurnsOpen(d0, d, mid, DealtPos(DealWindow(d, l, disk)), disk);
      target := if action.Quarantine? then Some(Window(whole)[index]) else None;
      d', l' := SomeOne(d0, mid, whole, index, target, disk, weight);
      OneFate(d0, mid, whole, index, target, d', l', disk, weight);
      CompleteCan(l');
      var one := DealOne(mid, whole, index, target, disk);
      TurnsThen(d0, d, mid, d', DealtPos(DealWindow(d, l, disk)), if one.Some? then Some(one.value.1) else None, disk);
      DealReplacedIs(d, l, index, None, disk);
      DealOneOfWhole(mid, whole, index, target, disk);
      DealtAct(d, l, action, mid, whole, target, disk);
    }
  }

  lemma CompleteCan(l: Layout)
    requires Complete(l)
    ensures CanComplete(l)
  {}

  lemma FreeDealing(d0: Deck, n: nat, disk: Disk, weight: nat)
    requires Free(d0, n, disk, weight)
    ensures Dealing(d0, disk, weight)
  {}

  /** How a replacement is dealt. */
  lemma DealtAct(d: Deck, l: Layout, action: Action, mid: Deck, whole: Layout, target: Option<string>, disk: Disk)
    requires Started(l) && Reaches(l, action) && (action.Replace? || action.Quarantine?) && action.index < l.out_count
    requires Started(whole) && Complete(whole) && action.index < |Window(whole)| && whole.out_count == l.out_count
    requires target == if action.Quarantine? then Some(Window(whole)[action.index]) else None
    requires DealWindow(d, l, disk).Some? ==> mid == d.(pos := DealWindow(d, l, disk).value.pos) && whole == DealWindow(d, l, disk).value.layout
    ensures ActedPos(DealAction(d, l, action, disk)) ==
      if DealWindow(d, l, disk).None? then None
      else var one := DealOne(mid, whole, action.index, target, disk); if one.Some? then Some(one.value.1) else None
  {
    hide DealWindow, DealReplaced, DealOne, Complete, Window;
    DealReplacedIs(d, l, action.index, None, disk);
    DealOneOfWhole(mid, whole, action.index, target, disk);
  }

  lemma {:induction false} SomeHealing(d0: Deck, n: nat, d: Deck, selection: Row, disk: Disk, weight: nat) returns (d': Deck, healed: Row)
    requires Free(d0, n, disk, weight) && Open(d0, d, disk)
    ensures HealedBy(d, selection, d', healed, disk, weight) && Turns(d0, d, d', RowPos(DealHealing(d, selection, disk)), disk)
    decreases |selection|
  {
    hide DrawFails, Settles, DrawsTo, Open, Turns, DealRow, Free, DealHealing;
    OpenKept(d0, d, disk);
    HealedNothing(d, disk);
    if selection == [] {
      d', healed := d, [];
    } else {
      var last := |selection| - 1;
      var mid, init := SomeHealing(d0, n, d, selection[..last], disk, weight);
      assert selection == selection[..last] + [selection[last]];
      DealHealingStep(d, selection[..last], selection[last], disk);
      if Shown(selection[last], disk) {
        d', healed := mid, init + [selection[last]];
        HealedSame(d0, d, mid, selection, disk);
      } else {
        TurnsOpen(d0, d, mid, RowPos(DealHealing(d, selection[..last], disk)), disk);
        FreeDraws(d0, n, mid, disk, weight);
        var one;
        one, d' := SomeRow(d0, n, mid, 1, None, disk, weight);
        assert one == [one[0]];
        healed := init + one;
        TurnsThen(d0, d, mid, d', RowPos(DealHealing(d, selection[..last], disk)), RowPos(DealRow(mid, 1, None, disk)), disk);
        FreeDealing(d0, n, disk, weight);
        HealedFate(d0, d, selection[..last], mid, init, disk, weight);
        FateKept(d0, d, mid, RowPos(DealHealing(d, selection[..last], disk)), disk, weight);
      }
    }
  }

  lemma HealedSame(d0: Deck, d: Deck, mid: Deck, selection: Row, disk: Disk)
    requires selection != [] && Shown(selection[|selection| - 1], disk)
    requires Turns(d0, d, mid, RowPos(DealHealing(d, selection[..|selection| - 1], disk)), disk)
    ensures Turns(d0, d, mid, RowPos(DealHealing(d, selection, disk)), disk)
  {
    hide Open, Changed;
  }

  lemma SomeSelection(d0: Deck, d: Deck, l: Layout, disk: Disk, weight: nat) returns (d': Deck, l': Layout, selection: Row)
    requires Free(d0, l.out_count, disk, weight) && Open(d0, d, disk) && Started(l) && CanComplete(l)
    ensures SelectsBy(d, l, d', l', selection, disk, weight) && Turns(d0, d, d', SelectedPos(DealSelection(d, l, disk)), disk)
  {
    hide Open, Turns, DealWindow, Complete, CanComplete, Free, Window, WindowBy, HealedBy, DealHealing, Started;
    OpenKept(d0, d, disk);
    FreeDealing(d0, l.out_count, disk, weight);
    var mid, whole := SomeWindow(d0, d, l, disk, weight);
    var first := DealtPos(DealWindow(d, l, disk));
    WindowFate(d0, d, l, mid, whole, disk, weight);
    FateKept(d0, d, mid, first, disk, weight);
    TurnsOpen(d0, d, mid, first, disk);
    d', selection := SomeHealing(d0, l.out_count, mid, Window(whole), disk, weight);
    l' := AfterHealing(whole, Window(whole), selection, disk);
    TurnsThen(d0, d, mid, d', first, RowPos(DealHealing(mid, Window(whole), disk)), disk);
  }

  lemma SomeBefore(d0: Deck, d: Deck, l: Layout, action: Action, capture: bool, disk: Disk, weight: nat) returns (d': Deck, l': Layout)
    requires Free(d0, l.out_count, disk, weight) && Open(d0, d, disk) && WellFormed(l) && ReachesWith(l, action, capture)
    ensures BeforeBy(d, l, capture, d', l', disk, weight)
    ensures Turns(d0, d, d', DealtPos(DealBefore(d, l, action, capture, disk)), disk)
  {
    hide Open, Turns, DealWindow, DealInitial, Complete, CanComplete, Free, WindowBy, BeginsBy, Started, Reaches;
    OpenKept(d0, d, disk);
    FreeDealing(d0, l.out_count, disk, weight);
    var mid, begun := SomeBegin(d0, d, l, disk, weight);
    var first := DealtPos(DealInitial(d, l, disk));
    BeginsFate(d0, d, l, mid, begun, disk, weight);
    FateKept(d0, d, mid, first, disk, weight);
    d', l' := mid, begun;
    if capture {
      BegunCan(l, begun, action, disk);
      TurnsOpen(d0, d, mid, first, disk);
      d', l' := SomeWindow(d0, mid, begun, disk, weight);
      TurnsThen(d0, d, mid, d', first, DealtPos(DealWindow(mid, begun, disk)), disk);
    }
  }

  lemma BegunCan(l: Layout, begun: Layout, action: Action, disk: Disk)
    requires WellFormed(l) && Begins(l, begun, disk) && ReachesWith(l, action, true)
    ensures CanComplete(begun)
  {
    BegunReaches(l, begun, action, true, disk);
  }

  lemma OpenStart(d: Deck, disk: Disk)
    requires Kept(d, d, disk)
    ensures Open(d, d, disk)
  {}

  lemma BeforeReaches(l: Layout, action: Action, capture: bool, l': Layout, disk: Disk)
    requires WellFormed(l) && ReachesWith(l, action, capture)
    requires exists begun :: Begins(l, begun, disk) && if capture then Reached(begun, l', disk) else l' == begun
    ensures Started(l') && SameShape(l', l) && Reaches(l', action)
  {
    hide Begins, Reached, Reaches, ReachesWith, Started;
    var begun :| Begins(l, begun, disk) && if capture then Reached(begun, l', disk) else l' == begun;
    BegunReaches(l, begun, action, capture, disk);
    if capture {
      ReachedReaches(begun, l', action, disk);
    }
  }

  /** A completed preparation after which a rollback does not bring the deck back, unless it is dealt. */
  lemma SomePreparation(d: Deck, l: Layout, action: Action, capture: bool, disk: Disk, weight: nat) returns (d': Deck, p: Preparation)
    requires Free(d, l.out_count, disk, weight) && WellFormed(l) && ReachesWith(l, action, capture) && IndexOk(action, l.out_count)
    requires action != Other && (action.Quarantine? ==> OtherEnds(d, disk))
    ensures PreparesBy(d, l, action, capture, d', p, disk, weight)
    ensures DealChange(d, l, action, capture, disk).None? ==> Changed(d, d')
  {
    hide Open, Changed, Kept, Fate, BeforeBy, ActsBy, SelectsBy, DealBefore, DealAction, DealSelection, Complete, CanComplete, Free, OtherEnds, Started, Reaches, ReachesWith;
    FreeDealing(d, l.out_count, disk, weight);
    KeptStart(d, disk);
    assert Open(d, d, disk) by { OpenStart(d, disk); }
    OpenKept(d, d, disk);
    var d1, before := SomeBefore(d, d, l, action, capture, disk, weight);
    var first := DealBefore(d, l, action, capture, disk);
    BeforeFate(d, d, l, action, capture, d1, before, disk, weight);
    FateKept(d, d, d1, DealtPos(first), disk, weight);
    TurnsOpen(d, d, d1, DealtPos(first), disk);
    BeforeReaches(l, action, capture, before, disk);
    var d2, acted, target := SomeAct(d, d1, before, action, disk, weight);
    var second := DealAction(d1, before, action, disk);
    ActsFate(d, d1, before, action, d2, acted, target, disk, weight);
    FateKept(d, d1, d2, ActedPos(second), disk, weight);
    TurnsOpen(d, d1, d2, ActedPos(second), disk);
    var l', selection;
    d', l', selection := SomeSelection(d, d2, acted, disk, weight);
    p := Preparation(l', selection, if capture then Some(Start(before)) else None, target);
    var third := DealSelection(d2, acted, disk);
    TurnsThen(d, d1, d2, d', ActedPos(second), SelectedPos(third), disk);
    TurnsThen(d, d, d1, d', DealtPos(first), if second.Some? then SelectedPos(third) else None, disk);
  }

  // ---- the condition before the call ----

  /** No preparation can be completed: some draw finds nothing. */
  ghost predicate NothingPrepared(d: Deck, l: Layout, action: Action, capture: bool, disk: Disk, weight: nat) {
    forall d', p :: !PreparesBy(d, l, action, capture, d', p, disk, weight)
  }

  ghost predicate AllTakenBack(d: Deck, l: Layout, action: Action, capture: bool, disk: Disk, weight: nat) {
    forall d', p | PreparesBy(d, l, action, capture, d', p, disk, weight) :: TakenBack(d, d')
  }

  /** What a rollback takes back, decided before the preparation: if any preparation can be completed,
      every one can be taken back if and only if the bag holds every wallpaper that all its draws ask
      for, or there is one wallpaper and a rebuild cannot change its bag. */
  lemma PreparationRollbackIff(d: Deck, l: Layout, action: Action, capture: bool, disk: Disk, weight: nat)
    requires Dealing(d, disk, weight) && WellFormed(l) && ReachesWith(l, action, capture) && IndexOk(action, l.out_count)
    requires Ends(d, l.out_count, None, disk) && (action.Quarantine? ==> OtherEnds(d, disk))
    ensures !NothingPrepared(d, l, action, capture, disk, weight) ==>
      (AllTakenBack(d, l, action, capture, disk, weight) <==> DealChange(d, l, action, capture, disk).Some? || OneForAll(d, disk, weight))
    ensures NothingPrepared(d, l, action, capture, disk, weight) ==> Rigid(d, disk) || action == Other
  {
    hide PreparesBy, DealChange, OneForAll, Dealing, WellFormed, ReachesWith, Ends, OtherEnds, Rigid, Changed, TakenBack, Lost, Fate;
    KeptDealing(d, disk, weight);
    if DealChange(d, l, action, capture, disk).Some? || OneForAll(d, disk, weight) {
      forall d', p | PreparesBy(d, l, action, capture, d', p, disk, weight) ensures TakenBack(d, d') {
        PreparesFate(d, d, l, action, capture, d', p, disk, weight);
        FateSame(d, d', PlannedPos(DealChange(d, l, action, capture, disk)), disk, weight);
      }
    } else if Rigid(d, disk) {
      forall d', p | PreparesBy(d, l, action, capture, d', p, disk, weight) ensures !TakenBack(d, d') {
        PreparesFate(d, d, l, action, capture, d', p, disk, weight);
        FateLost(d, d', PlannedPos(DealChange(d, l, action, capture, disk)), disk, weight);
      }
    }
    if !Rigid(d, disk) && action != Other {
      NotRigidFree(d, l, disk, weight);
      var d', p := SomePreparation(d, l, action, capture, disk, weight);
      if DealChange(d, l, action, capture, disk).None? {
        ChangedStays(d, d');
      }
    }
    if action == Other {
      NothingElse(d, l, capture, disk, weight);
    }
  }

  lemma KeptDealing(d: Deck, disk: Disk, weight: nat)
    requires Dealing(d, disk, weight)
    ensures Kept(d, d, disk)
  {}

  lemma FateSame(d: Deck, d': Deck, dealt: Option<nat>, disk: Disk, weight: nat)
    requires Fate(d, d, d', dealt, disk, weight) && (dealt.Some? || OneForAll(d, disk, weight))
    ensures TakenBack(d, d') && Same(d, d')
  {}

  lemma FateLost(d: Deck, d': Deck, dealt: Option<nat>, disk: Disk, weight: nat)
    requires Fate(d, d, d', dealt, disk, weight) && dealt.None? && !OneForAll(d, disk, weight) && Rigid(d, disk)
    ensures !TakenBack(d, d')
  {}

  lemma NotRigidFree(d: Deck, l: Layout, disk: Disk, weight: nat)
    requires Dealing(d, disk, weight) && WellFormed(l) && Ends(d, l.out_count, None, disk) && !Rigid(d, disk)
    ensures Free(d, l.out_count, disk, weight)
  {}

  lemma NothingElse(d: Deck, l: Layout, capture: bool, disk: Disk, weight: nat)
    ensures NothingPrepared(d, l, Other, capture, disk, weight)
  {
    hide BeforeBy, SelectsBy;
  }
}
