/** The wallpaper control: the shuffle deck as the object its methods change. Randomness is an
    arbitrary choice in range; the files on disk change only where a method says so. */
module WallpaperControls {
  import opened Prelude
  import opened StringOrder
  import opened Decks
  import opened Draws
  import opened History
  import opened LayoutStates
  import opened Changes
  import opened RollbackRuns
  import opened Preparations

  datatype WallpaperError = NoOutputs | IndexOutOfRange | NoWallpapers | NoReplacement | NoHistory | IncompleteHistory
                          | TargetMissing | DoesNotRender
  datatype Result<+T> = Ok(value: T) | Err(error: WallpaperError)

  datatype WallpaperEntry = WallpaperEntry(index: nat, output: string, favorite: bool, path: string)
  datatype QuarantineMove = QuarantineMove(source: string, destination: string, moved: bool)
  datatype PreparedChange = PreparedChange(action: Option<Action>, entries: seq<WallpaperEntry>, selection: Row,
                                           canvas_before_start: Option<nat>, canvas_after_start: Option<nat>,
                                           layout_key: string, layout_before: Layout, layout: Layout,
                                           quarantine: Option<QuarantineMove>, pos_before: nat, bag_len_before: nat)

  function LayoutKey(outputs: seq<string>): string {
    if outputs == [] then "" else if |outputs| == 1 then outputs[0] else outputs[0] + "+" + LayoutKey(outputs[1..])
  }

  lemma {:induction false} KeyHasPlus(outputs: seq<string>)
    requires |outputs| > 1
    ensures '+' in LayoutKey(outputs)
  {
    assert LayoutKey(outputs)[|outputs[0]|] == '+';
  }

  lemma NotLonger(x: string, y: string, x': string, y': string)
    requires x + "+" + y == x' + "+" + y' && '+' !in x
    ensures |x| <= |x'|
  {
    assert (x' + "+" + y')[|x'|] == '+';
  }

  /** Outputs whose names hold no plus sign have the same key only if they are the same. */
  lemma {:induction false} KeysApart(a: seq<string>, b: seq<string>)
    requires a != [] && b != [] && LayoutKey(a) == LayoutKey(b)
    requires (forall i | 0 <= i < |a| :: '+' !in a[i]) && forall i | 0 <= i < |b| :: '+' !in b[i]
    ensures a == b
  {
    var key := LayoutKey(a);
    if |a| > 1 {
      KeyHasPlus(a);
    }
    if |b| > 1 {
      KeyHasPlus(b);
    }
    if |a| > 1 && |b| > 1 {
      var n, m := |a[0]|, |b[0]|;
      NotLonger(a[0], LayoutKey(a[1..]), b[0], LayoutKey(b[1..]));
      NotLonger(b[0], LayoutKey(b[1..]), a[0], LayoutKey(a[1..]));
      assert key[..n] == a[0] && key[..m] == b[0];
      assert key[n + 1..] == LayoutKey(a[1..]) && key[m + 1..] == LayoutKey(b[1..]);
      KeysApart(a[1..], b[1..]);
      assert a == [a[0]] + a[1..] && b == [b[0]] + b[1..];
    } else {
      assert |a| == |b| == 1;
      assert a == [a[0]] && b == [b[0]];
    }
  }

  datatype RescanStats = RescanStats(added: nat, removed: nat)

  class WallpaperControl {
    const favorite_weight: nat
    const eligible: string -> bool
    var files: set<string>
    var library: seq<string>
    var favorites: seq<string>
    var shuffle_bag: seq<string>
    var shuffle_pos: nat
    const max_history: nat
    var layouts: map<string, Layout>
    var saved: map<string, SavedLayout>

    function CurrentDeck(): Deck
      reads this
    {
      Deck(library, favorites, shuffle_bag, shuffle_pos)
    }

    /** The wallpapers directly in the wallpaper directory: which paths are eligible depends on
        their names alone. */
    function Folder(): set<string>
      reads this`files
    {
      set x | x in files && eligible(x)
    }

    function CurrentDisk(): Disk
      reads this
    {
      Disk(files, Folder())
    }

    ghost predicate Valid()
      reads this
    {
      favorite_weight >= 1 && DeckOk(CurrentDeck()) && (forall x | x in library :: eligible(x))
    }

    /** Loading the persisted lists, whatever they are, and rescanning. */
    constructor Load(weight: nat, max_history: nat, files: set<string>, eligible: string -> bool, lists: Deck, saved: map<string, SavedLayout>)
      ensures Valid() <==> LoadsWhole(lists, CurrentDisk())
      ensures StrictlySorted(favorites) && Elements(favorites) <= Elements(library) && favorite_weight >= 1
      ensures this.files == files && this.eligible == eligible && library == Sorted(Folder())
      ensures layouts == map[] && this.saved == saved && this.max_history >= 1
    {
      favorite_weight, this.max_history := Max(weight, 1), Max(max_history, 1);
      this.files, this.eligible := files, eligible;
      library, favorites, shuffle_bag, shuffle_pos := lists.library, lists.favorites, lists.bag, lists.pos;
      layouts, this.saved := map[], saved;
      new;
      var _ := RescanTopLevel();
      ghost var scanned := CurrentDeck();
      if shuffle_bag == [] && library != [] {
        RebuildBag();
      }
      RescannedLists(lists, scanned, CurrentDisk(), favorite_weight);
    }

    lemma ValidListed()
      requires Valid()
      ensures Listed(CurrentDeck(), CurrentDisk())
    {}

    lemma ValidDealing()
      requires Valid()
      ensures Dealing(CurrentDeck(), CurrentDisk(), favorite_weight) && Kept(CurrentDeck(), CurrentDeck(), CurrentDisk())
    {}

    /** The library stays eligible, whether kept or listed anew. */
    lemma StaysValid(before: seq<string>)
      requires favorite_weight >= 1 && DeckOk(CurrentDeck()) && (forall x | x in before :: eligible(x))
      requires library == before || library == Sorted(Folder())
      ensures Valid()
    {}

    // ---- the bag ----

    method SanitizeFavorites()
      modifies this`favorites
      ensures favorites == Sanitized(old(favorites), library, files)
    {
      favorites := Sorted(set x | x in favorites && x in library && x in files);
    }

    /** In place, swapping downwards; any order may come out, and nothing is lost or repeated. */
    method Shuffle(values: array<string>)
      modifies values
      ensures multiset(values[..]) == multiset(old(values[..]))
    {
      if values.Length == 0 {
        return;
      }
      var index := values.Length - 1;
      while index >= 1
        invariant 0 <= index < values.Length
        invariant multiset(values[..]) == multiset(old(values[..]))
      {
        var swap_with: nat :| swap_with <= index;
        values[index], values[swap_with] := values[swap_with], values[index];
        index := index - 1;
      }
    }

    method Shuffled(values: seq<string>) returns (result: seq<string>)
      ensures multiset(result) == multiset(values)
    {
      var a := new string[|values|](i requires 0 <= i < |values| => values[i]);
      assert a[..] == values;
      Shuffle(a);
      result := a[..];
    }

    method WeightedLibrary() returns (bag: seq<string>)
      requires favorite_weight >= 1
      ensures multiset(bag) == Weighted(library, Elements(favorites), favorite_weight)
    {
      hide Weighted, Copies;
      var favorite_set := Elements(favorites);
      bag := [];
      NothingWeighted(favorite_set, favorite_weight);
      for i := 0 to |library|
        invariant multiset(bag) == Weighted(library[..i], favorite_set, favorite_weight)
      {
        var wall := library[i];
        ghost var before := multiset(bag);
        bag := bag + [wall];
        OneCopy(wall);
        if wall in favorite_set {
          for copies := 1 to favorite_weight
            invariant multiset(bag) == before + Copies(wall, copies)
          {
            CopyMore(before, wall, copies);
            bag := bag + [wall];
          }
        }
        WeightedStep(library, i, favorite_set, favorite_weight);
      }
      assert library[..|library|] == library;
    }

    method RebuildBag()
      requires favorite_weight >= 1
      modifies this`favorites, this`shuffle_bag, this`shuffle_pos
      ensures Rebuilt(old(CurrentDeck()), CurrentDeck(), CurrentDisk(), favorite_weight)
    {
      SanitizeFavorites();
      var bag := WeightedLibrary();
      shuffle_bag := Shuffled(bag);
      shuffle_pos := 0;
    }

    method RescanTopLevel() returns (stats: RescanStats)
      requires favorite_weight >= 1
      modifies this`library, this`favorites, this`shuffle_bag, this`shuffle_pos
      ensures Rescanned(old(CurrentDeck()), CurrentDeck(), CurrentDisk(), favorite_weight)
      ensures stats == RescanStats(|Folder() - Elements(old(library))|, |Elements(old(library)) - Folder()|)
    {
      hide Sanitized, Rebuilt, Sorted, Retain, StrictlySorted, Weighted;
      ghost var before, disk := CurrentDeck(), CurrentDisk();
      var old_set, new_set := Elements(library), Folder();
      stats := RescanStats(|new_set - old_set|, |old_set - new_set|);
      var added_paths := Sorted(new_set - old_set);
      library := Sorted(Folder());
      SanitizeFavorites();
      shuffle_bag := Retain(shuffle_bag, Folder());
      if shuffle_pos > |shuffle_bag| {
        shuffle_pos := |shuffle_bag|;
      }
      var additions := Shuffled(added_paths);
      SortedMultiset(new_set - old_set);
      shuffle_bag := shuffle_bag + additions;
      assert CurrentDeck() == ScannedDeck(before, disk, additions);
      if shuffle_bag == [] && library != [] {
        RebuildBag();
      }
      RescannedBy(before, CurrentDeck(), disk, favorite_weight, additions);
    }

    // ---- drawing ----

    /** Exactly `count` wallpapers that are on disk and listed afterwards, none of them excluded,
        all different if enough others were listed. If the bag still holds enough, they are the
        next ones in it. It fails exactly when nothing can be drawn. */
    method BagNextN(count: nat, exclude: Option<string>) returns (r: Result<seq<string>>)
      requires Valid()
      requires DrawFails(CurrentDeck(), count, exclude, CurrentDisk()) || Settles(CurrentDeck(), count, exclude, CurrentDisk())
      modifies this`library, this`favorites, this`shuffle_bag, this`shuffle_pos
      ensures Valid()
      ensures library == old(library) || library == Sorted(Folder())
      ensures r.Ok? <==> !DrawFails(old(CurrentDeck()), count, exclude, CurrentDisk())
      ensures r.Err? ==> r.error == if old(library) != [] && Available(old(CurrentDeck()), exclude) == 0 then NoReplacement else NoWallpapers
      ensures r.Ok? ==> Chosen(r.value, count, exclude, old(CurrentDeck()), library, CurrentDisk())
      ensures SameFavorites(old(CurrentDeck()), CurrentDeck(), CurrentDisk())
      ensures r.Ok? ==> DrawsTo(old(CurrentDeck()), count, exclude, r.value, CurrentDeck(), CurrentDisk(), favorite_weight)
      ensures var scan := Scan(old(shuffle_bag), old(shuffle_pos), [], WantOf(old(CurrentDeck()), count, exclude), CurrentDisk());
        r.Ok? && scan.Some? ==> r.value == scan.value.0 && CurrentDeck() == old(CurrentDeck()).(pos := scan.value.1)
    {
      hide Rebuilt, Rescanned, Sorted, StrictlySorted, Scan, Picks, Candidates, Threshold, Offers, Going, Listed, RunTo, DrawsTo, Round;
      var disk, weight, first := CurrentDisk(), favorite_weight, CurrentDeck();
      ValidListed();
      EmptyTogether(first);
      if shuffle_bag == [] {
        RebuildBag();
        RebuiltBag(first, CurrentDeck(), disk, weight);
        RebuiltFavorites(first, CurrentDeck(), disk, weight);
        EmptyTogether(CurrentDeck());
        ListedSame(first, CurrentDeck(), disk);
        assert shuffle_bag == [];
        return Err(NoWallpapers);
      }
      var available := |Candidates(Elements(library), exclude)|;
      if available == 0 && count > 0 {
        return Err(NoReplacement);
      }
      var want := Want(count, exclude, available < count);
      var picked: seq<string>, attempts: nat := [], 0;
      ghost var limit := BagLimit(first, weight);
      ghost var scan := Scan(shuffle_bag, shuffle_pos, [], want, disk);
      assert Settles(first, count, exclude, disk);
      GoingStart(first, count, exclude, disk, weight, limit);
      ghost var hands, mids: seq<Deck> := [Hand(first, [], 0)], [];
      RunToStart(first, want, disk, weight);
      while |picked| < count
        invariant Valid()
        invariant Going(Hand(CurrentDeck(), picked, attempts), want, disk, weight, limit)
        invariant library == first.library || library == Sorted(disk.folder)
        invariant SameFavorites(first, CurrentDeck(), disk)
        invariant |picked| <= count
        invariant RunTo(first, want, hands, mids, Hand(CurrentDeck(), picked, attempts), disk, weight)
        invariant scan.Some? ==>
          (attempts <= shuffle_pos && CurrentDeck() == first.(pos := shuffle_pos)
           && Scan(shuffle_bag, shuffle_pos, picked, want, disk) == scan)
        decreases count - |picked|, StaleFactor(Stale(CurrentDeck(), disk)),
          AttemptsLeft(Hand(CurrentDeck(), picked, attempts), Stale(CurrentDeck(), disk), limit),
          TurnFactor(Offers(Hand(CurrentDeck(), picked, attempts), want, disk)), Monus(|shuffle_bag|, shuffle_pos)
      {
        ghost var h := Hand(CurrentDeck(), picked, attempts);
        ghost var mid;
        var drawn;
        drawn, picked, attempts, mid := DrawOne(want, picked, attempts, limit);
        if !drawn {
          return Err(NoWallpapers);
        }
        ghost var h' := Hand(CurrentDeck(), picked, attempts);
        StillGoing(h, mid, h', want, disk, weight, limit);
        RoundDecreases(h, mid, h', want, disk, weight, limit);
        RoundSteps(h, mid, h', want, disk, weight, limit);
        RoundKeepsFavorites(h, mid, h', want, disk, weight, limit);
        GoingGives(h', want, disk, weight, limit);
        StaysValid(first.library);
        RunToNext(first, want, hands, mids, h, mid, h', disk, weight);
        hands, mids := hands + [h'], mids + [mid];
        if scan.Some? {
          ScanRound(h, mid, h', want, disk, weight);
        }
      }
      GoingGives(Hand(CurrentDeck(), picked, attempts), want, disk, weight, limit);
      assert picked != [] ==> picked[0] in disk.folder;
      ScanDone(shuffle_bag, shuffle_pos, picked, want, disk);
      RunToDraw(first, count, exclude, hands, mids, Hand(CurrentDeck(), picked, attempts), disk, weight);
      r := Ok(picked);
    }

    /** One round of the loop. It finds nothing to draw only when a rescan has emptied the library. */
    method DrawOne(want: Want, picked: seq<string>, attempts: nat, ghost limit: nat)
      returns (drawn: bool, picked': seq<string>, attempts': nat, ghost mid: Deck)
      requires Valid() && Going(Hand(CurrentDeck(), picked, attempts), want, CurrentDisk(), favorite_weight, limit)
      modifies this`library, this`favorites, this`shuffle_bag, this`shuffle_pos
      ensures drawn ==> Round(Hand(old(CurrentDeck()), picked, attempts), mid, Hand(CurrentDeck(), picked', attempts'), want, CurrentDisk(), favorite_weight)
      ensures !drawn ==> old(library) == [] && library == [] && Valid() && SameFavorites(old(CurrentDeck()), CurrentDeck(), CurrentDisk())
    {
      hide Rebuilt, Rescanned, Sorted, StrictlySorted, Picks, Candidates, Going, Listed, Elements, SameFavorites, Sanitized, DeckOk;
      picked', attempts' := picked, attempts;
      mid := CurrentDeck();
      if shuffle_pos >= |shuffle_bag| {
        RebuildBag();
        mid := CurrentDeck();
        TurnedBag(old(CurrentDeck()), mid, CurrentDisk(), favorite_weight);
        if shuffle_bag == [] {
          return false, picked, attempts, mid;
        }
      }
      var wall := shuffle_bag[shuffle_pos];
      shuffle_pos := shuffle_pos + 1;
      attempts' := attempts' + 1;
      if want.exclude == Some(wall) || wall !in files {
        if attempts' > Max(2 * |shuffle_bag|, 32) {
          var _ := RescanTopLevel();
          attempts' := 0;
        }
      } else if want.allow_duplicates || wall !in picked {
        picked' := picked + [wall];
      }
      drawn := true;
    }

    method MakeRandomOne(exclude: Option<string>) returns (r: Result<string>)
      requires Valid() && Ends(CurrentDeck(), 1, exclude, CurrentDisk())
      modifies this`library, this`favorites, this`shuffle_bag, this`shuffle_pos
      ensures Valid() && (library == old(library) || library == Sorted(Folder()))
      ensures r.Ok? ==> r.value in Folder() && exclude != Some(r.value)
      ensures r.Err? ==> DrawFails(old(CurrentDeck()), 1, exclude, CurrentDisk())
      ensures r.Ok? ==> DrawsTo(old(CurrentDeck()), 1, exclude, [r.value], CurrentDeck(), CurrentDisk(), favorite_weight)
      ensures var deal := DealRow(old(CurrentDeck()), 1, exclude, CurrentDisk());
        deal.Some? ==> r == Ok(deal.value.0[0]) && CurrentDeck() == old(CurrentDeck()).(pos := deal.value.1)
    {
      hide Scan, Settles, DrawFails, DeckOk, Listed, Sorted, DrawsTo;
      var picked := BagNextN(1, exclude);
      if picked.Err? {
        return Err(picked.error);
      }
      assert picked.value[0] in picked.value && picked.value == [picked.value[0]];
      r := Ok(picked.value[0]);
    }

    // ---- layouts ----

    method EnsureInitialized(layout: LayoutState) returns (r: Result<()>)
      requires Valid() && WellFormed(layout.Value()) && Ends(CurrentDeck(), layout.out_count, None, CurrentDisk())
      modifies this`library, this`favorites, this`shuffle_bag, this`shuffle_pos, layout
      ensures Valid() && (library == old(library) || library == Sorted(Folder()))
      ensures r.Err? ==> CannotDraw(old(CurrentDeck()), CurrentDisk())
      ensures r.Ok? ==> BeginsBy(old(CurrentDeck()), old(layout.Value()), CurrentDeck(), layout.Value(), CurrentDisk(), favorite_weight)
      ensures var deal := DealInitial(old(CurrentDeck()), old(layout.Value()), CurrentDisk());
        deal.Some? ==> r.Ok? && layout.Value() == deal.value.layout && CurrentDeck() == old(CurrentDeck()).(pos := deal.value.pos)
    {
      hide Scan, Settles, DrawFails, DeckOk, Listed, Sorted, Prune, DrawsTo;
      if layout.history == [] {
        var selection := BagNextN(layout.out_count, None);
        if selection.Err? {
          FailsEarlier(old(CurrentDeck()), old(CurrentDeck()), layout.out_count, CurrentDisk());
          return Err(selection.error);
        }
        ghost var before := layout.Value();
        var row := selection.value;
        layout.AppendSet(row);
        layout.idx := 1;
        layout.offset := 0;
        assert layout.Value() == Initialized(before, row);
      }
      r := Ok(());
    }

    method EnsureWindow(layout: LayoutState) returns (r: Result<()>)
      requires Valid() && Started(layout.Value()) && CanComplete(layout.Value())
      requires Ends(CurrentDeck(), layout.out_count, None, CurrentDisk())
      modifies this`library, this`favorites, this`shuffle_bag, this`shuffle_pos, layout
      ensures Valid() && (library == old(library) || library == Sorted(Folder()))
      ensures r.Err? ==> r.error == NoWallpapers && CannotDraw(old(CurrentDeck()), CurrentDisk())
      ensures r.Ok? ==> WindowBy(old(CurrentDeck()), old(layout.Value()), CurrentDeck(), layout.Value(), CurrentDisk(), favorite_weight)
      ensures SameFavorites(old(CurrentDeck()), CurrentDeck(), CurrentDisk())
      ensures var deal := DealWindow(old(CurrentDeck()), old(layout.Value()), CurrentDisk());
        deal.Some? ==> r.Ok? && layout.Value() == deal.value.layout && CurrentDeck() == old(CurrentDeck()).(pos := deal.value.pos)
    {
      hide Scan, Settles, DrawFails, DeckOk, Listed, Sorted, Grow, Append, GrowAll, Complete, CanComplete, Deficit, DealWindow, DrawsTo, RowsBy;
      ghost var first, disk, deck := layout.Value(), CurrentDisk(), CurrentDeck();
      ghost var rows: seq<Row> := [];
      ghost var deal := DealWindow(deck, first, disk);
      NothingGrown(first, deck, disk, favorite_weight);
      while true
        invariant Valid() && (library == old(library) || library == Sorted(Folder())) && CurrentDisk() == disk
        invariant Started(layout.Value()) && CanComplete(layout.Value()) && layout.out_count == first.out_count
        invariant layout.Value() == GrowAll(first, rows) && Rows(rows, first.out_count)
        invariant RowsBy(deck, first.out_count, rows, CurrentDeck(), disk, favorite_weight)
        invariant |rows| + Deficit(layout.Value()) == Deficit(first)
        invariant Ends(CurrentDeck(), layout.out_count, None, disk)
        invariant SameFavorites(deck, CurrentDeck(), disk)
        invariant deal.Some? ==>
          (DealWindow(CurrentDeck(), layout.Value(), disk) == deal && CurrentDeck() == deck.(pos := shuffle_pos))
        decreases Deficit(layout.Value())
      {
        ghost var l, d := layout.Value(), CurrentDeck();
        var end := (Monus(layout.idx, 1) * layout.out_count + layout.offset) + layout.out_count;
        CompleteCounts(l);
        CompleteIsNoDeficit(l);
        DealWindowStep(d, l, disk);
        if |layout.history| * layout.out_count >= end {
          WindowReached(first, rows, deck, CurrentDeck(), disk, favorite_weight);
          return Ok(());
        }
        var selection := BagNextN(layout.out_count, None);
        if selection.Err? {
          FailsEarlier(deck, d, l.out_count, disk);
          AvailableListed(d);
          return Err(selection.error);
        }
        var row := selection.value;
        layout.AppendSet(row);
        if layout.idx < 1 {
          layout.idx := 1;
          layout.offset := 0;
        }
        GrowIs(l, row);
        GrowProgress(l, row);
        GrowAllAppend(first, rows, row);
        RowsAppend(deck, l.out_count, rows, d, row, CurrentDeck(), disk, favorite_weight);
        EndsStays(d, CurrentDeck(), l.out_count, None, disk);
        rows := rows + [row];
      }
    }

    /** `run_replace`: the window with one entry replaced becomes the end of the history. */
    method RunReplace(layout: LayoutState, index: nat, exclude: Option<string>) returns (r: Result<Row>)
      requires Valid() && WellFormed(layout.Value()) && Completable(layout.Value()) && index < layout.out_count
      requires Ends(CurrentDeck(), layout.out_count, None, CurrentDisk()) && Ends(CurrentDeck(), 1, exclude, CurrentDisk())
      modifies this`library, this`favorites, this`shuffle_bag, this`shuffle_pos, layout
      ensures Valid() && (library == old(library) || library == Sorted(Folder()))
      ensures r.Err? ==> if exclude.Some? then Scarce(old(CurrentDeck()), CurrentDisk()) else CannotDraw(old(CurrentDeck()), CurrentDisk())
      ensures r.Ok? ==> ReplacedBy(old(CurrentDeck()), old(layout.Value()), index, exclude, CurrentDeck(), layout.Value(), CurrentDisk(), favorite_weight)
      ensures r.Ok? ==> r.value == Window(layout.Value())
      ensures var deal := DealReplaced(old(CurrentDeck()), old(layout.Value()), index, exclude, CurrentDisk());
        deal.Some? ==> r.Ok? && layout.Value() == deal.value.0 && CurrentDeck() == old(CurrentDeck()).(pos := deal.value.1)
    {
      hide Scan, Settles, DrawFails, DeckOk, Listed, Sorted, Complete, CanComplete, DealWindow, Record, Reached, DealRow, Window, DealInitial, Begins, Started,
           BeginsBy, WindowBy, ReplacedBy, DrawsTo, Kept, Dealing, Fate, CannotDraw, Scarce;
      ghost var first, disk, deck := layout.Value(), CurrentDisk(), CurrentDeck();
      ValidDealing();
      var initialized := EnsureInitialized(layout);
      if initialized.Err? {
        CannotIsScarce(deck, disk);
        return Err(initialized.error);
      }
      ghost var begun, deck1 := layout.Value(), CurrentDeck();
      BeginsFate(deck, deck, first, deck1, begun, disk, favorite_weight);
      BegunCanComplete(first, begun, disk);
      EndsStays(deck, deck1, layout.out_count, None, disk);
      EndsStays(deck, deck1, 1, exclude, disk);
      ValidDealing();
      var ensured := EnsureWindow(layout);
      if ensured.Err? {
        CannotEarlier(deck, deck1, disk);
        CannotIsScarce(deck, disk);
        return Err(ensured.error);
      }
      ghost var whole, deck2 := layout.Value(), CurrentDeck();
      WindowFate(deck1, deck1, begun, deck2, whole, disk, favorite_weight);
      EndsStays(deck1, deck2, 1, exclude, disk);
      var selection := Window(layout.Value());
      var replacement := MakeRandomOne(exclude);
      if replacement.Err? {
        ReplacementFails(deck, deck2, exclude, disk);
        return Err(replacement.error);
      }
      if index < |selection| {
        selection := selection[index := replacement.value];
      }
      layout.Push(selection);
      ReplacedNow(deck, first, deck1, begun, deck2, whole, index, exclude, replacement.value, CurrentDeck(), layout.Value(), disk, favorite_weight);
      r := Ok(selection);
    }

    /** `run_next_back` and `run_shift`: forward moves that may leave the history make it reach. */
    method RunMove(layout: LayoutState, m: Move) returns (r: Result<Row>)
      requires Valid() && WellFormed(layout.Value()) && Reaches(layout.Value(), Action.Move(m))
      requires Ends(CurrentDeck(), layout.out_count, None, CurrentDisk())
      modifies this`library, this`favorites, this`shuffle_bag, this`shuffle_pos, layout
      ensures Valid() && (library == old(library) || library == Sorted(Folder()))
      ensures r.Err? ==> CannotDraw(old(CurrentDeck()), CurrentDisk())
      ensures r.Ok? ==> r.value == Window(layout.Value())
      ensures r.Ok? ==> ActedBy(old(CurrentDeck()), old(layout.Value()), Action.Move(m), CurrentDeck(), layout.Value(), None, CurrentDisk(), favorite_weight)
      ensures DealsMove(old(CurrentDeck()), old(layout.Value()), m, CurrentDisk()) ==>
        r.Ok? && MoveDealt(old(CurrentDeck()), old(layout.Value()), m, CurrentDeck(), layout.Value(), CurrentDisk())
    {
      hide Scan, Settles, DrawFails, DeckOk, Listed, Sorted, Complete, CanComplete, DealWindow, Reached, Window, DealInitial, Begins, Started, Moved, Reaches,
           BeginsBy, WindowBy, ActedBy, DrawsTo, Kept, Dealing, Fate, CannotDraw;
      ghost var first, disk, deck := layout.Value(), CurrentDisk(), CurrentDeck();
      ValidDealing();
      var initialized := EnsureInitialized(layout);
      if initialized.Err? {
        return Err(initialized.error);
      }
      ghost var begun, deck1 := layout.Value(), CurrentDeck();
      BeginsFate(deck, deck, first, deck1, begun, disk, favorite_weight);
      ReachesPlain(first, Action.Move(m));
      BegunReaches(first, begun, Action.Move(m), false, disk);
      ReachesMoved(begun, m);
      EndsStays(deck, deck1, layout.out_count, None, disk);
      var inside := m == Back || m == ShiftBack || (m == Next && layout.idx < |layout.history|);
      layout.MoveCursor(m);
      if !inside {
        DealWindowAgain(CurrentDeck(), layout.Value(), disk);
        var ensured := EnsureWindow(layout);
        if ensured.Err? {
          CannotEarlier(deck, deck1, disk);
          return Err(ensured.error);
        }
      }
      MovedActed(deck, first, m, deck1, begun, CurrentDeck(), layout.Value(), disk, favorite_weight);
      r := Ok(Window(layout.Value()));
    }

    /** The loop of `heal_selection`. */
    method HealRow(selection: Row) returns (r: Result<Row>, changed: bool)
      requires Valid()
      modifies this`library, this`favorites, this`shuffle_bag, this`shuffle_pos
      ensures Valid() && (library == old(library) || library == Sorted(Folder()))
      ensures r.Err? ==> CannotDraw(old(CurrentDeck()), CurrentDisk())
      ensures r.Ok? ==> HealedBy(old(CurrentDeck()), selection, CurrentDeck(), r.value, CurrentDisk(), favorite_weight)
      ensures r.Ok? ==> (changed <==> !AllShown(selection, CurrentDisk()))
      ensures var deal := DealHealing(old(CurrentDeck()), selection, CurrentDisk());
        deal.Some? ==> r == Ok(deal.value.0) && CurrentDeck() == old(CurrentDeck()).(pos := deal.value.1)
    {
      hide Scan, Settles, DrawFails, DeckOk, Listed, Sorted, DealRow, Ends, HealedBy, DealHealing, AllShown, DrawsTo, CannotDraw;
      ghost var disk, deck := CurrentDisk(), CurrentDeck();
      var healed: Row := [];
      changed := false;
      HealedNothing(deck, disk);
      HealedByNothing(deck, disk, favorite_weight);
      for i := 0 to |selection|
        invariant Valid() && (library == old(library) || library == Sorted(Folder())) && CurrentDisk() == disk
        invariant HealedBy(deck, selection[..i], CurrentDeck(), healed, disk, favorite_weight)
        invariant changed <==> !AllShown(selection[..i], disk)
        invariant var deal := DealHealing(deck, selection[..i], disk);
          deal.Some? ==> healed == deal.value.0 && CurrentDeck() == deck.(pos := deal.value.1)
      {
        var wall := selection[i];
        assert selection[..i + 1] == selection[..i] + [wall];
        DealHealingStep(deck, selection[..i], wall, disk);
        AllShownStep(selection[..i], wall, disk);
        if wall == "" || wall in files {
          HealedByStep(deck, selection[..i], CurrentDeck(), healed, wall, wall, CurrentDeck(), disk, favorite_weight);
          healed := healed + [wall];
        } else {
          OneEnds(CurrentDeck(), disk);
          ghost var mid := CurrentDeck();
          var one := MakeRandomOne(None);
          if one.Err? {
            FailsEarlier(deck, mid, 1, disk);
            DealHealingPrefix(deck, selection, i + 1, disk);
            return Err(one.error), changed;
          }
          HealedByStep(deck, selection[..i], mid, healed, wall, one.value, CurrentDeck(), disk, favorite_weight);
          healed := healed + [one.value];
          changed := true;
        }
      }
      assert selection[..|selection|] == selection;
      r := Ok(healed);
    }

    /** `heal_selection`. */
    method HealSelection(layout: LayoutState, selection: Row) returns (r: Result<Row>)
      requires Valid()
      modifies this`library, this`favorites, this`shuffle_bag, this`shuffle_pos, layout
      ensures Valid() && (library == old(library) || library == Sorted(Folder()))
      ensures r.Err? ==> CannotDraw(old(CurrentDeck()), CurrentDisk())
      ensures r.Ok? ==> HealedBy(old(CurrentDeck()), selection, CurrentDeck(), r.value, CurrentDisk(), favorite_weight)
      ensures r.Ok? ==> layout.Value() == AfterHealing(old(layout.Value()), selection, r.value, CurrentDisk())
      ensures var deal := DealHealing(old(CurrentDeck()), selection, CurrentDisk());
        deal.Some? ==> r == Ok(deal.value.0) && CurrentDeck() == old(CurrentDeck()).(pos := deal.value.1)
    {
      hide DeckOk, Listed, Sorted, Record, HealedBy, DealHealing;
      var healed, changed := HealRow(selection);
      if healed.Err? {
        return Err(healed.error);
      }
      if changed {
        if layout.offset == 0 && 1 <= layout.idx <= |layout.history| {
          layout.history := layout.history[layout.idx - 1 := healed.value];
        } else {
          layout.Push(healed.value);
        }
      }
      r := healed;
    }

    /** A wallpaper of the made-whole window is to be moved away, and replaced by a different one. */
    method RunQuarantine(layout: LayoutState, index: nat, destination: string) returns (r: Result<Acted>)
      requires Valid() && WellFormed(layout.Value()) && Reaches(layout.Value(), Quarantine(index)) && index < layout.out_count
      requires Ends(CurrentDeck(), layout.out_count, None, CurrentDisk()) && OtherEnds(CurrentDeck(), CurrentDisk())
      modifies this`library, this`favorites, this`shuffle_bag, this`shuffle_pos, layout
      ensures Valid() && (library == old(library) || library == Sorted(Folder()))
      ensures r.Err? ==> Scarce(old(CurrentDeck()), CurrentDisk())
      ensures r.Ok? ==>
        ActedBy(old(CurrentDeck()), old(layout.Value()), Quarantine(index), CurrentDeck(), layout.Value(), r.value.target, CurrentDisk(), favorite_weight)
      ensures r.Ok? ==> r.value.selection == Window(layout.Value()) && QuarantinePlanned(r.value, Quarantine(index), destination, CurrentDisk())
      ensures DealsAction(old(CurrentDeck()), old(layout.Value()), Quarantine(index), CurrentDisk()) ==>
        r.Ok? && ActionDealt(old(CurrentDeck()), old(layout.Value()), Quarantine(index), CurrentDeck(), layout.Value(), r.value.target, CurrentDisk())
    {
      hide Scan, Settles, DrawFails, DeckOk, Listed, Sorted, Complete, CanComplete, DealWindow, Reached, Window, DealInitial, Begins, Moved, DealReplaced,
           DealsAction, ActionDealt, Ends, OtherEnds, Reaches, Started, WellFormed, BeginsBy, WindowBy, ActedBy, ReplacedBy, Kept, Dealing, Fate, CannotDraw, Scarce;
      ghost var first, disk, deck := layout.Value(), CurrentDisk(), CurrentDeck();
      ReachesCompletable(first, Quarantine(index));
      ValidDealing();
      var initialized := EnsureInitialized(layout);
      if initialized.Err? {
        CannotIsScarce(deck, disk);
        DealsQuarantineSteps(deck, first, index, disk);
        return Err(initialized.error);
      }
      ghost var begun, deck1 := layout.Value(), CurrentDeck();
      BeginsFate(deck, deck, first, deck1, begun, disk, favorite_weight);
      BegunCanComplete(first, begun, disk);
      EndsStays(deck, deck1, layout.out_count, None, disk);
      OtherEndsStays(deck, deck1, disk);
      ValidDealing();
      var ensured := EnsureWindow(layout);
      if ensured.Err? {
        CannotEarlier(deck, deck1, disk);
        CannotIsScarce(deck, disk);
        DealsQuarantineSteps(deck, first, index, disk);
        return Err(ensured.error);
      }
      ghost var whole, deck2 := layout.Value(), CurrentDeck();
      WindowFate(deck1, deck1, begun, deck2, whole, disk, favorite_weight);
      WholeCompletable(whole);
      var target := Window(layout.Value())[index];
      var quarantine := if target in files then Some(QuarantineMove(target, destination, false)) else None;
      EndsStays(deck1, deck2, layout.out_count, None, disk);
      OtherEndsStays(deck1, deck2, disk);
      OtherEndsIff(deck2, disk);
      var selection := RunReplace(layout, index, Some(target));
      if selection.Err? {
        ScarceEarlier(deck, deck2, disk);
        DealsQuarantineSteps(deck, first, index, disk);
        return Err(selection.error);
      }
      QuarantineActed(deck, first, deck1, begun, deck2, whole, index, CurrentDeck(), layout.Value(), disk, favorite_weight);
      DealsQuarantineSteps(deck, first, index, disk);
      r := Ok(Acted(selection.value, Some(target), quarantine));
    }

    /** The action itself: the cursor's move, or a replacement. */
    method RunAction(layout: LayoutState, action: Action, destination: string) returns (r: Result<Acted>)
      requires Valid() && WellFormed(layout.Value()) && Reaches(layout.Value(), action) && IndexOk(action, layout.out_count)
      requires Ends(CurrentDeck(), layout.out_count, None, CurrentDisk()) && (action.Quarantine? ==> OtherEnds(CurrentDeck(), CurrentDisk()))
      modifies this`library, this`favorites, this`shuffle_bag, this`shuffle_pos, layout
      ensures Valid() && (library == old(library) || library == Sorted(Folder()))
      ensures r.Err? ==> action == Other || CannotAct(old(CurrentDeck()), action, CurrentDisk())
      ensures r.Ok? ==>
        ActedBy(old(CurrentDeck()), old(layout.Value()), action, CurrentDeck(), layout.Value(), r.value.target, CurrentDisk(), favorite_weight)
      ensures r.Ok? ==> r.value.selection == Window(layout.Value()) && QuarantinePlanned(r.value, action, destination, CurrentDisk())
      ensures DealsAction(old(CurrentDeck()), old(layout.Value()), action, CurrentDisk()) ==>
        r.Ok? && ActionDealt(old(CurrentDeck()), old(layout.Value()), action, CurrentDeck(), layout.Value(), r.value.target, CurrentDisk())
    {
      hide Scan, Settles, DrawFails, DeckOk, Listed, Sorted, Complete, CanComplete, DealWindow, Reached, Window, DealInitial, Begins, Moved, DealReplaced,
           ActedBy, ReplacedBy, Kept, Dealing, DealsMove, MoveDealt, DealsAction, ActionDealt, Ends, Reaches, Started, WellFormed;
      ghost var first, disk, deck := layout.Value(), CurrentDisk(), CurrentDeck();
      assert layout.out_count > 0 by { HasOutputs(first); }
      ValidDealing();
      match action
      case Move(m) =>
        var selection := RunMove(layout, m);
        DealsMoveAction(deck, first, m, CurrentDeck(), layout.Value(), disk);
        if selection.Err? {
          return Err(selection.error);
        }
        r := Ok(Acted(selection.value, None, None));
      case Replace(index) =>
        OneEnds(deck, disk);
        ReachesCompletable(first, action);
        var selection := RunReplace(layout, index, None);
        DealsReplaceAction(deck, first, index, disk);
        if selection.Err? {
          return Err(selection.error);
        }
        ReplacedActed(deck, first, index, CurrentDeck(), layout.Value(), disk, favorite_weight);
        r := Ok(Acted(selection.value, None, None));
      case Quarantine(index) =>
        r := RunQuarantine(layout, index, destination);
      case Other =>
        NothingDealt(deck, first, disk);
        r := Err(DoesNotRender);
    }

    // ---- preparing, committing, rolling back ----

    /** What preparing an action for these outputs needs: a well-formed layout of their number, whose
        window can be reached, and draws that end. */
    ghost predicate ReadyFor(action: Action, outputs: seq<string>, capture: bool)
      reads this
    {
      outputs != [] && IndexOk(action, |outputs|) ==>
        var l := LayoutFor(outputs);
        && WellFormed(l) && l.out_count == |outputs| && ReachesWith(l, action, capture)
        && Ends(CurrentDeck(), |outputs|, None, CurrentDisk())
        && (action.Quarantine? ==> OtherEnds(CurrentDeck(), CurrentDisk()))
    }

    ghost function LayoutFor(outputs: seq<string>): Layout
      reads this
    {
      var key := LayoutKey(outputs);
      if key in layouts then layouts[key]
      else LoadLayout(if key in saved then saved[key] else SavedLayout([], 0, 0), |outputs|, max_history)
    }

    /** `take_layout`: the layout leaves memory; one that is not in memory is loaded. */
    method TakeLayout(outputs: seq<string>) returns (layout: LayoutState)
      modifies this`layouts
      ensures fresh(layout) && layout.Value() == old(LayoutFor(outputs))
      ensures layouts == old(layouts) - {LayoutKey(outputs)}
    {
      var key := LayoutKey(outputs);
      if key in layouts {
        layout := new LayoutState(layouts[key]);
      } else {
        var stored := if key in saved then saved[key] else SavedLayout([], 0, 0);
        layout := new LayoutState(LoadLayout(stored, |outputs|, max_history));
      }
      layouts := layouts - {key};
    }

    function Entries(outputs: seq<string>, selection: Row): seq<WallpaperEntry>
      reads this`favorites
    {
      var favorites := favorites;
      seq(Min(|outputs|, |selection|), i requires 0 <= i < Min(|outputs|, |selection|) =>
        WallpaperEntry(i, outputs[i], selection[i] in favorites, selection[i]))
    }

    /** The selection is made whole and healed. */
    method Select(layout: LayoutState, selection: Row) returns (r: Result<Row>)
      requires Valid() && Started(layout.Value()) && CanComplete(layout.Value()) && selection == Window(layout.Value())
      requires Ends(CurrentDeck(), layout.out_count, None, CurrentDisk())
      modifies this`library, this`favorites, this`shuffle_bag, this`shuffle_pos, layout
      ensures Valid() && (library == old(library) || library == Sorted(Folder()))
      ensures r.Err? ==> CannotDraw(old(CurrentDeck()), CurrentDisk())
      ensures r.Ok? ==> SelectsBy(old(CurrentDeck()), old(layout.Value()), CurrentDeck(), layout.Value(), r.value, CurrentDisk(), favorite_weight)
      ensures var deal := DealSelection(old(CurrentDeck()), old(layout.Value()), CurrentDisk());
        deal.Some? ==> r == Ok(deal.value.1) && layout.Value() == deal.value.0 && CurrentDeck() == old(CurrentDeck()).(pos := deal.value.2)
    {
      hide DeckOk, Listed, Sorted, DealHealing, HealedBy, WindowBy, Window, Complete, CanComplete, Ends, AllShown, Healed, DealWindow, Started, CannotDraw;
      ghost var first, disk, deck := layout.Value(), CurrentDisk(), CurrentDeck();
      WindowLength(first);
      if Complete(first) {
        WindowAlready(deck, first, disk, favorite_weight);
      }
      DealsWhole(deck, first, disk);
      var whole := selection;
      if |selection| < layout.out_count {
        var ensured := EnsureWindow(layout);
        if ensured.Err? {
          return Err(ensured.error);
        }
        whole := Window(layout.Value());
      }
      ghost var mid := CurrentDeck();
      r := HealSelection(layout, whole);
      if r.Err? {
        CannotEarlier(deck, mid, disk);
      }
    }

    method PrepareWallpaperChange(action: Action, outputs: seq<string>, capture: bool, destination: string)
      returns (r: Result<PreparedChange>, ghost p: Preparation)
      requires Valid() && ReadyFor(action, outputs, capture)
      modifies this`library, this`favorites, this`shuffle_bag, this`shuffle_pos, this`layouts
      ensures Valid() && (library == old(library) || library == Sorted(Folder()))
      ensures outputs == [] ==> r == Err(NoOutputs)
      ensures outputs != [] && !IndexOk(action, |outputs|) ==> r == Err(IndexOutOfRange)
      ensures outputs == [] || !IndexOk(action, |outputs|) ==> layouts == old(layouts) && CurrentDeck() == old(CurrentDeck())
      ensures outputs != [] && IndexOk(action, |outputs|) ==> layouts == old(layouts) - {LayoutKey(outputs)}
      ensures r.Err? && outputs != [] && IndexOk(action, |outputs|) ==> action == Other || CannotAct(old(CurrentDeck()), action, CurrentDisk())
      ensures r.Ok? ==> PreparedFrom(r.value, action, outputs, capture, destination, old(LayoutFor(outputs)), old(CurrentDeck()), favorites, CurrentDisk())
      ensures r.Ok? ==> PreparesBy(old(CurrentDeck()), old(LayoutFor(outputs)), action, capture, CurrentDeck(), p, CurrentDisk(), favorite_weight)
      ensures r.Ok? ==> Carries(r.value, p, destination, CurrentDisk())
      ensures outputs != [] && IndexOk(action, |outputs|) ==>
        var deal := DealChange(old(CurrentDeck()), old(LayoutFor(outputs)), action, capture, CurrentDisk());
        deal.Some? ==> r.Ok? && p == Made(deal.value) && CurrentDeck() == old(CurrentDeck()).(pos := deal.value.pos)
    {
      hide DeckOk, Listed, Sorted, Ends, OtherEnds, ReachesWith, WellFormed, DealChange, Prepares, PreparesBy, CannotAct;
      p := *;
      if outputs == [] {
        return Err(NoOutputs), p;
      }
      if action.Replace? || action.Quarantine? {
        if action.index >= |outputs| {
          return Err(IndexOutOfRange), p;
        }
      }
      var layout := TakeLayout(outputs);
      var layout_before := layout.Value();
      var pos_before, bag_len_before := shuffle_pos, |shuffle_bag|;
      var changed;
      changed, p := ChangeLayout(layout, action, capture, destination);
      if changed.Err? {
        return Err(changed.error), p;
      }
      var c := changed.value;
      r := Ok(PreparedChange(Some(action), Entries(outputs, c.selection), c.selection, c.before_start,
                             if capture then Some(Start(layout.Value())) else None,
                             LayoutKey(outputs), layout_before, layout.Value(), c.quarantine, pos_before, bag_len_before));
    }

    /** The part of the preparation that works on the layout. */
    method ChangeLayout(layout: LayoutState, action: Action, capture: bool, destination: string)
      returns (r: Result<ChangedLayout>, ghost p: Preparation)
      requires Valid() && WellFormed(layout.Value()) && ReachesWith(layout.Value(), action, capture) && IndexOk(action, layout.out_count)
      requires Ends(CurrentDeck(), layout.out_count, None, CurrentDisk()) && (action.Quarantine? ==> OtherEnds(CurrentDeck(), CurrentDisk()))
      modifies this`library, this`favorites, this`shuffle_bag, this`shuffle_pos, layout
      ensures Valid() && (library == old(library) || library == Sorted(Folder()))
      ensures r.Err? ==> action == Other || CannotAct(old(CurrentDeck()), action, CurrentDisk())
      ensures r.Ok? ==> PreparesBy(old(CurrentDeck()), old(layout.Value()), action, capture, CurrentDeck(), p, CurrentDisk(), favorite_weight)
      ensures r.Ok? ==> layout.out_count > 0 && Prepares(old(layout.Value()), action, capture, p.layout, p.selection, CurrentDisk())
      ensures r.Ok? ==> p == Preparation(layout.Value(), r.value.selection, r.value.before_start, p.target)
      ensures r.Ok? ==> r.value.quarantine == MoveOf(p.target, destination, CurrentDisk()) && (p.target.Some? ==> action.Quarantine?)
      ensures r.Ok? ==> r.value.before_start.Some? == capture
      ensures var deal := DealChange(old(CurrentDeck()), old(layout.Value()), action, capture, CurrentDisk());
        deal.Some? ==> r.Ok? && p == Made(deal.value) && CurrentDeck() == old(CurrentDeck()).(pos := deal.value.pos)
    {
      hide DeckOk, Listed, Sorted, Complete, CanComplete, DealWindow, Window, DealInitial, ActedBy, BeforeBy, SelectsBy, PreparesBy, DealAction, Kept, Dealing, Fate,
           Ends, OtherEnds, Reaches, ReachesWith, Started, WellFormed, DealSelection, DealsAction, ActionDealt, DealChange, Prepares, DealWhole, CannotDraw, CannotAct;
      ghost var first, disk, deck := layout.Value(), CurrentDisk(), CurrentDeck();
      p := *;
      assert layout.out_count > 0 by { HasOutputs(first); }
      ValidDealing();
      CaptureCompletable(first, action, capture);
      DealsChangeAction(deck, first, action, capture, disk);
      var before_start := None;
      if capture {
        var captured := CapturePosition(layout);
        if captured.Err? {
          ActEarlier(deck, deck, action, disk);
          return Err(captured.error), p;
        }
        before_start := Some(captured.value);
      }
      ghost var mid, deck1 := layout.Value(), CurrentDeck();
      MidReady(deck, first, action, capture, deck1, mid, disk, favorite_weight);
      EndsStays(deck, deck1, layout.out_count, None, disk);
      OtherEndsLater(deck, deck1, action, disk);
      ValidDealing();
      var acted := RunAction(layout, action, destination);
      if acted.Err? {
        ActEarlier(deck, deck1, action, disk);
        return Err(acted.error), p;
      }
      ghost var l2, deck2 := layout.Value(), CurrentDeck();
      ActedShape(deck1, mid, action, deck2, l2, acted.value.target, disk, favorite_weight);
      EndsStays(deck1, deck2, layout.out_count, None, disk);
      DealsChangeSelection(deck, first, action, capture, deck2, l2, acted.value.target, disk);
      var selection := Select(layout, acted.value.selection);
      if selection.Err? {
        ActEarlier(deck, deck2, action, disk);
        return Err(selection.error), p;
      }
      p := Preparation(layout.Value(), selection.value, before_start, acted.value.target);
      PreparedNow(deck, first, action, capture, deck1, mid, deck2, l2, CurrentDeck(), p, disk, favorite_weight);
      PreparesFate(deck, deck, first, action, capture, CurrentDeck(), p, disk, favorite_weight);
      r := Ok(ChangedLayout(before_start, selection.value, acted.value.quarantine));
    }

    method CapturePosition(layout: LayoutState) returns (r: Result<nat>)
      requires Valid() && WellFormed(layout.Value()) && Completable(layout.Value())
      requires Ends(CurrentDeck(), layout.out_count, None, CurrentDisk())
      modifies this`library, this`favorites, this`shuffle_bag, this`shuffle_pos, layout
      ensures Valid() && (library == old(library) || library == Sorted(Folder()))
      ensures r.Err? ==> CannotDraw(old(CurrentDeck()), CurrentDisk())
      ensures r.Ok? ==> r.value == Start(layout.Value())
      ensures r.Ok? ==> BeforeBy(old(CurrentDeck()), old(layout.Value()), true, CurrentDeck(), layout.Value(), CurrentDisk(), favorite_weight)
      ensures r.Ok? ==> Started(layout.Value()) && Complete(layout.Value()) && SameShape(layout.Value(), old(layout.Value()))
      ensures var deal := DealWhole(old(CurrentDeck()), old(layout.Value()), CurrentDisk());
        deal.Some? ==> r.Ok? && layout.Value() == deal.value.layout && CurrentDeck() == old(CurrentDeck()).(pos := deal.value.pos)
    {
      hide DeckOk, Listed, Sorted, Complete, CanComplete, DealWindow, Reached, Window, DealInitial, Begins, Ends, Started, WellFormed,
           BeginsBy, WindowBy, Kept, Dealing, Fate, CannotDraw;
      ghost var first, deck := layout.Value(), CurrentDeck();
      ValidDealing();
      var initialized := EnsureInitialized(layout);
      if initialized.Err? {
        return Err(initialized.error);
      }
      ghost var begun, deck1 := layout.Value(), CurrentDeck();
      BeginsFate(deck, deck, first, deck1, begun, CurrentDisk(), favorite_weight);
      BegunCanComplete(first, begun, CurrentDisk());
      EndsStays(deck, deck1, layout.out_count, None, CurrentDisk());
      ValidDealing();
      var ensured := EnsureWindow(layout);
      if ensured.Err? {
        CannotEarlier(deck, deck1, CurrentDisk());
        return Err(ensured.error);
      }
      WindowFate(deck1, deck1, begun, CurrentDeck(), layout.Value(), CurrentDisk(), favorite_weight);
      r := Ok(Start(layout.Value()));
    }

    /** `prepare_startup_display`: the current window, made whole and healed. */
    method PrepareStartupDisplay(outputs: seq<string>) returns (r: Result<PreparedChange>)
      requires Valid()
      requires outputs != [] ==>
        var l := LayoutFor(outputs); WellFormed(l) && l.out_count == |outputs| && Completable(l) && Ends(CurrentDeck(), |outputs|, None, CurrentDisk())
      modifies this`library, this`favorites, this`shuffle_bag, this`shuffle_pos, this`layouts
      ensures Valid() && (library == old(library) || library == Sorted(Folder()))
      ensures outputs == [] ==> r == Err(NoOutputs) && layouts == old(layouts) && CurrentDeck() == old(CurrentDeck())
      ensures outputs != [] ==> layouts == old(layouts) - {LayoutKey(outputs)}
      ensures r.Err? && outputs != [] ==> CannotDraw(old(CurrentDeck()), CurrentDisk())
      ensures r.Ok? ==> StartsBy(old(CurrentDeck()), old(LayoutFor(outputs)), CurrentDeck(), r.value.layout, r.value.selection, CurrentDisk(), favorite_weight)
      ensures r.Ok? ==> r.value.layout_key == LayoutKey(outputs) && r.value.quarantine.None? && r.value.layout_before == old(LayoutFor(outputs))
      ensures r.Ok? ==> Started(r.value.layout) && Complete(r.value.layout) && SameShape(r.value.layout, old(LayoutFor(outputs)))
      ensures r.Ok? ==> Window(r.value.layout) == r.value.selection && AllShown(r.value.selection, CurrentDisk())
      ensures outputs != [] ==>
        var deal := DealStartup(old(CurrentDeck()), old(LayoutFor(outputs)), CurrentDisk());
        deal.Some? ==> r.Ok? && r.value.layout == deal.value.0 && r.value.selection == deal.value.1 && CurrentDeck() == old(CurrentDeck()).(pos := deal.value.2)
    {
      hide DeckOk, Sorted, Complete, CanComplete, DealWindow, Reached, Window, DealInitial, Begins, Ends, Started, WellFormed, DealHealing, Healed, AllShown,
           HealedBy, HealedFrom, BeforeBy, Kept, Dealing, Fate, CannotDraw;
      if outputs == [] {
        return Err(NoOutputs);
      }
      ghost var deck := CurrentDeck();
      var layout := TakeLayout(outputs);
      var layout_before := layout.Value();
      var pos_before, bag_len_before := shuffle_pos, |shuffle_bag|;
      var captured := CapturePosition(layout);
      if captured.Err? {
        return Err(captured.error);
      }
      ghost var whole, mid := layout.Value(), CurrentDeck();
      ValidDealing();
      var selection := HealSelection(layout, Window(layout.Value()));
      if selection.Err? {
        CannotEarlier(deck, mid, CurrentDisk());
        return Err(selection.error);
      }
      HealedFate(mid, mid, Window(whole), CurrentDeck(), selection.value, CurrentDisk(), favorite_weight);
      StartupSelects(layout_before, whole, layout.Value(), selection.value, CurrentDisk());
      var start := Some(Start(layout.Value()));
      r := Ok(PreparedChange(None, Entries(outputs, selection.value), selection.value, start, start, LayoutKey(outputs),
                             layout_before, layout.Value(), None, pos_before, bag_len_before));
    }

    /** `move_quarantine`, with a rename that may fail. */
    method MoveQuarantine(prepared: PreparedChange, rename_works: bool) returns (ok: bool, moved: PreparedChange)
      requires Valid() && (prepared.quarantine.Some? ==> !eligible(prepared.quarantine.value.destination))
      modifies this`files
      ensures Valid()
      ensures moved == prepared.(quarantine := moved.quarantine)
      ensures prepared.quarantine.None? || prepared.quarantine.value.source !in old(files) ==> ok && moved == prepared && files == old(files)
      ensures prepared.quarantine.Some? && prepared.quarantine.value.source in old(files) ==>
        var q := prepared.quarantine.value;
        ok == rename_works && (!ok ==> moved == prepared && files == old(files))
        && (ok ==> moved.quarantine == Some(q.(moved := true)) && files == old(files) - {q.source} + {q.destination})
    {
      if prepared.quarantine.None? || prepared.quarantine.value.source !in files {
        return true, prepared;
      }
      if !rename_works {
        return false, prepared;
      }
      var q := prepared.quarantine.value;
      files := files - {q.source} + {q.destination};
      return true, prepared.(quarantine := Some(q.(moved := true)));
    }

    /** The file is moved back, unless that fails too: then it stays where it was moved to. */
    method RollbackQuarantine(prepared: PreparedChange, rename_back_works: bool)
      modifies this`files
      ensures files == FilesAfterRollback(old(files), prepared, rename_back_works)
    {
      if prepared.quarantine.Some? && prepared.quarantine.value.moved && rename_back_works {
        files := files - {prepared.quarantine.value.destination} + {prepared.quarantine.value.source};
      }
    }

    method RollbackWallpaperChange(prepared: PreparedChange, rename_back_works: bool)
      requires Valid()
      modifies this`files, this`shuffle_pos, this`layouts
      ensures Valid()
      ensures layouts == old(layouts)[prepared.layout_key := prepared.layout_before]
      ensures shuffle_pos == if |shuffle_bag| == prepared.bag_len_before then Min(prepared.pos_before, |shuffle_bag|) else old(shuffle_pos)
      ensures files == FilesAfterRollback(old(files), prepared, rename_back_works)
    {
      RollbackQuarantine(prepared, rename_back_works);
      if |shuffle_bag| == prepared.bag_len_before {
        shuffle_pos := Min(prepared.pos_before, |shuffle_bag|);
      }
      layouts := layouts[prepared.layout_key := prepared.layout_before];
    }

    /** A quarantined wallpaper leaves library, favourites and bag alike; the layout becomes the
        current one, in memory and on disk. */
    method CommitWallpaperChange(prepared: PreparedChange)
      requires Valid()
      modifies this`library, this`favorites, this`shuffle_bag, this`layouts, this`saved
      ensures Valid()
      ensures prepared.quarantine.None? ==> CurrentDeck() == old(CurrentDeck())
      ensures prepared.quarantine.Some? ==>
        CurrentDeck() == Forgotten(old(CurrentDeck()), prepared.quarantine.value.source)
      ensures layouts == old(layouts)[prepared.layout_key := prepared.layout]
      ensures saved == old(saved)[prepared.layout_key := SaveLayout(prepared.layout)]
    {
      if prepared.quarantine.Some? {
        var source := prepared.quarantine.value.source;
        ghost var before := CurrentDeck();
        library := Without(library, source);
        favorites := Without(favorites, source);
        shuffle_bag := Without(shuffle_bag, source);
        ForgottenOk(before, source);
      }
      saved := saved[prepared.layout_key := SaveLayout(prepared.layout)];
      layouts := layouts[prepared.layout_key := prepared.layout];
    }

    // ---- the library ----

    /** A new wallpaper of the directory is listed in order and drawn last. */
    method AddTopLevelFile(path: string) returns (added: bool)
      requires Valid()
      modifies this`library, this`shuffle_bag
      ensures Valid()
      ensures added <==> path in Folder() && path !in old(library)
      ensures added ==> Elements(library) == Elements(old(library)) + {path} && shuffle_bag == old(shuffle_bag) + [path]
      ensures !added ==> CurrentDeck() == old(CurrentDeck())
    {
      if path !in Folder() || path in library {
        return false;
      }
      ghost var before := CurrentDeck();
      library := Sorted(Elements(library + [path]));
      shuffle_bag := shuffle_bag + [path];
      AddedOk(before, CurrentDeck(), path);
      added := true;
    }

    method MarkFavorite(target: string, favorite: bool)
      requires Valid() && (favorite ==> target in files)
      modifies this`favorites, this`shuffle_bag, this`shuffle_pos
      ensures Valid() && shuffle_pos == 0
      ensures target in favorites <==> favorite && target in library && target in files
      ensures forall x | x in files && x != target :: x in favorites <==> x in old(favorites)
      ensures forall x | x in library :: multiset(shuffle_bag)[x] == if x in favorites then favorite_weight else 1
    {
      hide DeckOk, Sorted, Rebuilt, Sanitized, Weighted;
      assert StrictlySorted(library) by { LibrarySorted(CurrentDeck()); }
      FavoritesListed(CurrentDeck());
      if favorite {
        if target !in favorites {
          favorites := Sorted(Elements(favorites + [target]));
        }
      } else {
        favorites := Without(favorites, target);
      }
      ghost var marked := CurrentDeck();
      RebuildBag();
      RebuiltBag(marked, CurrentDeck(), CurrentDisk(), favorite_weight);
      SanitizedFavorites(marked, CurrentDeck(), CurrentDisk(), favorite_weight);
    }

    /** `favorite_action`: marking or unmarking the wallpaper at an output, and a new bag. */
    method FavoriteAction(outputs: seq<string>, index: nat, favorite: bool) returns (r: Result<string>)
      requires Valid()
      requires outputs != [] ==>
        var l := LayoutFor(outputs); WellFormed(l) && l.out_count == |outputs| && Completable(l) && Ends(CurrentDeck(), |outputs|, None, CurrentDisk())
      modifies this`library, this`favorites, this`shuffle_bag, this`shuffle_pos, this`layouts, this`saved
      ensures Valid()
      ensures index >= |outputs| ==> r == Err(IndexOutOfRange) && CurrentDeck() == old(CurrentDeck()) && layouts == old(layouts)
      ensures index < |outputs| ==> LayoutKey(outputs) in layouts
      ensures r.Err? ==> r.error in {IndexOutOfRange, WallpaperError.NoHistory, TargetMissing} || CannotDraw(old(CurrentDeck()), CurrentDisk())
      ensures r == Err(WallpaperError.NoHistory) ==> old(LayoutFor(outputs)).history == []
      ensures r.Ok? ==> (r.value in favorites <==> favorite && r.value in library && r.value in files)
      ensures r.Ok? ==> shuffle_pos == 0 && layouts == old(layouts)[LayoutKey(outputs) := layouts[LayoutKey(outputs)]]
      ensures r.Ok? ==> var l := layouts[LayoutKey(outputs)];
        Reached(old(LayoutFor(outputs)), l, CurrentDisk()) && |Window(l)| == |outputs| && r.value == Window(l)[index]
      ensures r.Ok? ==> forall x | x in files && x != r.value :: x in favorites <==> x in old(favorites)
      ensures r.Ok? ==> forall x | x in library :: multiset(shuffle_bag)[x] == if x in favorites then favorite_weight else 1
    {
      hide DeckOk, Sorted, Complete, CanComplete, Reached, Ends, Started, Rebuilt, Settles, DrawFails, Sanitized, Weighted, DealWindow,
           WindowBy, Kept, Dealing, Fate;
      if index >= |outputs| {
        return Err(IndexOutOfRange);
      }
      var key := LayoutKey(outputs);
      var layout := TakeLayout(outputs);
      if CurrentSelection(layout.Value(), true) == Selected.NoHistory {
        layouts := layouts[key := layout.Value()];
        return Err(WallpaperError.NoHistory);
      }
      ghost var first := layout.Value();
      ghost var deck := CurrentDeck();
      StartedFromHistory(first);
      ValidDealing();
      var ensured := EnsureWindow(layout);
      if ensured.Err? {
        layouts := layouts[key := layout.Value()];
        return Err(ensured.error);
      }
      WindowFate(deck, deck, first, CurrentDeck(), layout.Value(), CurrentDisk(), favorite_weight);
      var target := Window(layout.Value())[index];
      if favorite && target !in files {
        layouts := layouts[key := layout.Value()];
        return Err(TargetMissing);
      }
      MarkFavorite(target, favorite);
      saved := saved[key := SaveLayout(layout.Value())];
      layouts := layouts[key := layout.Value()];
      r := Ok(target);
    }
  }

  function FilesAfterRollback(files: set<string>, prepared: PreparedChange, rename_back_works: bool): set<string> {
    if prepared.quarantine.Some? && prepared.quarantine.value.moved && rename_back_works
    then files - {prepared.quarantine.value.destination} + {prepared.quarantine.value.source} else files
  }

  function Without(s: seq<string>, x: string): seq<string> { Retain(s, Elements(s) - {x}) }

  function Forgotten(d: Deck, source: string): Deck {
    Deck(Without(d.library, source), Without(d.favorites, source), Without(d.bag, source), d.pos)
  }

  lemma {:induction false} RetainSorted(s: seq<string>, keep: set<string>)
    requires StrictlySorted(s)
    ensures StrictlySorted(Retain(s, keep))
  {
    if s != [] {
      var rest := Retain(s[1..], keep);
      RetainSorted(s[1..], keep);
      forall j | 0 <= j < |rest| ensures Less(s[0], rest[j]) {
        assert rest[j] in s[1..];
      }
    }
  }

  lemma ForgottenOk(d: Deck, source: string)
    requires DeckOk(d)
    ensures DeckOk(Forgotten(d, source)) && Elements(Forgotten(d, source).library) == Elements(d.library) - {source}
  {
    RetainSorted(d.library, Elements(d.library) - {source});
    RetainSorted(d.favorites, Elements(d.favorites) - {source});
  }

  lemma AddedOk(d: Deck, d': Deck, path: string)
    requires DeckOk(d) && d'.favorites == d.favorites && d'.bag == d.bag + [path] && d'.library == Sorted(Elements(d.library + [path]))
    ensures DeckOk(d') && Elements(d'.library) == Elements(d.library) + {path}
  {
    hide StrictlySorted, Sorted;
    assert Elements(d.library + [path]) == Elements(d.library) + {path};
    assert Elements(d.bag + [path]) == Elements(d.bag) + {path};
    assert Elements(d'.library) == Elements(d.library + [path]);
  }

  lemma StartedFromHistory(l: Layout)
    requires WellFormed(l) && Completable(l) && CurrentSelection(l, true) != Selected.NoHistory
    ensures Started(l) && CanComplete(l)
  {}

  lemma FavoritesListed(d: Deck)
    requires DeckOk(d)
    ensures forall x | x in d.favorites :: x in d.library
  {
    forall x | x in d.favorites ensures x in d.library {
      assert x in Elements(d.favorites);
    }
  }

  lemma LibrarySorted(d: Deck)
    requires DeckOk(d)
    ensures StrictlySorted(d.library)
  {}

  lemma SanitizedFavorites(d: Deck, d': Deck, disk: Disk, weight: nat)
    requires Rebuilt(d, d', disk, weight)
    ensures forall x :: x in d'.favorites <==> x in d.favorites && x in d.library && x in disk.files
  {}

  /** `prepare_startup_display`, where the bag suffices. */
  function DealStartup(d: Deck, l: Layout, disk: Disk): Option<(Layout, Row, nat)>
    requires WellFormed(l) && Completable(l)
  {
    match DealWhole(d, l, disk)
    case None => None
    case Some(whole) =>
      match DealHealing(d.(pos := whole.pos), Window(whole.layout), disk)
      case None => None
      case Some((healed, pos)) => Some((AfterHealing(whole.layout, Window(whole.layout), healed, disk), healed, pos))
  }


  /** A prepared change carries the layout it began from, the shuffle position before it, and a layout
      and selection that the action leads to, one entry for each output. */
  ghost predicate PreparedFrom(p: PreparedChange, action: Action, outputs: seq<string>, capture: bool, destination: string,
                               before: Layout, deck: Deck, favorites: seq<string>, disk: Disk) {
    && p.layout_before == before && p.layout_key == LayoutKey(outputs) && p.action == Some(action)
    && p.pos_before == deck.pos && p.bag_len_before == |deck.bag|
    && before.out_count > 0 && Prepares(before, action, capture, p.layout, p.selection, disk)
    && p.canvas_after_start == (if capture then Some(Start(p.layout)) else None)
    && |p.entries| == Min(|outputs|, |p.selection|)
    && (forall i | 0 <= i < |p.entries| :: p.entries[i] == WallpaperEntry(i, outputs[i], p.selection[i] in favorites, p.selection[i]))
    && QuarantineOk(p.quarantine, action, destination, disk)
  }

  /** The change is the preparation; what goes into quarantine is moved if it is on disk. */
  predicate Carries(change: PreparedChange, p: Preparation, destination: string, disk: Disk) {
    && change.layout == p.layout && change.selection == p.selection && change.canvas_before_start == p.before_start
    && change.quarantine == MoveOf(p.target, destination, disk)
  }

  function MoveOf(target: Option<string>, destination: string, disk: Disk): Option<QuarantineMove> {
    if target.Some? && target.value in disk.files then Some(QuarantineMove(target.value, destination, false)) else None
  }

  predicate QuarantineOk(quarantine: Option<QuarantineMove>, action: Action, destination: string, disk: Disk) {
    quarantine.Some? ==>
      && action.Quarantine? && quarantine.value.source in disk.files
      && quarantine.value == QuarantineMove(quarantine.value.source, destination, false)
  }

  datatype ChangedLayout = ChangedLayout(before_start: Option<nat>, selection: Row, quarantine: Option<QuarantineMove>)

  lemma WindowLength(l: Layout)
    requires Started(l)
    ensures |Window(l)| <= l.out_count && (|Window(l)| == l.out_count <==> Complete(l))
  {
    FlatLength(l.history, l.out_count);
  }

  lemma DealsWhole(d: Deck, l: Layout, disk: Disk)
    requires Started(l) && CanComplete(l)
    ensures Complete(l) ==> DealWindow(d, l, disk) == Some(Dealt(l, d.pos))
  {}

  lemma MidReady(d: Deck, l: Layout, action: Action, capture: bool, d1: Deck, mid: Layout, disk: Disk, weight: nat)
    requires WellFormed(l) && ReachesWith(l, action, capture) && Kept(d, d, disk) && Dealing(d, disk, weight)
    requires if capture then BeforeBy(d, l, true, d1, mid, disk, weight) else d1 == d && mid == l
    ensures WellFormed(mid) && Reaches(mid, action) && SameShape(mid, l)
  {
    hide BeforeBy, Kept, Dealing, Begins, Reached, Fate, Reaches;
    if capture {
      BeforeFate(d, d, l, action, true, d1, mid, disk, weight);
      BeforeReaches(l, action, true, mid, disk);
    }
  }

  lemma CaptureCompletable(l: Layout, action: Action, capture: bool)
    requires WellFormed(l) && ReachesWith(l, action, capture)
    ensures capture ==> Completable(l)
  {}

  lemma StartupSelects(l: Layout, whole: Layout, l': Layout, selection: Row, disk: Disk)
    requires DiskOk(disk) && Started(whole) && Complete(whole) && SameShape(whole, l)
    requires HealedFrom(Window(whole), selection, disk) && l' == AfterHealing(whole, Window(whole), selection, disk)
    ensures Started(l') && Complete(l') && SameShape(l', l) && Window(l') == selection && AllShown(selection, disk)
  {
    hide Started, Window, Reached, HealedFrom, Healed;
    CompleteStays(whole, disk);
    SelectedIsWindow(whole, l', selection, disk);
  }

  lemma OtherEndsLater(d: Deck, d': Deck, action: Action, disk: Disk)
    requires (action.Quarantine? ==> OtherEnds(d, disk)) && (d'.library == d.library || d'.library == Sorted(disk.folder))
    ensures action.Quarantine? ==> OtherEnds(d', disk)
  {
    if action.Quarantine? {
      OtherEndsStays(d, d', disk);
    }
  }

  ghost function CaptureDeal(d: Deck, l: Layout, capture: bool, disk: Disk): Option<Dealt>
    requires WellFormed(l) && (capture ==> Completable(l))
  {
    if capture then DealWhole(d, l, disk) else Some(Dealt(l, d.pos))
  }

  lemma DealsChangeAction(d: Deck, l: Layout, action: Action, capture: bool, disk: Disk)
    requires WellFormed(l) && (capture ==> Completable(l)) && ReachesWith(l, action, capture) && IndexOk(action, l.out_count)
    ensures DealChange(d, l, action, capture, disk).Some? ==>
      var before := CaptureDeal(d, l, capture, disk);
      && before.Some? && WellFormed(before.value.layout) && Reaches(before.value.layout, action) && SameShape(before.value.layout, l)
      && DealsAction(d.(pos := before.value.pos), before.value.layout, action, disk)
  {
    hide DealWindow, DealAction, DealHealing, Complete, Window, Healed;
  }

  lemma DealsChangeSelection(d: Deck, l: Layout, action: Action, capture: bool, d': Deck, l': Layout, target: Option<string>, disk: Disk)
    requires WellFormed(l) && (capture ==> Completable(l)) && ReachesWith(l, action, capture) && IndexOk(action, l.out_count)
    requires DealChange(d, l, action, capture, disk).Some? ==>
      var before := CaptureDeal(d, l, capture, disk);
      && before.Some? && WellFormed(before.value.layout) && Reaches(before.value.layout, action) && SameShape(before.value.layout, l)
      && DealsAction(d.(pos := before.value.pos), before.value.layout, action, disk)
      && ActionDealt(d.(pos := before.value.pos), before.value.layout, action, d', l', target, disk)
    ensures DealChange(d, l, action, capture, disk).Some? ==>
      var plan := DealChange(d, l, action, capture, disk).value;
      && Started(l') && CanComplete(l') && DealSelection(d', l', disk) == Some((plan.layout, plan.selection, plan.pos)) && d' == d.(pos := d'.pos)
      && target == plan.target
      && plan.before_start == (if capture then Some(Start(CaptureDeal(d, l, capture, disk).value.layout)) else None)
      && plan.after_start == (if capture then Some(Start(plan.layout)) else None)
  {
    hide DealWindow, DealAction, DealHealing, Complete, Window, Healed;
  }

  lemma AllShownStep(selection: Row, last: string, disk: Disk)
    ensures AllShown(selection + [last], disk) <==> AllShown(selection, disk) && Shown(last, disk)
  {
    assert last in selection + [last];
  }

  datatype Acted = Acted(selection: Row, target: Option<string>, quarantine: Option<QuarantineMove>)

  /** A target still on disk is planned to be moved. */
  predicate QuarantinePlanned(acted: Acted, action: Action, destination: string, disk: Disk) {
    && acted.target.Some? == action.Quarantine?
    && acted.quarantine == match acted.target
      case Some(target) => if target in disk.files then Some(QuarantineMove(target, destination, false)) else None
      case None => None
  }

  ghost predicate DealsAction(d: Deck, l: Layout, action: Action, disk: Disk)
    requires WellFormed(l) && Reaches(l, action) && IndexOk(action, l.out_count)
  {
    var initial := DealInitial(d, l, disk);
    initial.Some?
    && var acted := DealAction(d.(pos := initial.value.pos), initial.value.layout, action, disk);
    acted.Some? && DealWindow(d.(pos := acted.value.1), acted.value.0, disk).Some?
  }

  /** What remains to be dealt after the action is as planned, and so is the target. */
  ghost predicate ActionDealt(d: Deck, l: Layout, action: Action, d': Deck, l': Layout, target: Option<string>, disk: Disk)
    requires WellFormed(l) && Reaches(l, action) && IndexOk(action, l.out_count) && DealsAction(d, l, action, disk)
  {
    var initial := DealInitial(d, l, disk).value;
    var acted := DealAction(d.(pos := initial.pos), initial.layout, action, disk).value;
    && d' == d.(pos := d'.pos) && Started(l') && CanComplete(l') && target == acted.2
    && DealWindow(d', l', disk) == DealWindow(d.(pos := acted.1), acted.0, disk)
  }

  lemma WholeCompletable(l: Layout)
    requires Started(l) && Complete(l)
    ensures WellFormed(l) && Completable(l) && CanComplete(l)
  {}

  /** What a planned quarantine is made of. */
  lemma DealsQuarantineSteps(d: Deck, l: Layout, index: nat, disk: Disk)
    requires WellFormed(l) && Reaches(l, Quarantine(index)) && index < l.out_count && Completable(l)
    ensures DealsAction(d, l, Quarantine(index), disk) ==>
      var initial := DealInitial(d, l, disk);
      && initial.Some? && Started(initial.value.layout) && CanComplete(initial.value.layout)
      && var whole := DealWindow(d.(pos := initial.value.pos), initial.value.layout, disk);
      && whole.Some? && WellFormed(whole.value.layout) && Completable(whole.value.layout) && SameShape(whole.value.layout, l)
      && index < |Window(whole.value.layout)|
      && var target := Window(whole.value.layout)[index];
      var deal := DealReplaced(d.(pos := whole.value.pos), whole.value.layout, index, Some(target), disk);
      && deal.Some? && Started(deal.value.0) && CanComplete(deal.value.0)
      && ActionDealt(d, l, Quarantine(index), d.(pos := deal.value.1), deal.value.0, Some(target), disk)
  {
    hide DealWindow, Record, Window, DealRow, DealReplaced, Reaches;
    var initial := DealInitial(d, l, disk);
    if initial.Some? {
      BeginsShape(d, l, disk);
      var whole := DealWindow(d.(pos := initial.value.pos), initial.value.layout, disk);
      if whole.Some? {
        WholeWindow(whole.value.layout);
      }
    }
  }

  lemma BeginsShape(d: Deck, l: Layout, disk: Disk)
    requires WellFormed(l) && Completable(l) && DealInitial(d, l, disk).Some?
    ensures CanComplete(DealInitial(d, l, disk).value.layout)
  {}

  lemma ReachesCompletable(l: Layout, action: Action)
    requires WellFormed(l) && Reaches(l, action) && (action.Replace? || action.Quarantine?)
    ensures Completable(l)
  {}

  lemma DealsMoveAction(d: Deck, l: Layout, m: Move, d': Deck, l': Layout, disk: Disk)
    requires WellFormed(l) && Reaches(l, Action.Move(m))
    requires DealsMove(d, l, m, disk) ==> MoveDealt(d, l, m, d', l', disk)
    ensures DealsAction(d, l, Action.Move(m), disk) ==> DealsMove(d, l, m, disk) && ActionDealt(d, l, Action.Move(m), d', l', None, disk)
  {
    hide DealInitial, DealWindow, Moved, Reaches, Started, WellFormed, Complete, CanComplete;
  }

  lemma DealsReplaceAction(d: Deck, l: Layout, index: nat, disk: Disk)
    requires WellFormed(l) && Reaches(l, Replace(index)) && index < l.out_count && Completable(l)
    ensures DealsAction(d, l, Replace(index), disk) ==>
      var deal := DealReplaced(d, l, index, None, disk);
      && deal.Some? && Started(deal.value.0) && CanComplete(deal.value.0)
      && ActionDealt(d, l, Replace(index), d.(pos := deal.value.1), deal.value.0, None, disk)
  {
    hide DealWindow, Reaches, Complete, Record, Window, DealRow;
    if DealInitial(d, l, disk).Some? {
      BeginsShape(d, l, disk);
      InitialOnce(d, l, index, disk);
    }
  }

  lemma InitialOnce(d: Deck, l: Layout, index: nat, disk: Disk)
    requires WellFormed(l) && Completable(l) && index < l.out_count && DealInitial(d, l, disk).Some?
    requires CanComplete(DealInitial(d, l, disk).value.layout)
    ensures var initial := DealInitial(d, l, disk).value;
      DealReplaced(d, l, index, None, disk) == DealReplaced(d.(pos := initial.pos), initial.layout, index, None, disk)
  {
    hide DealWindow, Complete, Record, Window, DealRow, DealInitial;
  }

  lemma NothingDealt(d: Deck, l: Layout, disk: Disk)
    requires WellFormed(l) && Reaches(l, Other)
    ensures !DealsAction(d, l, Other, disk)
  {}

  lemma HasOutputs(l: Layout)
    requires WellFormed(l)
    ensures l.out_count > 0
  {}

  ghost predicate DealsMove(d: Deck, l: Layout, m: Move, disk: Disk)
    requires WellFormed(l) && Reaches(l, Action.Move(m))
  {
    var initial := DealInitial(d, l, disk);
    initial.Some? && (ReachesMoved(initial.value.layout, m); DealWindow(d.(pos := initial.value.pos), Moved(initial.value.layout, m), disk).Some?)
  }

  /** What remains to be dealt is what would have been dealt after the move. */
  ghost predicate MoveDealt(d: Deck, l: Layout, m: Move, d': Deck, l': Layout, disk: Disk)
    requires WellFormed(l) && Reaches(l, Action.Move(m)) && DealsMove(d, l, m, disk)
  {
    var initial := DealInitial(d, l, disk).value;
    ReachesMoved(initial.layout, m);
    && d' == d.(pos := d'.pos) && Started(l') && CanComplete(l')
    && DealWindow(d', l', disk) == DealWindow(d.(pos := initial.pos), Moved(initial.layout, m), disk)
  }

  lemma ReachesPlain(l: Layout, action: Action)
    requires WellFormed(l) && Reaches(l, action)
    ensures ReachesWith(l, action, false)
  {}

  /** A window that has been dealt is dealt with nothing more. */
  lemma DealWindowAgain(d: Deck, l: Layout, disk: Disk)
    requires Started(l) && CanComplete(l)
    ensures var deal := DealWindow(d, l, disk);
      deal.Some? ==> CanComplete(deal.value.layout) && DealWindow(d.(pos := deal.value.pos), deal.value.layout, disk) == deal
  {}

  lemma {:induction false} DealHealingPrefix(d: Deck, selection: Row, i: nat, disk: Disk)
    requires i <= |selection| && DealHealing(d, selection[..i], disk).None?
    ensures DealHealing(d, selection, disk).None?
    decreases |selection|
  {
    if i == |selection| {
      assert selection[..i] == selection;
    } else {
      var init := selection[..|selection| - 1];
      assert init[..i] == selection[..i] && selection == init + [selection[|selection| - 1]];
      DealHealingPrefix(d, init, i, disk);
      DealHealingStep(d, init, selection[|selection| - 1], disk);
    }
  }

  lemma BegunCanComplete(l: Layout, l': Layout, disk: Disk)
    requires WellFormed(l) && Completable(l) && Begins(l, l', disk)
    ensures Started(l') && CanComplete(l') && SameShape(l', l)
  {
    BeginsKeeps(l, l', disk);
  }

  lemma NothingGrown(l: Layout, d: Deck, disk: Disk, weight: nat)
    ensures GrowAll(l, []) == l && RowsBy(d, l.out_count, [], d, disk, weight)
  {}

  lemma CompleteCounts(l: Layout)
    ensures Complete(l) <==> |l.history| * l.out_count >= (Monus(l.idx, 1) * l.out_count + l.offset) + l.out_count
  {}

  lemma DealWindowStep(d: Deck, l: Layout, disk: Disk)
    requires Started(l) && CanComplete(l)
    ensures Complete(l) ==> DealWindow(d, l, disk) == Some(Dealt(l, d.pos))
    ensures !Complete(l) && DealWindow(d, l, disk).Some? ==> !DrawFails(d, l.out_count, None, disk)
    ensures !Complete(l) && DealWindow(d, l, disk).Some? ==>
      var scan := Scan(d.bag, d.pos, [], WantOf(d, l.out_count, None), disk);
      && scan.Some? && |scan.value.0| == l.out_count && Started(Grow(l, scan.value.0)) && CanComplete(Grow(l, scan.value.0))
      && DealWindow(d.(pos := scan.value.1), Grow(l, scan.value.0), disk) == DealWindow(d, l, disk)
  {
    hide Complete, CanComplete, Grow, Deficit, Scan, DrawFails;
    if !Complete(l) && DealWindow(d, l, disk).Some? {
      GrowProgress(l, DealRow(d, l.out_count, None, disk).value.0);
    }
  }

  lemma WindowReached(l: Layout, rows: seq<Row>, d: Deck, d': Deck, disk: Disk, weight: nat)
    requires Rows(rows, l.out_count) && Complete(GrowAll(l, rows)) && |rows| == Deficit(l) && RowsBy(d, l.out_count, rows, d', disk, weight)
    ensures WindowBy(d, l, d', GrowAll(l, rows), disk, weight)
  {
    hide RowsBy, Complete, Deficit;
    assert Ensured(l, rows, GrowAll(l, rows));
  }

  lemma GrowIs(l: Layout, row: Row)
    ensures Grow(l, row) == var a := Append(l, row); if a.idx < 1 then a.(idx := 1, offset := 0) else a
  {}

  lemma NothingWeighted(favorites: set<string>, weight: nat)
    ensures Weighted([], favorites, weight) == multiset{}
  {}

  lemma OneCopy(x: string)
    ensures Copies(x, 1) == multiset{x}
  {
    assert Copies(x, 0) == multiset{};
  }

  lemma CopyMore(before: multiset<string>, x: string, n: nat)
    ensures before + Copies(x, n) + multiset{x} == before + Copies(x, n + 1)
  {}

  lemma WeightedStep(library: seq<string>, i: nat, favorites: set<string>, weight: nat)
    requires i < |library|
    ensures Weighted(library[..i + 1], favorites, weight)
         == Weighted(library[..i], favorites, weight) + Copies(library[i], if library[i] in favorites then weight else 1)
  {
    assert library[..i + 1][..i] == library[..i];
  }

  /** What drawing promises about the wallpapers it returns. */
  predicate Chosen(picked: seq<string>, count: nat, exclude: Option<string>, before: Deck, library: seq<string>, disk: Disk) {
    && |picked| == count
    && (forall x | x in picked :: x in disk.folder && x in library && exclude != Some(x))
    && (Available(before, exclude) >= count ==> forall i, j | 0 <= i < j < |picked| :: picked[i] != picked[j])
  }

  /** The action cannot be prepared: no draw can be made, or for a quarantine no other wallpaper drawn. */
  predicate CannotAct(d: Deck, action: Action, disk: Disk) { if action.Quarantine? then Scarce(d, disk) else CannotDraw(d, disk) }

  lemma ReplacementFails(d: Deck, d': Deck, exclude: Option<string>, disk: Disk)
    requires DrawFails(d', 1, exclude, disk) && DeckOk(d) && (d'.library == d.library || d'.library == Sorted(disk.folder))
    ensures if exclude.Some? then Scarce(d, disk) else CannotDraw(d, disk)
  {
    hide Scarce, CannotDraw, DrawFails;
    match exclude
    case None => FailsEarlier(d, d', 1, disk);
    case Some(x) => FailsScarce(d, d', x, disk);
  }

  lemma ScarceEarlier(d: Deck, d': Deck, disk: Disk)
    requires Scarce(d', disk) && (d'.library == d.library || d'.library == Sorted(disk.folder))
    ensures Scarce(d, disk)
  {
    if d'.library == Sorted(disk.folder) {
      ListingLength(disk.folder);
    }
  }

  /** What a later step cannot do could not be done before. */
  lemma ActEarlier(d: Deck, d': Deck, action: Action, disk: Disk)
    requires d'.library == d.library || d'.library == Sorted(disk.folder)
    ensures CannotDraw(d', disk) ==> CannotAct(d, action, disk)
    ensures CannotAct(d', action, disk) ==> CannotAct(d, action, disk)
  {
    hide Scarce, CannotDraw, Sorted;
    if CannotDraw(d', disk) {
      CannotEarlier(d, d', disk);
      CannotIsScarce(d, disk);
    }
    if Scarce(d', disk) {
      ScarceEarlier(d, d', disk);
    }
  }

  lemma AvailableListed(d: Deck)
    ensures d.library != [] ==> Available(d, None) > 0
  {
    assert d.library != [] ==> d.library[0] in Elements(d.library);
  }

  lemma TurnedBag(d: Deck, mid: Deck, disk: Disk, weight: nat)
    requires DeckOk(d) && weight >= 1 && Rebuilt(d, mid, disk, weight)
    ensures DeckOk(mid) && mid.pos == 0 && mid.library == d.library && (mid.bag == [] <==> mid.library == []) && SameFavorites(d, mid, disk)
  {
    hide SameFavorites, StrictlySorted, Elements, Weighted;
    RebuiltBag(d, mid, disk, weight);
    RebuiltFavorites(d, mid, disk, weight);
    EmptyTogether(mid);
  }

  lemma ListedSame(d: Deck, d': Deck, disk: Disk)
    requires Listed(d, disk) && d'.library == d.library
    ensures Listed(d', disk)
  {}
}
