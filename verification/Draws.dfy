/** Drawing wallpapers from the deck: one round of the loop of `bag_next_n`, when the loop ends,
    and what it returns. */
module Draws {
  import opened Prelude
  import opened StringOrder
  import opened Decks

  datatype Want = Want(count: nat, exclude: Option<string>, allow_duplicates: bool)
  datatype Hand = Hand(deck: Deck, picked: seq<string>, attempts: nat)

  function Threshold(bag: nat): nat { Max(2 * bag, 32) }

  predicate Bad(wall: string, want: Want, disk: Disk) { want.exclude == Some(wall) || wall !in disk.files }

  /** A wallpaper that may be returned. */
  predicate Good(wall: string, want: Want, disk: Disk) { !Bad(wall, want, disk) }

  /** The bag is rebuilt when its end has been reached. */
  ghost predicate Turned(d: Deck, mid: Deck, disk: Disk, weight: nat) {
    if d.pos >= |d.bag| then Rebuilt(d, mid, disk, weight) else mid == d
  }

  /** Draw from a bag that has a next wallpaper. */
  ghost predicate Drawn(h: Hand, mid: Deck, h': Hand, want: Want, disk: Disk, weight: nat)
    requires mid.pos < |mid.bag|
  {
    var wall, next := mid.bag[mid.pos], mid.(pos := mid.pos + 1);
    if Bad(wall, want, disk) then
      if h.attempts + 1 > Threshold(|mid.bag|) then
        Rescanned(next, h'.deck, disk, weight) && h'.picked == h.picked && h'.attempts == 0
      else h' == Hand(next, h.picked, h.attempts + 1)
    else if !want.allow_duplicates && wall in h.picked then h' == Hand(next, h.picked, h.attempts + 1)
    else h' == Hand(next, h.picked + [wall], h.attempts + 1)
  }

  /** One round: turn the bag over if need be, then draw; with an empty library there is nothing to draw. */
  ghost predicate Round(h: Hand, mid: Deck, h': Hand, want: Want, disk: Disk, weight: nat) {
    Turned(h.deck, mid, disk, weight) && mid.pos < |mid.bag| && Drawn(h, mid, h', want, disk, weight)
  }

  // ---- when the loop ends ----

  /** Listed wallpapers other than the excluded one. */
  function Candidates(listed: set<string>, exclude: Option<string>): set<string> {
    match exclude
    case None => listed
    case Some(x) => listed - {x}
  }

  function Available(d: Deck, exclude: Option<string>): nat { |Candidates(Elements(d.library), exclude)| }

  /** The directory has enough for what is asked: one file if repeats will be allowed, as many as
      asked for otherwise; or it has none, which is an error. */
  predicate Settles(d: Deck, count: nat, exclude: Option<string>, disk: Disk) {
    || disk.folder == {}
    || var k := |Candidates(disk.folder, exclude)|; if Available(d, exclude) < count then k >= 1 else k >= count
  }

  /** When every listed wallpaper exists, drawing always ends. */
  lemma PresentSettles(d: Deck, count: nat, exclude: Option<string>, disk: Disk)
    requires Listed(d, disk) && forall x | x in d.library :: x in disk.files
    requires count == 0 || Available(d, exclude) > 0
    ensures Settles(d, count, exclude, disk)
  {
    CardinalityMono(Candidates(Elements(d.library), exclude), Candidates(disk.folder, exclude));
  }

  // ---- what holds of every hand ----

  ghost predicate Picks(h: Hand, want: Want, disk: Disk) {
    && (forall x | x in h.picked :: x in disk.folder && x in h.deck.library && Good(x, want, disk))
    && (!want.allow_duplicates ==> forall i, j | 0 <= i < j < |h.picked| :: h.picked[i] != h.picked[j])
  }

  ghost predicate HandOk(h: Hand, want: Want, disk: Disk) {
    DeckOk(h.deck) && Listed(h.deck, disk) && Picks(h, want, disk)
  }

  lemma TurnedOk(d: Deck, mid: Deck, disk: Disk, weight: nat)
    requires DeckOk(d) && weight >= 1 && Turned(d, mid, disk, weight)
    ensures DeckOk(mid) && mid.library == d.library
    ensures |mid.bag| <= Max(|d.bag|, |d.library| * weight)
  {
    if d.pos >= |d.bag| {
      RebuiltBag(d, mid, disk, weight);
      WeightedSize(d.library, Elements(mid.favorites), weight);
      assert |multiset(mid.bag)| == |mid.bag|;
    }
  }

  lemma InBag(d: Deck, i: nat)
    requires DeckOk(d) && i < |d.bag|
    ensures d.bag[i] in d.library
  {
    assert d.bag[i] in Elements(d.bag);
  }

  lemma RoundOk(h: Hand, mid: Deck, h': Hand, want: Want, disk: Disk, weight: nat)
    requires HandOk(h, want, disk) && weight >= 1 && Round(h, mid, h', want, disk, weight)
    ensures HandOk(h', want, disk)
    ensures h'.deck.library == h.deck.library || h'.deck.library == Sorted(disk.folder)
    ensures h'.picked == h.picked || |h'.picked| == |h.picked| + 1
  {
    hide Rebuilt, Rescanned, Settles, Threshold;
    TurnedOk(h.deck, mid, disk, weight);
    InBag(mid, mid.pos);
    var next := mid.(pos := mid.pos + 1);
    if Bad(mid.bag[mid.pos], want, disk) && h.attempts + 1 > Threshold(|mid.bag|) {
      RescannedDeck(next, h'.deck, disk, weight);
    }
  }

  /** Drawing changes no favourite that is on disk. */
  lemma RoundFavorites(h: Hand, mid: Deck, h': Hand, want: Want, disk: Disk, weight: nat)
    requires HandOk(h, want, disk) && weight >= 1 && Round(h, mid, h', want, disk, weight)
    ensures SameFavorites(h.deck, h'.deck, disk)
  {
    hide Rebuilt, Rescanned, Threshold, Picks, DeckOk;
    TurnedOk(h.deck, mid, disk, weight);
    if h.deck.pos >= |h.deck.bag| {
      RebuiltFavorites(h.deck, mid, disk, weight);
    }
    var next := mid.(pos := mid.pos + 1);
    if Bad(mid.bag[mid.pos], want, disk) && h.attempts + 1 > Threshold(|mid.bag|) {
      NextOk(mid);
      RescannedFavorites(next, h'.deck, disk, weight);
    }
  }

  lemma NextOk(d: Deck)
    requires DeckOk(d)
    ensures DeckOk(d.(pos := d.pos + 1))
  {}

  // ---- the measure ----

  ghost predicate Stale(d: Deck, disk: Disk) { d.library != Sorted(disk.folder) }

  /** What the rest of the bag still offers in a pass that began with a fresh bag. */
  ghost predicate Offers(h: Hand, want: Want, disk: Disk) {
    || (exists i :: h.deck.pos <= i < |h.deck.bag| && h.deck.bag[i] !in disk.files)
    || ((forall x | x in h.deck.library :: x in disk.files) && Rest(h, want, disk))
  }

  ghost predicate Rest(h: Hand, want: Want, disk: Disk) {
    if want.allow_duplicates then exists i :: h.deck.pos <= i < |h.deck.bag| && Good(h.deck.bag[i], want, disk)
    else forall x | x in h.deck.library && Good(x, want, disk) :: x in h.picked || x in Ahead(h.deck)
  }

  function Ahead(d: Deck): set<string> { set i | d.pos <= i < |d.bag| :: d.bag[i] }

  /** The lexicographic measure: picks to go, whether a rescan is still to come, attempts before a
      bad draw forces it, whether the bag must still be turned over, wallpapers left in it. */
  function StaleFactor(stale: bool): nat { if stale then 1 else 0 }
  function AttemptsLeft(h: Hand, stale: bool, limit: nat): nat { if stale then Monus(limit + 1, h.attempts) else 0 }
  function TurnFactor(full: bool): nat { if full then 0 else 1 }

  /** The threshold of the deck's largest bag until the library changes. */
  function BagLimit(d: Deck, weight: nat): nat { Threshold(Max(|d.bag|, |d.library| * weight)) }

  /** Bags stay below the limit until the rescan. */
  ghost predicate Bounded(h: Hand, want: Want, disk: Disk, weight: nat, limit: nat) {
    Stale(h.deck, disk) ==> BagLimit(h.deck, weight) <= limit
  }

  /** Enough is listed, before and after a rescan. */
  ghost predicate Enough(h: Hand, want: Want, disk: Disk) {
    && (disk.folder != {} ==> var k := |Candidates(disk.folder, want.exclude)|; if want.allow_duplicates then k >= 1 else k >= want.count)
    && (Stale(h.deck, disk) ==> var n := Available(h.deck, want.exclude); if want.allow_duplicates then n >= 1 else n >= want.count)
  }

  /** At the end of a full pass nothing can be on offer unless enough has been picked. */
  lemma OffersEnd(h: Hand, want: Want, disk: Disk)
    requires HandOk(h, want, disk) && Enough(h, want, disk) && h.deck.library != []
    requires Offers(h, want, disk) && h.deck.pos >= |h.deck.bag|
    ensures |h.picked| >= want.count
  {
    hide DeckOk;
    assert Rest(h, want, disk) && Ahead(h.deck) == {};
    var all := Candidates(Elements(h.deck.library), want.exclude);
    forall x | x in all ensures x in h.picked {
      assert Good(x, want, disk);
    }
    CardinalityMono(all, Elements(h.picked));
    ElementsSize(h.picked);
    if !Stale(h.deck, disk) {
      assert Elements(h.deck.library) == disk.folder;
    }
  }

  /** A fresh bag offers something. */
  lemma OffersStart(h: Hand, mid: Deck, want: Want, disk: Disk)
    requires HandOk(h, want, disk) && Enough(h, want, disk)
    requires DeckOk(mid) && mid.library == h.deck.library && mid.pos == 0 && mid.bag != []
    ensures Offers(h.(deck := mid), want, disk)
  {
    hide Offers, Rest, Ahead, Enough, Available, StrictlySorted, Stale;
    AllAhead(mid);
    if v :| v in mid.library && v !in disk.files {
      GoneAhead(h.(deck := mid), v, want, disk);
    } else if want.allow_duplicates {
      var x := SomeGood(h, mid, want, disk);
      GoodAhead(h.(deck := mid), x, want, disk);
    } else {
      AllOffered(h.(deck := mid), want, disk);
    }
  }

  lemma AllAhead(d: Deck)
    requires DeckOk(d) && d.pos == 0
    ensures forall x | x in d.library :: x in Ahead(d)
  {
    forall x | x in d.library ensures x in Ahead(d) {
      assert x in Elements(d.bag);
      var i :| 0 <= i < |d.bag| && d.bag[i] == x;
    }
  }

  lemma GoneAhead(h: Hand, v: string, want: Want, disk: Disk)
    requires v in Ahead(h.deck) && v !in disk.files
    ensures Offers(h, want, disk)
  {}

  lemma GoodAhead(h: Hand, x: string, want: Want, disk: Disk)
    requires x in Ahead(h.deck) && Good(x, want, disk) && want.allow_duplicates && forall y | y in h.deck.library :: y in disk.files
    ensures Offers(h, want, disk)
  {}

  lemma AllOffered(h: Hand, want: Want, disk: Disk)
    requires !want.allow_duplicates && forall y | y in h.deck.library :: y in disk.files && y in Ahead(h.deck)
    ensures Offers(h, want, disk)
  {}

  lemma SomeGood(h: Hand, mid: Deck, want: Want, disk: Disk) returns (x: string)
    requires HandOk(h, want, disk) && Enough(h, want, disk) && want.allow_duplicates
    requires DeckOk(mid) && mid.library == h.deck.library && mid.bag != []
    requires forall y | y in mid.library :: y in disk.files
    ensures x in mid.library && Good(x, want, disk)
  {
    hide Picks, StrictlySorted;
    var all := Candidates(Elements(mid.library), want.exclude);
    InBag(mid, 0);
    if !Stale(h.deck, disk) {
      assert Elements(mid.library) == disk.folder;
      assert mid.bag[0] in disk.folder;
    }
    assert all != {};
    x :| x in all;
  }

  /** A draw that is neither a pick nor followed by a rescan keeps the offer. */
  lemma OffersKept(h: Hand, want: Want, disk: Disk, attempts: nat)
    requires Offers(h, want, disk) && h.deck.pos < |h.deck.bag|
    requires var wall := h.deck.bag[h.deck.pos];
      wall in disk.files && (Bad(wall, want, disk) || (!want.allow_duplicates && wall in h.picked))
    ensures Offers(Hand(h.deck.(pos := h.deck.pos + 1), h.picked, attempts), want, disk)
  {
    var d, d' := h.deck, h.deck.(pos := h.deck.pos + 1);
    if i :| d.pos <= i < |d.bag| && d.bag[i] !in disk.files {
      assert i != d.pos;
      assert d'.bag[i] !in disk.files;
    } else if want.allow_duplicates {
      var i :| d.pos <= i < |d.bag| && Good(d.bag[i], want, disk);
      assert d'.pos <= i && Good(d'.bag[i], want, disk);
    } else {
      forall x | x in d'.library && Good(x, want, disk) ensures x in h.picked || x in Ahead(d') {
        if x !in h.picked {
          var i :| d.pos <= i < |d.bag| && d.bag[i] == x;
          assert d'.pos <= i && d'.bag[i] == x;
        }
      }
    }
  }

  // ---- every round makes progress ----

  datatype Measure = Measure(to_pick: nat, stale: nat, attempts: nat, turns: nat, ahead: nat)

  ghost function MeasureOf(h: Hand, want: Want, disk: Disk, limit: nat): Measure {
    Measure(Monus(want.count, |h.picked|), StaleFactor(Stale(h.deck, disk)), AttemptsLeft(h, Stale(h.deck, disk), limit),
            TurnFactor(Offers(h, want, disk)), Monus(|h.deck.bag|, h.deck.pos))
  }

  predicate Below(a: Measure, b: Measure) {
    || a.to_pick < b.to_pick
    || (a.to_pick == b.to_pick && (a.stale < b.stale
        || (a.stale == b.stale && (a.attempts < b.attempts
            || (a.attempts == b.attempts && (a.turns < b.turns
                || (a.turns == b.turns && a.ahead < b.ahead)))))))
  }

  ghost predicate Going(h: Hand, want: Want, disk: Disk, weight: nat, limit: nat) {
    HandOk(h, want, disk) && Enough(h, want, disk) && Bounded(h, want, disk, weight, limit)
  }

  lemma StillGoing(h: Hand, mid: Deck, h': Hand, want: Want, disk: Disk, weight: nat, limit: nat)
    requires Going(h, want, disk, weight, limit) && weight >= 1 && Round(h, mid, h', want, disk, weight)
    ensures Going(h', want, disk, weight, limit)
  {
    hide HandOk, Rebuilt, Rescanned, Picks, Good, Candidates;
    RoundOk(h, mid, h', want, disk, weight);
    HandIsOk(h, want, disk);
    TurnedOk(h.deck, mid, disk, weight);
    if Stale(h'.deck, disk) {
      NotRescanned(h, mid, h', want, disk, weight);
    }
  }

  lemma HandIsOk(h: Hand, want: Want, disk: Disk)
    requires HandOk(h, want, disk)
    ensures DeckOk(h.deck) && DiskOk(disk)
  {}

  lemma NotRescanned(h: Hand, mid: Deck, h': Hand, want: Want, disk: Disk, weight: nat)
    requires HandOk(h, want, disk) && weight >= 1 && Round(h, mid, h', want, disk, weight) && Stale(h'.deck, disk)
    ensures h'.deck == mid.(pos := mid.pos + 1) && h'.attempts == h.attempts + 1 && Stale(h.deck, disk) && mid.library == h.deck.library
    ensures Bad(mid.bag[mid.pos], want, disk) ==> h.attempts + 1 <= Threshold(|mid.bag|)
  {
    hide Rebuilt, Rescanned, Threshold;
    TurnedOk(h.deck, mid, disk, weight);
    if Bad(mid.bag[mid.pos], want, disk) && h.attempts + 1 > Threshold(|mid.bag|) {
      RescannedDeck(mid.(pos := mid.pos + 1), h'.deck, disk, weight);
    }
  }

  /** The case without a pick before any rescan, or after it: the measure goes down. */
  lemma RoundDecreases(h: Hand, mid: Deck, h': Hand, want: Want, disk: Disk, weight: nat, limit: nat)
    requires Going(h, want, disk, weight, limit) && weight >= 1 && Round(h, mid, h', want, disk, weight) && |h.picked| < want.count
    ensures Below(MeasureOf(h', want, disk, limit), MeasureOf(h, want, disk, limit))
  {
    hide HandOk, Rebuilt, Rescanned, Picks, Candidates, Offers, Enough, Bounded, Drawn, Threshold, Stale;
    RoundOk(h, mid, h', want, disk, weight);
    if h'.picked == h.picked {
      if Stale(h'.deck, disk) {
        NotRescanned(h, mid, h', want, disk, weight);
        AttemptsBound(h, mid, h', want, disk, weight, limit);
        if h.attempts > limit {
          OffersAfter(h, mid, h', want, disk, weight);
        }
      } else if !Stale(h.deck, disk) {
        FreshRound(h, mid, h', want, disk, weight);
      }
    }
  }

  /** Past the limit, a draw before the rescan cannot be a bad one. */
  lemma AttemptsBound(h: Hand, mid: Deck, h': Hand, want: Want, disk: Disk, weight: nat, limit: nat)
    requires Going(h, want, disk, weight, limit) && weight >= 1 && Round(h, mid, h', want, disk, weight) && Stale(h'.deck, disk)
    ensures h.attempts > limit ==> !Bad(mid.bag[mid.pos], want, disk)
  {
    hide Rebuilt, Rescanned, Picks, Enough, DeckOk;
    HandIsOk(h, want, disk);
    NotRescanned(h, mid, h', want, disk, weight);
    TurnedOk(h.deck, mid, disk, weight);
  }

  /** A round past the limit, or in a deck that lists the directory: if it turned the bag over,
      nothing was on offer before, and something is afterwards. */
  lemma OffersAfter(h: Hand, mid: Deck, h': Hand, want: Want, disk: Disk, weight: nat)
    requires HandOk(h, want, disk) && Enough(h, want, disk) && weight >= 1 && |h.picked| < want.count
    requires Round(h, mid, h', want, disk, weight) && h'.picked == h.picked
    requires h'.deck == mid.(pos := mid.pos + 1) && mid.bag[mid.pos] in disk.files
    ensures h.deck.pos >= |h.deck.bag| ==> !Offers(h, want, disk) && Offers(h', want, disk)
    ensures h.deck.pos < |h.deck.bag| ==> h'.deck.bag == h.deck.bag && h'.deck.pos == h.deck.pos + 1
    ensures h.deck.pos < |h.deck.bag| && Offers(h, want, disk) ==> Offers(h', want, disk)
  {
    hide Rebuilt, Rescanned, Enough, Offers, Threshold, Picks, DeckOk;
    NotPicked(h, mid, h', want, disk, weight);
    PlainRound(h, mid, want, disk, weight);
    SameOffers(h', Hand(mid.(pos := mid.pos + 1), h.picked, h.attempts + 1), want, disk);
  }

  lemma RebuiltPos(d: Deck, mid: Deck, disk: Disk, weight: nat)
    requires Turned(d, mid, disk, weight) && d.pos >= |d.bag|
    ensures mid.pos == 0
  {}

  lemma NotPicked(h: Hand, mid: Deck, h': Hand, want: Want, disk: Disk, weight: nat)
    requires Round(h, mid, h', want, disk, weight) && h'.picked == h.picked
    ensures Bad(mid.bag[mid.pos], want, disk) || (!want.allow_duplicates && mid.bag[mid.pos] in h.picked)
  {
    hide Turned, Rescanned;
    assert |h.picked + [mid.bag[mid.pos]]| == |h.picked| + 1;
  }

  /** In a deck that lists the directory a rescan changes nothing but the attempts. */
  lemma FreshRound(h: Hand, mid: Deck, h': Hand, want: Want, disk: Disk, weight: nat)
    requires HandOk(h, want, disk) && Enough(h, want, disk) && weight >= 1 && |h.picked| < want.count
    requires Round(h, mid, h', want, disk, weight) && h'.picked == h.picked && !Stale(h.deck, disk)
    ensures h.deck.pos >= |h.deck.bag| ==> !Offers(h, want, disk) && Offers(h', want, disk)
    ensures h.deck.pos < |h.deck.bag| ==> h'.deck.bag == h.deck.bag && h'.deck.pos == h.deck.pos + 1
    ensures h.deck.pos < |h.deck.bag| && Offers(h, want, disk) ==> Offers(h', want, disk)
  {
    hide Rebuilt, Rescanned, Enough, Offers, Threshold, Picks, StrictlySorted;
    HandIsOk(h, want, disk);
    TurnedOk(h.deck, mid, disk, weight);
    InBag(mid, mid.pos);
    var next := mid.(pos := mid.pos + 1);
    if Bad(mid.bag[mid.pos], want, disk) && h.attempts + 1 > Threshold(|mid.bag|) {
      RescanOfFresh(next, h'.deck, disk, weight);
    }
    var k := Hand(next, h.picked, h.attempts + 1);
    assert h'.deck.bag == next.bag && h'.deck.library == next.library && h'.deck.pos == next.pos;
    SameOffers(h', k, want, disk);
    PlainRound(h, mid, want, disk, weight);
  }

  lemma SameOffers(h: Hand, k: Hand, want: Want, disk: Disk)
    requires h.deck.bag == k.deck.bag && h.deck.library == k.deck.library && h.deck.pos == k.deck.pos && h.picked == k.picked
    ensures Offers(h, want, disk) == Offers(k, want, disk)
  {}

  lemma PlainRound(h: Hand, mid: Deck, want: Want, disk: Disk, weight: nat)
    requires HandOk(h, want, disk) && Enough(h, want, disk) && weight >= 1 && |h.picked| < want.count
    requires Turned(h.deck, mid, disk, weight) && mid.pos < |mid.bag| && mid.bag[mid.pos] in disk.files
    requires Bad(mid.bag[mid.pos], want, disk) || (!want.allow_duplicates && mid.bag[mid.pos] in h.picked)
    ensures var k := Hand(mid.(pos := mid.pos + 1), h.picked, h.attempts + 1);
      && (h.deck.pos >= |h.deck.bag| ==> !Offers(h, want, disk) && Offers(k, want, disk))
      && (h.deck.pos < |h.deck.bag| && Offers(h, want, disk) ==> Offers(k, want, disk))
  {
    hide Rebuilt, Enough, Offers, Picks, StrictlySorted;
    HandIsOk(h, want, disk);
    TurnedOk(h.deck, mid, disk, weight);
    var g := h.(deck := mid);
    if h.deck.pos >= |h.deck.bag| {
      RebuiltPos(h.deck, mid, disk, weight);
      OffersStart(h, mid, want, disk);
      InBag(mid, mid.pos);
      if Offers(h, want, disk) {
        OffersEnd(h, want, disk);
      }
    }
    if Offers(g, want, disk) {
      OffersKept(g, want, disk, h.attempts + 1);
    }
  }

  // ---- runs that never end ----

  /** The deck cannot be drawn from at all: nothing is listed, or nothing but the excluded wallpaper,
      or a rescan will find the directory empty. */
  predicate DrawFails(d: Deck, count: nat, exclude: Option<string>, disk: Disk) {
    d.library == [] || (count > 0 && (Available(d, exclude) == 0 || disk.folder == {}))
  }

  /** The directory will never yield what is asked for. */
  ghost predicate Stuck(h: Hand, want: Want, disk: Disk) {
    && HandOk(h, want, disk) && h.deck.library != [] && disk.folder != {} && want.count > 0
    && var k := |Candidates(disk.folder, want.exclude)|; if want.allow_duplicates then k == 0 else k < want.count
  }

  lemma {:induction false} DistinctSize(s: seq<string>, within: set<string>)
    requires forall i, j | 0 <= i < j < |s| :: s[i] != s[j]
    requires forall x | x in s :: x in within
    ensures |s| <= |within|
  {
    if s != [] {
      var init, last := s[..|s| - 1], s[|s| - 1];
      assert last in s;
      DistinctSize(init, within - {last});
    }
  }

  lemma StuckShort(h: Hand, want: Want, disk: Disk)
    requires Stuck(h, want, disk)
    ensures |h.picked| < want.count
  {
    var c := Candidates(disk.folder, want.exclude);
    assert h.picked != [] ==> h.picked[0] in c;
    if !want.allow_duplicates {
      DistinctSize(h.picked, c);
    }
  }

  lemma StuckStays(h: Hand, mid: Deck, h': Hand, want: Want, disk: Disk, weight: nat)
    requires Stuck(h, want, disk) && weight >= 1 && Round(h, mid, h', want, disk, weight)
    ensures Stuck(h', want, disk)
  {
    hide HandOk, Round, Candidates;
    RoundOk(h, mid, h', want, disk, weight);
  }

  /** Turning the bag over never leaves it empty, so the loop's error is not reached. */
  lemma StuckGoesOn(h: Hand, mid: Deck, want: Want, disk: Disk, weight: nat)
    requires Stuck(h, want, disk) && weight >= 1 && Turned(h.deck, mid, disk, weight)
    ensures mid.pos < |mid.bag|
  {
    TurnedOk(h.deck, mid, disk, weight);
    assert mid.library[0] in Elements(mid.bag);
  }

  ghost predicate DrawRun(hands: seq<Hand>, mids: seq<Deck>, want: Want, disk: Disk, weight: nat) {
    && |hands| == |mids| + 1
    && forall i | 0 <= i < |mids| :: Round(hands[i], mids[i], hands[i + 1], want, disk, weight)
  }

  /** The rounds that `bag_next_n` runs first: nothing picked, and repeats allowed exactly when too
      few wallpapers are listed. */
  function WantOf(d: Deck, count: nat, exclude: Option<string>): Want { Want(count, exclude, Available(d, exclude) < count) }

  /** If drawing does not fail and does not settle, then it never ends: however the bags are
      shuffled, after every number of rounds the picks are still short and the next round can run. */
  lemma {:induction false} DrawNeverEnds(d: Deck, count: nat, exclude: Option<string>, hands: seq<Hand>, mids: seq<Deck>, disk: Disk, weight: nat, i: nat)
    requires DeckOk(d) && Listed(d, disk) && weight >= 1 && !DrawFails(d, count, exclude, disk) && !Settles(d, count, exclude, disk)
    requires DrawRun(hands, mids, WantOf(d, count, exclude), disk, weight) && hands[0] == Hand(d, [], 0) && i <= |mids|
    ensures Stuck(hands[i], WantOf(d, count, exclude), disk)
    ensures |hands[i].picked| < count
    ensures forall mid | Turned(hands[i].deck, mid, disk, weight) :: mid.pos < |mid.bag|
  {
    hide Round, Turned;
    if i == 0 {
      StuckStart(d, count, exclude, disk);
    } else {
      DrawNeverEnds(d, count, exclude, hands, mids, disk, weight, i - 1);
      StuckStays(hands[i - 1], mids[i - 1], hands[i], WantOf(d, count, exclude), disk, weight);
    }
    StuckShort(hands[i], WantOf(d, count, exclude), disk);
    forall mid | Turned(hands[i].deck, mid, disk, weight) ensures mid.pos < |mid.bag| {
      StuckGoesOn(hands[i], mid, WantOf(d, count, exclude), disk, weight);
    }
  }

  lemma StuckStart(d: Deck, count: nat, exclude: Option<string>, disk: Disk)
    requires DeckOk(d) && Listed(d, disk) && !DrawFails(d, count, exclude, disk) && !Settles(d, count, exclude, disk)
    ensures Stuck(Hand(d, [], 0), WantOf(d, count, exclude), disk)
  {
    hide DeckOk, Listed, Candidates;
  }

  /** Two wallpapers are listed, one of them has vanished, and two are asked for: the file that is
      left never suffices, because repeats are not allowed. */
  lemma VanishedFileSpins()
    ensures var d, disk := Deck(["a", "b"], [], ["b", "a"], 0), Disk({"a"}, {"a"});
      DeckOk(d) && Listed(d, disk) && !DrawFails(d, 2, None, disk) && !Settles(d, 2, None, disk)
  {
    var d, disk := Deck(["a", "b"], [], ["b", "a"], 0), Disk({"a"}, {"a"});
    assert d.bag[0] == "b" && d.bag[1] == "a" && d.library[0] == "a" && d.library[1] == "b";
    assert Elements(d.bag) == {"a", "b"} && Elements(d.library) == {"a", "b"};
    assert |{"a", "b"}| == 2 && |{"a"}| == 1;
  }

  lemma GoingStart(d: Deck, count: nat, exclude: Option<string>, disk: Disk, weight: nat, limit: nat)
    requires DeckOk(d) && Listed(d, disk) && Settles(d, count, exclude, disk) && (count > 0 ==> Available(d, exclude) > 0)
    requires limit == BagLimit(d, weight)
    ensures Going(Hand(d, [], 0), WantOf(d, count, exclude), disk, weight, limit)
  {
    hide BagLimit, Candidates;
  }

  // ---- draws within one bag ----

  /** What drawing takes from the rest of the bag, if the bag holds enough. */
  function Scan(bag: seq<string>, pos: nat, picked: seq<string>, want: Want, disk: Disk): (r: Option<(seq<string>, nat)>)
    ensures r.Some? && |picked| <= want.count ==> |r.value.0| == want.count
    ensures r.Some? ==> pos <= r.value.1
    decreases |bag| - pos
  {
    if |picked| >= want.count then Some((picked, pos))
    else if pos >= |bag| then None
    else if Bad(bag[pos], want, disk) || (!want.allow_duplicates && bag[pos] in picked) then Scan(bag, pos + 1, picked, want, disk)
    else Scan(bag, pos + 1, picked + [bag[pos]], want, disk)
  }

  /** While the bag suffices there is neither a rebuild nor a rescan: only the position moves. */
  lemma ScanRound(h: Hand, mid: Deck, h': Hand, want: Want, disk: Disk, weight: nat)
    requires Round(h, mid, h', want, disk, weight) && |h.picked| < want.count && h.attempts <= h.deck.pos
    requires Scan(h.deck.bag, h.deck.pos, h.picked, want, disk).Some?
    ensures mid == h.deck && h'.deck == h.deck.(pos := h.deck.pos + 1) && h'.attempts <= h'.deck.pos
    ensures Scan(h'.deck.bag, h'.deck.pos, h'.picked, want, disk) == Scan(h.deck.bag, h.deck.pos, h.picked, want, disk)
  {
    hide Rebuilt, Rescanned;
  }

  lemma ScanDone(bag: seq<string>, pos: nat, picked: seq<string>, want: Want, disk: Disk)
    requires |picked| >= want.count
    ensures Scan(bag, pos, picked, want, disk) == Some((picked, pos))
  {}

  lemma RoundSteps(h: Hand, mid: Deck, h': Hand, want: Want, disk: Disk, weight: nat, limit: nat)
    requires Going(h, want, disk, weight, limit) && weight >= 1 && Round(h, mid, h', want, disk, weight)
    ensures h'.deck.library == h.deck.library || h'.deck.library == Sorted(disk.folder)
    ensures |h'.picked| <= |h.picked| + 1
  {
    hide HandOk, Round;
    RoundOk(h, mid, h', want, disk, weight);
  }

  lemma RoundKeepsFavorites(h: Hand, mid: Deck, h': Hand, want: Want, disk: Disk, weight: nat, limit: nat)
    requires Going(h, want, disk, weight, limit) && weight >= 1 && Round(h, mid, h', want, disk, weight)
    ensures SameFavorites(h.deck, h'.deck, disk)
  {
    hide HandOk, Round;
    RoundFavorites(h, mid, h', want, disk, weight);
  }

  /** What a hand promises about its picks. */
  lemma GoingGives(h: Hand, want: Want, disk: Disk, weight: nat, limit: nat)
    requires Going(h, want, disk, weight, limit)
    ensures DeckOk(h.deck) && Listed(h.deck, disk)
    ensures forall x | x in h.picked :: x in disk.folder && x in h.deck.library && want.exclude != Some(x)
    ensures !want.allow_duplicates ==> forall i, j | 0 <= i < j < |h.picked| :: h.picked[i] != h.picked[j]
  {}

  // ---- ready to draw ----

  /** Drawing ends, in success or failure. */
  predicate Ends(d: Deck, count: nat, exclude: Option<string>, disk: Disk) {
    DrawFails(d, count, exclude, disk) || Settles(d, count, exclude, disk)
  }

  /** No draw without an exclusion can be made: nothing is listed, or nothing is on disk. */
  predicate CannotDraw(d: Deck, disk: Disk) { d.library == [] || disk.folder == {} }

  /** Some wallpaper is the only one listed or on disk. */
  predicate Scarce(d: Deck, disk: Disk) { |d.library| <= 1 || |disk.folder| <= 1 }

  lemma FailsEarlier(d: Deck, d': Deck, count: nat, disk: Disk)
    requires DrawFails(d', count, None, disk) && (d'.library == d.library || d'.library == Sorted(disk.folder))
    ensures CannotDraw(d, disk)
  {
    hide Sorted;
    if d'.library != [] {
      assert d'.library[0] in Elements(d'.library);
    } else if d'.library == Sorted(disk.folder) {
      assert Elements(d'.library) == disk.folder;
    }
  }

  lemma CannotEarlier(d: Deck, d': Deck, disk: Disk)
    requires CannotDraw(d', disk) && (d'.library == d.library || d'.library == Sorted(disk.folder))
    ensures CannotDraw(d, disk)
  {
    hide Sorted;
    if d'.library == [] && d'.library == Sorted(disk.folder) {
      assert Elements(d'.library) == disk.folder;
    }
  }

  lemma FailsScarce(d: Deck, d': Deck, x: string, disk: Disk)
    requires DrawFails(d', 1, Some(x), disk) && StrictlySorted(d.library) && (d'.library == d.library || d'.library == Sorted(disk.folder))
    ensures Scarce(d, disk)
  {
    hide Sorted, Less;
    assert Elements(d'.library) <= {x} || disk.folder == {} by {
      assert Available(d', Some(x)) == 0 ==> Elements(d'.library) - {x} == {};
      assert d'.library == [] ==> Elements(d'.library) == {};
    }
    SortedDistinct(d.library);
    assert |d.library| >= 2 ==> d.library[0] in Elements(d.library) && d.library[1] in Elements(d.library);
    if d'.library != d.library || disk.folder == {} {
      CardinalityMono(disk.folder, {x});
    }
  }

  lemma CannotIsScarce(d: Deck, disk: Disk)
    requires CannotDraw(d, disk)
    ensures Scarce(d, disk)
  {}

  /** It goes on ending after a draw. */
  lemma EndsStays(d: Deck, d': Deck, count: nat, exclude: Option<string>, disk: Disk)
    requires Ends(d, count, exclude, disk) && (d'.library == d.library || d'.library == Sorted(disk.folder))
    ensures Ends(d', count, exclude, disk)
  {
    hide Ends;
    if d'.library == d.library {
      EndsAlike(d, d', count, exclude, disk);
    } else {
      EndsListed(d', count, exclude, disk);
    }
  }

  lemma EndsAlike(d: Deck, d': Deck, count: nat, exclude: Option<string>, disk: Disk)
    requires Ends(d, count, exclude, disk) && d'.library == d.library
    ensures Ends(d', count, exclude, disk)
  {
    hide Candidates;
  }

  /** Where the directory is listed, drawing always ends. */
  lemma EndsListed(d: Deck, count: nat, exclude: Option<string>, disk: Disk)
    requires d.library == Sorted(disk.folder)
    ensures Ends(d, count, exclude, disk)
  {
    hide Candidates, Sorted;
    assert Elements(d.library) == disk.folder;
  }

  /** Drawing a single wallpaper always ends. */
  lemma OneEnds(d: Deck, disk: Disk)
    ensures Ends(d, 1, None, disk)
  {
    if d.library != [] {
      assert d.library[0] in Elements(d.library);
    }
  }

  /** Drawing one that differs from a given wallpaper ends unless only that one is left on disk and
      another, vanished one is still listed. */
  predicate OtherEnds(d: Deck, disk: Disk) { |disk.folder| != 1 || Elements(d.library) <= disk.folder }

  lemma OtherEndsStays(d: Deck, d': Deck, disk: Disk)
    requires OtherEnds(d, disk) && (d'.library == d.library || d'.library == Sorted(disk.folder))
    ensures OtherEnds(d', disk)
  {}

  lemma OtherEndsIff(d: Deck, disk: Disk)
    ensures OtherEnds(d, disk) <==> forall x :: Ends(d, 1, Some(x), disk)
  {
    if OtherEnds(d, disk) {
      forall x ensures Ends(d, 1, Some(x), disk) {
        assert disk.folder - {x} == {} ==> disk.folder == {} || disk.folder == {x};
        assert Elements(d.library) <= {x} ==> Elements(d.library) - {x} == {};
      }
    } else {
      var x :| x in disk.folder;
      assert disk.folder - {x} == {} by {
        assert |disk.folder - {x}| == 0;
      }
      var y :| y in Elements(d.library) && y !in disk.folder;
      assert y in Elements(d.library) - {x};
      assert d.library != [];
      assert !Ends(d, 1, Some(x), disk);
    }
  }

  /** The exception: the only wallpaper is quarantined while another, vanished one is listed. */
  lemma QuarantineOfLastSpins()
    ensures var d, disk := Deck(["a", "b"], [], ["b", "a"], 0), Disk({"a"}, {"a"}); !OtherEnds(d, disk)
  {
    assert "b" in Elements(["a", "b"]) by { assert ["a", "b"][1] == "b"; }
  }
}
