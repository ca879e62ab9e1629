/** Which draws a rollback can take back: it restores position and nothing else, so what matters is
    whether the bag has been rebuilt or rescanned on the way. */
module RollbackRuns {
  import opened Prelude
  import opened StringOrder
  import opened Decks
  import opened Draws

  /** The deck after a rollback: the old position, if the bag has its old length. */
  function AfterRollback(d: Deck, pos_before: nat, bag_len_before: nat): Deck {
    if |d.bag| == bag_len_before then d.(pos := Min(pos_before, |d.bag|)) else d
  }

  /** A position beyond the bag means the same as its end. */
  function Clipped(d: Deck): Deck { d.(pos := Min(d.pos, |d.bag|)) }

  /** A rollback to `d` restores it. */
  predicate TakenBack(d: Deck, now: Deck) { AfterRollback(now, d.pos, |d.bag|) == Clipped(d) }

  /** A draw of `count` wallpapers: a complete run of the loop, with what it picked and the deck it left. */
  ghost predicate DrawsTo(d: Deck, count: nat, exclude: Option<string>, row: seq<string>, d': Deck, disk: Disk, weight: nat) {
    !DrawFails(d, count, exclude, disk) && exists hands, mids ::
      CompleteRun(d, WantOf(d, count, exclude), hands, mids, disk, weight) && Leaves(hands, mids, row, d')
  }

  predicate Leaves(hands: seq<Hand>, mids: seq<Deck>, row: seq<string>, d': Deck) {
    |hands| == |mids| + 1 && hands[|mids|].picked == row && hands[|mids|].deck == d'
  }

  /** A run of the drawing loop from its start to its end. */
  ghost predicate CompleteRun(d: Deck, want: Want, hands: seq<Hand>, mids: seq<Deck>, disk: Disk, weight: nat) {
    && DrawRun(hands, mids, want, disk, weight) && hands[0] == Hand(d, [], 0)
    && (forall i | 0 <= i < |mids| :: |hands[i].picked| < want.count)
    && |hands[|mids|].picked| >= want.count
  }

  // ---- the loop as it goes ----

  /** A run from the start of a draw to a hand. */
  ghost predicate RunTo(d: Deck, want: Want, hands: seq<Hand>, mids: seq<Deck>, h: Hand, disk: Disk, weight: nat) {
    && DrawRun(hands, mids, want, disk, weight) && hands[0] == Hand(d, [], 0) && hands[|mids|] == h
    && forall i | 0 <= i < |mids| :: |hands[i].picked| < want.count
  }

  lemma RunToStart(d: Deck, want: Want, disk: Disk, weight: nat)
    ensures RunTo(d, want, [Hand(d, [], 0)], [], Hand(d, [], 0), disk, weight)
  {}

  lemma RunToNext(d: Deck, want: Want, hands: seq<Hand>, mids: seq<Deck>, h: Hand, mid: Deck, h': Hand, disk: Disk, weight: nat)
    requires RunTo(d, want, hands, mids, h, disk, weight) && Round(h, mid, h', want, disk, weight) && |h.picked| < want.count
    ensures RunTo(d, want, hands + [h'], mids + [mid], h', disk, weight)
  {
    hide Round;
    var hands', mids' := hands + [h'], mids + [mid];
    forall i | 0 <= i < |mids'| ensures Round(hands'[i], mids'[i], hands'[i + 1], want, disk, weight) && |hands'[i].picked| < want.count {
      assert i < |mids| ==> hands'[i] == hands[i] && mids'[i] == mids[i] && hands'[i + 1] == hands[i + 1];
    }
  }

  lemma RunToDraw(d: Deck, count: nat, exclude: Option<string>, hands: seq<Hand>, mids: seq<Deck>, h: Hand, disk: Disk, weight: nat)
    requires RunTo(d, WantOf(d, count, exclude), hands, mids, h, disk, weight) && |h.picked| >= count && !DrawFails(d, count, exclude, disk)
    ensures DrawsTo(d, count, exclude, h.picked, h.deck, disk, weight)
  {
    hide Round, DrawFails;
    assert CompleteRun(d, WantOf(d, count, exclude), hands, mids, disk, weight) && Leaves(hands, mids, h.picked, h.deck);
  }

  // ---- bags that suffice ----

  /** Where the bag suffices, a run leaves everything but the position alone. */
  lemma {:induction false} SufficientRun(d: Deck, want: Want, hands: seq<Hand>, mids: seq<Deck>, disk: Disk, weight: nat, i: nat)
    requires CompleteRun(d, want, hands, mids, disk, weight) && i <= |mids|
    requires Scan(d.bag, d.pos, [], want, disk).Some?
    ensures hands[i].deck == d.(pos := hands[i].deck.pos) && hands[i].attempts <= hands[i].deck.pos
    ensures Scan(hands[i].deck.bag, hands[i].deck.pos, hands[i].picked, want, disk) == Scan(d.bag, d.pos, [], want, disk)
    ensures i < |mids| ==> hands[i].deck.pos < |d.bag|
  {
    hide Round;
    if i > 0 {
      SufficientRun(d, want, hands, mids, disk, weight, i - 1);
      ScanRound(hands[i - 1], mids[i - 1], hands[i], want, disk, weight);
    }
  }

  /** Where it does not, some hand of the run stands at the end of its bag. */
  lemma {:induction false} ShortRunTurns(hands: seq<Hand>, mids: seq<Deck>, want: Want, disk: Disk, weight: nat, i: nat)
    requires DrawRun(hands, mids, want, disk, weight) && i <= |mids| && hands[i].attempts <= hands[i].deck.pos
    requires forall k | 0 <= k < |mids| :: |hands[k].picked| < want.count
    requires |hands[|mids|].picked| >= want.count
    requires Scan(hands[i].deck.bag, hands[i].deck.pos, hands[i].picked, want, disk).None?
    ensures exists k :: i <= k < |mids| && hands[k].deck.pos >= |hands[k].deck.bag|
    decreases |mids| - i
  {
    hide Rebuilt, Rescanned;
    if hands[i].deck.pos < |hands[i].deck.bag| {
      NextOfShort(hands[i], mids[i], hands[i + 1], want, disk, weight);
      ShortRunTurns(hands, mids, want, disk, weight, i + 1);
    }
  }

  /** A round within a bag that does not suffice. */
  lemma NextOfShort(h: Hand, mid: Deck, h': Hand, want: Want, disk: Disk, weight: nat)
    requires Round(h, mid, h', want, disk, weight) && h.deck.pos < |h.deck.bag| && h.attempts <= h.deck.pos && |h.picked| < want.count
    requires Scan(h.deck.bag, h.deck.pos, h.picked, want, disk).None?
    ensures h'.deck == h.deck.(pos := h.deck.pos + 1) && h'.attempts <= h'.deck.pos
    ensures Scan(h'.deck.bag, h'.deck.pos, h'.picked, want, disk).None?
  {
    hide Rebuilt, Rescanned;
  }

  /** A complete run never reaches the end of a bag exactly when the bag sufficed before it. */
  lemma NoTurnIff(d: Deck, want: Want, hands: seq<Hand>, mids: seq<Deck>, disk: Disk, weight: nat)
    requires CompleteRun(d, want, hands, mids, disk, weight)
    ensures (forall k | 0 <= k < |mids| :: hands[k].deck.pos < |hands[k].deck.bag|) <==> Scan(d.bag, d.pos, [], want, disk).Some?
  {
    hide DrawRun;
    RunStartsAt(d, want, hands, mids, disk, weight);
    if Scan(d.bag, d.pos, [], want, disk).Some? {
      forall k | 0 <= k < |mids| ensures hands[k].deck.pos < |hands[k].deck.bag| {
        SufficientRun(d, want, hands, mids, disk, weight, k);
      }
    } else {
      ShortRunTurns(hands, mids, want, disk, weight, 0);
    }
  }

  // ---- the one bag that a rebuild cannot change ----

  /** A single wallpaper is listed, it is on disk, and the bag has the length a rebuild gives it. */
  predicate OneForAll(d: Deck, disk: Disk, weight: nat) {
    |d.library| == 1 && d.library[0] in disk.files && |d.bag| == if d.library[0] in d.favorites then weight else 1
  }

  lemma SingleBag(d: Deck, mid: Deck, disk: Disk, weight: nat)
    requires DeckOk(d) && |d.library| == 1 && weight >= 1 && Rebuilt(d, mid, disk, weight)
    ensures mid.library == d.library && |mid.bag| == Multiplicity(d, disk, weight, d.library[0])
    ensures forall x | x in mid.bag :: x == d.library[0]
  {
    RebuiltBag(d, mid, disk, weight);
    assert d.library == [d.library[0]];
    forall x | x in mid.bag ensures x == d.library[0] {
      assert x in Elements(mid.bag);
    }
    SameCount(mid.bag, d.library[0]);
  }

  lemma {:induction false} SameCount(s: seq<string>, a: string)
    requires forall x | x in s :: x == a
    ensures multiset(s)[a] == |s|
  {
    if s != [] {
      var init := s[..|s| - 1];
      assert s == init + [s[|s| - 1]];
      assert s[|s| - 1] in s && forall x | x in init :: x in s;
      SameCount(init, a);
    }
  }

  lemma {:induction false} SameBags(s: seq<string>, t: seq<string>, a: string)
    requires |s| == |t| && (forall x | x in s :: x == a) && (forall x | x in t :: x == a)
    ensures s == t
  {
    forall i | 0 <= i < |s| ensures s[i] == t[i] {
      assert s[i] in s && t[i] in t;
    }
  }

  /** With that bag a rebuild changes nothing, and no draw is a bad one. */
  lemma OneForAllRound(d: Deck, h: Hand, mid: Deck, h': Hand, want: Want, disk: Disk, weight: nat)
    requires HandOk(h, want, disk) && weight >= 1 && Round(h, mid, h', want, disk, weight) && DeckOk(d)
    requires OneForAll(d, disk, weight) && want.exclude != Some(d.library[0])
    requires h.deck == d.(pos := h.deck.pos)
    ensures h'.deck == d.(pos := h'.deck.pos)
  {
    hide Rebuilt, Rescanned, Picks, Sanitized;
    var a := d.library[0];
    TurnedOk(h.deck, mid, disk, weight);
    InBag(mid, mid.pos);
    assert mid.library == [a];
    if h.deck.pos >= |h.deck.bag| {
      SingleBag(h.deck, mid, disk, weight);
      AllOne(d);
      SameBags(mid.bag, d.bag, a);
      FavoritesOfOne(h.deck, mid, disk, weight);
    }
  }

  lemma AllOne(d: Deck)
    requires DeckOk(d) && |d.library| == 1
    ensures forall x | x in d.bag :: x == d.library[0]
  {
    forall x | x in d.bag ensures x == d.library[0] {
      assert x in Elements(d.bag);
    }
  }

  lemma FavoritesOfOne(d: Deck, mid: Deck, disk: Disk, weight: nat)
    requires DeckOk(d) && DeckOk(mid) && |d.library| == 1 && d.library[0] in disk.files && Rebuilt(d, mid, disk, weight)
    ensures mid.favorites == d.favorites
  {
    hide Weighted;
    forall x | x in d.favorites ensures x == d.library[0] {
      assert x in Elements(d.favorites);
    }
    SortedUnique(mid.favorites, d.favorites);
  }

  lemma {:induction false} OneForAllRun(d: Deck, want: Want, hands: seq<Hand>, mids: seq<Deck>, disk: Disk, weight: nat, i: nat)
    requires CompleteRun(d, want, hands, mids, disk, weight) && i <= |mids|
    requires DeckOk(d) && Listed(d, disk) && weight >= 1 && OneForAll(d, disk, weight) && want.exclude != Some(d.library[0])
    ensures hands[i].deck == d.(pos := hands[i].deck.pos) && HandOk(hands[i], want, disk)
  {
    hide Round, OneForAll, DeckOk, Listed;
    if i > 0 {
      OneForAllRun(d, want, hands, mids, disk, weight, i - 1);
      OneForAllRound(d, hands[i - 1], mids[i - 1], hands[i], want, disk, weight);
      RoundOk(hands[i - 1], mids[i - 1], hands[i], want, disk, weight);
    }
  }

  // ---- runs that a rollback does not take back ----

  lemma {:induction false} SomeOrder(m: multiset<string>) returns (s: seq<string>)
    ensures multiset(s) == m
    decreases |m|
  {
    if m == multiset{} {
      s := [];
    } else {
      var x :| x in m;
      var rest := SomeOrder(m - multiset{x});
      s := rest + [x];
    }
  }

  /** Two different elements can be ordered otherwise than in a given bag. */
  lemma OtherOrder(m: multiset<string>, a: string, b: string, bag: seq<string>) returns (s: seq<string>)
    requires a != b && a in m && b in m
    ensures multiset(s) == m && s != bag
  {
    s := SomeOrder(m);
    if s == bag {
      assert a in multiset(s) && b in multiset(s);
      var i :| 0 <= i < |s| && s[i] == a;
      var j :| 0 <= j < |s| && s[j] == b;
      var t := s[i := b][j := a];
      Swapped(s, i, j);
      assert t[i] == b;
      s := t;
    }
  }

  lemma Swapped(s: seq<string>, i: nat, j: nat)
    requires i < |s| && j < |s| && i != j
    ensures multiset(s[i := s[j]][j := s[i]]) == multiset(s)
  {
    var once := s[i := s[j]];
    assert multiset(once) == multiset(s) - multiset{s[i]} + multiset{s[j]};
    assert multiset(once[j := s[i]]) == multiset(once) - multiset{once[j]} + multiset{s[i]};
  }

  /** A rebuild that gives another bag than the one before the call. */
  lemma OtherBag(d: Deck, now: Deck, disk: Disk, weight: nat) returns (mid: Deck)
    requires DeckOk(d) && DeckOk(now) && now.library == d.library && d.library != [] && weight >= 1
    requires (|d.library| >= 2 || d.library[0] in disk.files) && SameFavorites(d, now, disk)
    requires !OneForAll(d, disk, weight)
    ensures Rebuilt(now, mid, disk, weight) && mid.bag != d.bag
  {
    hide Sanitized, StrictlySorted;
    var favorites := Sanitized(now.favorites, now.library, disk.files);
    var m := Weighted(now.library, Elements(favorites), weight);
    var bag;
    if |d.library| >= 2 {
      TwoListed(now, Elements(favorites), weight);
      bag := OtherOrder(m, d.library[0], d.library[1], d.bag);
    } else {
      bag := SomeOrder(m);
    }
    mid := Deck(now.library, favorites, bag, 0);
    if |d.library| == 1 {
      SingleBag(now, mid, disk, weight);
    }
  }

  /** Any rebuild at all. */
  lemma AnyBag(now: Deck, disk: Disk, weight: nat) returns (mid: Deck)
    ensures Rebuilt(now, mid, disk, weight)
  {
    var favorites := Sanitized(now.favorites, now.library, disk.files);
    var bag := SomeOrder(Weighted(now.library, Elements(favorites), weight));
    mid := Deck(now.library, favorites, bag, 0);
  }

  lemma TwoListed(d: Deck, favorites: set<string>, weight: nat)
    requires DeckOk(d) && |d.library| >= 2 && weight >= 1
    ensures d.library[0] != d.library[1]
    ensures d.library[0] in Weighted(d.library, favorites, weight) && d.library[1] in Weighted(d.library, favorites, weight)
  {
    SortedDistinct(d.library);
    WeightedIs(d.library, favorites, weight, d.library[0]);
    WeightedIs(d.library, favorites, weight, d.library[1]);
  }

  /** Lists that a rollback does not bring back. */
  predicate Changed(d: Deck, now: Deck) { now.library != d.library || now.bag != d.bag }

  /** The only listed wallpaper has vanished: nothing can be picked before a rescan changes the library. */
  predicate Gone(d: Deck, now: Deck, disk: Disk) { |d.library| == 1 && d.library[0] !in disk.files && now.library == d.library }

  /** Still within a bag that does not suffice. */
  ghost predicate Within(d: Deck, h: Hand, want: Want, disk: Disk) {
    h.deck == d.(pos := h.deck.pos) && h.attempts <= h.deck.pos && Scan(h.deck.bag, h.deck.pos, h.picked, want, disk).None?
  }

  /** A hand on the way to lists that a rollback does not bring back. */
  ghost predicate OnTheWay(d: Deck, h: Hand, want: Want, disk: Disk) {
    && (h.deck.library == d.library || h.deck.library == Sorted(disk.folder)) && SameFavorites(d, h.deck, disk)
    && (Within(d, h, want, disk) || Changed(d, h.deck) || Gone(d, h.deck, disk))
  }

  /** The bag to draw from: as it is, or a rebuilt one that differs. */
  lemma NextBag(d: Deck, h: Hand, want: Want, disk: Disk, weight: nat) returns (mid: Deck)
    requires HandOk(h, want, disk) && DeckOk(d) && weight >= 1 && OnTheWay(d, h, want, disk) && !OneForAll(d, disk, weight)
    requires h.deck.library != [] && d.library != []
    ensures Turned(h.deck, mid, disk, weight) && mid.pos < |mid.bag| && DeckOk(mid) && mid.library == h.deck.library
    ensures SameFavorites(d, mid, disk)
    ensures mid == h.deck || Changed(d, mid) || Gone(d, mid, disk)
  {
    hide Rebuilt, StrictlySorted, OneForAll, Listed, Picks;
    if h.deck.pos < |h.deck.bag| {
      mid := h.deck;
    } else {
      if h.deck.library == d.library && !Gone(d, h.deck, disk) {
        mid := OtherBag(d, h.deck, disk, weight);
      } else {
        mid := AnyBag(h.deck, disk, weight);
      }
      RebuiltFavorites(h.deck, mid, disk, weight);
      RebuiltPos(h.deck, mid, disk, weight);
    }
    TurnedOk(h.deck, mid, disk, weight);
    EmptyTogether(mid);
  }

  /** Some outcome of a rescan. */
  lemma SomeRescan(d: Deck, disk: Disk, weight: nat) returns (d': Deck)
    requires DeckOk(d) && disk.folder != {}
    ensures Rescanned(d, d', disk, weight)
  {
    hide Sanitized, StrictlySorted;
    var added := Sorted(disk.folder - Elements(d.library));
    SortedMultiset(disk.folder - Elements(d.library));
    KeptAndAdded(d, disk, added);
    var kept := Retain(d.bag, disk.folder);
    var library := Sorted(disk.folder);
    var x :| x in disk.folder;
    assert x in kept + added;
    d' := Deck(library, Sanitized(d.favorites, library, disk.files), kept + added, Min(d.pos, |kept|));
    assert RescannedWith(d, d', disk, weight, added);
  }

  /** A rescan keeps a hand on the way. */
  lemma RescanOnTheWay(d: Deck, next: Deck, d': Deck, disk: Disk, weight: nat)
    requires DeckOk(next) && Listed(next, disk) && Listed(d, disk) && weight >= 1 && Rescanned(next, d', disk, weight)
    requires next.pos <= |next.bag| && SameFavorites(d, next, disk)
    requires next.library == d.library || next.library == Sorted(disk.folder)
    requires Changed(d, next) || Gone(d, next, disk)
    ensures d'.library == Sorted(disk.folder) && SameFavorites(d, d', disk) && Changed(d, d')
  {
    hide Rescanned, StrictlySorted;
    RescannedDeck(next, d', disk, weight);
    RescannedFavorites(next, d', disk, weight);
    assert next.library == Sorted(disk.folder) && next.library != [] ==> next.library[0] in disk.folder;
    if next.library == Sorted(disk.folder) {
      RescanOfFresh(next, d', disk, weight);
    }
  }

  /** A next round that stays on the way. */
  lemma NextRound(d: Deck, h: Hand, want: Want, disk: Disk, weight: nat) returns (mid: Deck, h': Hand)
    requires HandOk(h, want, disk) && DeckOk(d) && Listed(d, disk) && weight >= 1 && OnTheWay(d, h, want, disk) && !OneForAll(d, disk, weight)
    requires h.deck.library != [] && d.library != [] && disk.folder != {} && |h.picked| < want.count
    ensures Round(h, mid, h', want, disk, weight) && OnTheWay(d, h', want, disk) && h'.deck.library != []
  {
    hide Rebuilt, Rescanned, StrictlySorted, OneForAll, Picks, Scan;
    mid := NextBag(d, h, want, disk, weight);
    var wall, next := mid.bag[mid.pos], mid.(pos := mid.pos + 1);
    if Bad(wall, want, disk) && h.attempts + 1 > Threshold(|mid.bag|) {
      var d' := SomeRescan(next, disk, weight);
      h' := Hand(d', h.picked, 0);
      RescanOnTheWay(d, next, d', disk, weight);
      assert d'.library != [] by { ListsFolder(disk); }
    } else {
      var picks := !Bad(wall, want, disk) && (want.allow_duplicates || wall !in h.picked);
      h' := Hand(next, if picks then h.picked + [wall] else h.picked, h.attempts + 1);
      if mid == h.deck && Within(d, h, want, disk) {
        NextOfShort(h, mid, h', want, disk, weight);
      }
    }
  }

  lemma ListsFolder(disk: Disk)
    requires disk.folder != {}
    ensures Sorted(disk.folder) != []
  {
    var x :| x in disk.folder;
    assert x in Sorted(disk.folder);
  }

  /** Where nothing suffices, a run can always be finished, with other lists than before. */
  lemma {:induction false} FinishChanged(d: Deck, h: Hand, want: Want, disk: Disk, weight: nat, limit: nat) returns (hands: seq<Hand>, mids: seq<Deck>)
    requires Going(h, want, disk, weight, limit) && DeckOk(d) && Listed(d, disk) && weight >= 1 && OnTheWay(d, h, want, disk) && !OneForAll(d, disk, weight)
    requires h.deck.library != [] && d.library != [] && disk.folder != {} && want.count > 0
    ensures DrawRun(hands, mids, want, disk, weight) && hands[0] == h
    ensures forall i | 0 <= i < |mids| :: |hands[i].picked| < want.count
    ensures |hands[|mids|].picked| >= want.count && Changed(d, hands[|mids|].deck)
    decreases Monus(want.count, |h.picked|), StaleFactor(Stale(h.deck, disk)), AttemptsLeft(h, Stale(h.deck, disk), limit),
      TurnFactor(Offers(h, want, disk)), Monus(|h.deck.bag|, h.deck.pos)
  {
    hide Round, Going, OneForAll, DeckOk, Listed, OnTheWay, Stale, Offers, Changed;
    if |h.picked| >= want.count {
      hands, mids := [h], [];
      EndChanged(d, h, want, disk, weight, limit);
    } else {
      GoingHand(h, want, disk, weight, limit);
      var mid, h' := NextRound(d, h, want, disk, weight);
      StillGoing(h, mid, h', want, disk, weight, limit);
      RoundDecreases(h, mid, h', want, disk, weight, limit);
      var restHands, restMids := FinishChanged(d, h', want, disk, weight, limit);
      hands, mids := [h] + restHands, [mid] + restMids;
      PrependRun(h, mid, restHands, restMids, want, disk, weight);
    }
  }

  lemma PrependRun(h: Hand, mid: Deck, hands: seq<Hand>, mids: seq<Deck>, want: Want, disk: Disk, weight: nat)
    requires DrawRun(hands, mids, want, disk, weight) && Round(h, mid, hands[0], want, disk, weight) && |h.picked| < want.count
    requires forall i | 0 <= i < |mids| :: |hands[i].picked| < want.count
    ensures DrawRun([h] + hands, [mid] + mids, want, disk, weight)
    ensures forall i | 0 <= i < |mids| + 1 :: |([h] + hands)[i].picked| < want.count
    ensures ([h] + hands)[|mids| + 1] == hands[|mids|]
  {
    hide Round;
    var allHands, allMids := [h] + hands, [mid] + mids;
    forall i | 0 <= i < |allMids| ensures Round(allHands[i], allMids[i], allHands[i + 1], want, disk, weight) {
      if i > 0 {
        assert allHands[i] == hands[i - 1] && allMids[i] == mids[i - 1] && allHands[i + 1] == hands[i];
      }
    }
  }

  lemma GoingHand(h: Hand, want: Want, disk: Disk, weight: nat, limit: nat)
    requires Going(h, want, disk, weight, limit)
    ensures HandOk(h, want, disk)
  {}

  /** A hand that has enough is not within an insufficient bag, nor has it been drawn from nothing. */
  lemma EndChanged(d: Deck, h: Hand, want: Want, disk: Disk, weight: nat, limit: nat)
    requires Going(h, want, disk, weight, limit) && OnTheWay(d, h, want, disk) && |h.picked| >= want.count > 0 && Listed(d, disk)
    ensures Changed(d, h.deck)
  {
    hide StrictlySorted, Enough, Bounded;
    ScanDone(h.deck.bag, h.deck.pos, h.picked, want, disk);
    assert h.picked[0] in h.picked;
    assert h.picked[0] in h.deck.library && h.picked[0] in disk.files;
    assert |h.deck.library| == 1 ==> h.deck.library == [h.deck.library[0]];
  }

  // ---- what a draw does to the deck ----

  /** What every draw since `d0` has kept. */
  ghost predicate Kept(d0: Deck, d: Deck, disk: Disk) {
    && DeckOk(d) && Listed(d, disk) && SameFavorites(d0, d, disk)
    && (d.library == d0.library || d.library == Sorted(disk.folder))
  }

  /** Only the position has moved. */
  predicate Same(d0: Deck, d: Deck) { d == d0.(pos := d.pos) }

  /** At most one wallpaper is listed, or none is on disk: then every way a draw can go is alike. */
  predicate Rigid(d: Deck, disk: Disk) { |d.library| <= 1 || disk.folder == {} }

  /** Lists of such a deck that no later draw turns back. */
  predicate Lost(d0: Deck, d: Deck, disk: Disk, weight: nat) {
    || d.library != d0.library
    || (|d0.library| == 1 && d0.library[0] in disk.files && |d.bag| == OneWeight(d0, weight))
  }

  function OneWeight(d: Deck, weight: nat): nat
    requires |d.library| == 1
  {
    if d.library[0] in d.favorites then weight else 1
  }

  /** The bag holds every wallpaper of the draw. */
  predicate DealsRow(d: Deck, count: nat, exclude: Option<string>, disk: Disk) {
    Scan(d.bag, d.pos, [], WantOf(d, count, exclude), disk).Some?
  }

  lemma KeptStart(d: Deck, disk: Disk)
    requires DeckOk(d) && Listed(d, disk)
    ensures Kept(d, d, disk) && Same(d, d)
  {}

  /** A draw is not refused: something is listed, something is on disk, and not just what is excluded. */
  lemma NotRefused(d: Deck, count: nat, exclude: Option<string>, disk: Disk)
    requires !DrawFails(d, count, exclude, disk) && count > 0
    ensures d.library != [] && disk.folder != {} && Available(d, exclude) > 0
    ensures |d.library| == 1 ==> exclude != Some(d.library[0])
  {
    if |d.library| == 1 {
      assert d.library == [d.library[0]];
      assert Elements(d.library) == {d.library[0]};
    }
  }

  lemma {:induction false} RunKeeps(d0: Deck, d: Deck, want: Want, hands: seq<Hand>, mids: seq<Deck>, disk: Disk, weight: nat, i: nat)
    requires CompleteRun(d, want, hands, mids, disk, weight) && i <= |mids| && Kept(d0, d, disk) && weight >= 1
    ensures HandOk(hands[i], want, disk) && Kept(d0, hands[i].deck, disk)
  {
    hide Round, DeckOk;
    if i > 0 {
      RunKeeps(d0, d, want, hands, mids, disk, weight, i - 1);
      RoundOk(hands[i - 1], mids[i - 1], hands[i], want, disk, weight);
      RoundFavorites(hands[i - 1], mids[i - 1], hands[i], want, disk, weight);
      HandIsListed(hands[i], want, disk);
    }
  }

  lemma HandIsListed(h: Hand, want: Want, disk: Disk)
    requires HandOk(h, want, disk)
    ensures DeckOk(h.deck) && Listed(h.deck, disk) && forall x | x in h.picked :: x in disk.folder && x in h.deck.library && want.exclude != Some(x)
  {}

  /** With one wallpaper, on disk, every bag but the first has the length of a rebuilt one. */
  lemma {:induction false} OneListedRun(d0: Deck, d: Deck, want: Want, hands: seq<Hand>, mids: seq<Deck>, disk: Disk, weight: nat, i: nat)
    requires CompleteRun(d, want, hands, mids, disk, weight) && i <= |mids| && Kept(d0, d, disk) && weight >= 1
    requires |d0.library| == 1 && d0.library[0] in disk.files && d.library == d0.library && want.exclude != Some(d0.library[0])
    requires |d.bag| == OneWeight(d0, weight) || Scan(d.bag, d.pos, [], want, disk).None?
    ensures hands[i].deck.library == d0.library
    ensures |hands[i].deck.bag| == OneWeight(d0, weight)
      || (hands[i].attempts <= hands[i].deck.pos && Scan(hands[i].deck.bag, hands[i].deck.pos, hands[i].picked, want, disk).None?)
  {
    hide Round, DeckOk, Rebuilt, Scan, Kept, OneWeight;
    if i > 0 {
      OneListedRun(d0, d, want, hands, mids, disk, weight, i - 1);
      RunKeeps(d0, d, want, hands, mids, disk, weight, i - 1);
      OneListedRound(d0, hands[i - 1], mids[i - 1], hands[i], want, disk, weight);
      if hands[i - 1].deck.pos < |hands[i - 1].deck.bag| && |hands[i - 1].deck.bag| != OneWeight(d0, weight) {
        NextOfShort(hands[i - 1], mids[i - 1], hands[i], want, disk, weight);
      }
    }
  }

  lemma OneListedRound(d0: Deck, h: Hand, mid: Deck, h': Hand, want: Want, disk: Disk, weight: nat)
    requires Round(h, mid, h', want, disk, weight) && HandOk(h, want, disk) && Kept(d0, h.deck, disk) && weight >= 1
    requires |d0.library| == 1 && d0.library[0] in disk.files && h.deck.library == d0.library && want.exclude != Some(d0.library[0])
    ensures h'.deck.library == d0.library
    ensures |h'.deck.bag| == if h.deck.pos >= |h.deck.bag| then OneWeight(d0, weight) else |h.deck.bag|
  {
    hide Rebuilt, Rescanned, Picks;
    TurnedOk(h.deck, mid, disk, weight);
    InBag(mid, mid.pos);
    assert mid.library == [d0.library[0]];
    if h.deck.pos >= |h.deck.bag| {
      SingleBag(h.deck, mid, disk, weight);
    }
  }

  /** The only listed wallpaper is gone: what is picked comes from another listing. */
  lemma GoneIsLost(d0: Deck, h: Hand, want: Want, disk: Disk)
    requires Kept(d0, h.deck, disk) && HandOk(h, want, disk) && h.picked != []
    requires |d0.library| == 1 && d0.library[0] !in disk.files && Listed(h.deck, disk)
    ensures h.deck.library != d0.library
  {
    HandIsListed(h, want, disk);
    assert h.picked[0] in h.picked;
    assert d0.library == [d0.library[0]];
  }

  /** What holds after something was drawn, in all the ways it can go. `dealt` is the position it leaves
      if the bag has all it asks for. */
  ghost predicate Fate(d0: Deck, d: Deck, d': Deck, dealt: Option<nat>, disk: Disk, weight: nat) {
    && Kept(d0, d', disk)
    && (dealt.Some? ==> d' == d.(pos := dealt.value))
    && (OneForAll(d0, disk, weight) && Same(d0, d) ==> Same(d0, d'))
    && (Rigid(d0, disk) && !OneForAll(d0, disk, weight) && (Lost(d0, d, disk, weight) || (Same(d0, d) && dealt.None?)) ==> Lost(d0, d', disk, weight))
  }

  function ScanPos(d: Deck, count: nat, exclude: Option<string>, disk: Disk): Option<nat> {
    match Scan(d.bag, d.pos, [], WantOf(d, count, exclude), disk)
    case None => None
    case Some((_, pos)) => Some(pos)
  }

  lemma DrawFate(d0: Deck, d: Deck, count: nat, exclude: Option<string>, row: seq<string>, d': Deck, disk: Disk, weight: nat)
    requires DrawsTo(d, count, exclude, row, d', disk, weight) && Kept(d0, d, disk) && DeckOk(d0) && Listed(d0, disk) && count > 0 && weight >= 1
    ensures Fate(d0, d, d', ScanPos(d, count, exclude, disk), disk, weight)
    ensures DealsRow(d, count, exclude, disk) ==> row == Scan(d.bag, d.pos, [], WantOf(d, count, exclude), disk).value.0
    ensures |row| == count && forall x | x in row :: x in disk.folder && exclude != Some(x)
  {
    hide CompleteRun, DrawFails, Scan, DeckOk, Kept, Lost, OneForAll, Listed;
    var want := WantOf(d, count, exclude);
    var hands, mids :| CompleteRun(d, want, hands, mids, disk, weight) && Leaves(hands, mids, row, d');
    NotRefused(d, count, exclude, disk);
    RunKeeps(d0, d, want, hands, mids, disk, weight, |mids|);
    HandIsListed(hands[|mids|], want, disk);
    RunLength(d, want, hands, mids, disk, weight);
    if DealsRow(d, count, exclude, disk) {
      SufficientRun(d, want, hands, mids, disk, weight, |mids|);
      ScanDone(d'.bag, d'.pos, row, want, disk);
    }
    if OneForAll(d0, disk, weight) && Same(d0, d) {
      OneForAllSame(d0, d, disk, weight);
      KeptDeck(d0, d, disk);
      OneForAllRun(d, want, hands, mids, disk, weight, |mids|);
    }
    if Rigid(d0, disk) && !OneForAll(d0, disk, weight) && (Lost(d0, d, disk, weight) || (Same(d0, d) && !DealsRow(d, count, exclude, disk))) {
      RigidDraw(d0, d, want, hands, mids, row, d', disk, weight);
    }
  }

  lemma KeptDeck(d0: Deck, d: Deck, disk: Disk)
    requires Kept(d0, d, disk)
    ensures DeckOk(d) && Listed(d, disk)
  {}

  lemma OneForAllSame(d0: Deck, d: Deck, disk: Disk, weight: nat)
    requires OneForAll(d0, disk, weight) && Same(d0, d)
    ensures OneForAll(d, disk, weight) && |d.library| == 1
  {}

  lemma {:induction false} RunLength(d: Deck, want: Want, hands: seq<Hand>, mids: seq<Deck>, disk: Disk, weight: nat)
    requires CompleteRun(d, want, hands, mids, disk, weight)
    ensures |hands| == |mids| + 1 && |hands[|mids|].picked| == want.count
  {
    hide Rebuilt, Rescanned, Turned;
    if mids != [] {
      var i := |mids| - 1;
      assert Round(hands[i], mids[i], hands[i + 1], want, disk, weight);
    }
  }

  lemma RigidDraw(d0: Deck, d: Deck, want: Want, hands: seq<Hand>, mids: seq<Deck>, row: seq<string>, d': Deck, disk: Disk, weight: nat)
    requires CompleteRun(d, want, hands, mids, disk, weight) && Leaves(hands, mids, row, d') && Kept(d0, d, disk) && weight >= 1
    requires |row| == want.count > 0 && d.library != [] && disk.folder != {} && (|d.library| == 1 ==> want.exclude != Some(d.library[0]))
    requires Rigid(d0, disk) && !OneForAll(d0, disk, weight)
    requires Lost(d0, d, disk, weight) || (Same(d0, d) && Scan(d.bag, d.pos, [], want, disk).None?)
    ensures Lost(d0, d', disk, weight)
  {
    hide CompleteRun, Scan, DeckOk, Listed, HandOk;
    RunKeeps(d0, d, want, hands, mids, disk, weight, |mids|);
    if d.library != d0.library || d0.library == [] {
      RunLibrary(d, want, hands, mids, disk, weight);
    } else if d0.library[0] in disk.files {
      OneListedRun(d0, d, want, hands, mids, disk, weight, |mids|);
      ScanDone(d'.bag, d'.pos, row, want, disk);
    } else {
      GoneIsLost(d0, hands[|mids|], want, disk);
    }
  }

  lemma RunLibrary(d: Deck, want: Want, hands: seq<Hand>, mids: seq<Deck>, disk: Disk, weight: nat)
    requires CompleteRun(d, want, hands, mids, disk, weight) && DeckOk(d) && Listed(d, disk) && weight >= 1
    ensures |hands| == |mids| + 1 && (hands[|mids|].deck.library == d.library || hands[|mids|].deck.library == Sorted(disk.folder))
  {
    hide DeckOk, CompleteRun;
    RunStartsAt(d, want, hands, mids, disk, weight);
    KeptStart(d, disk);
    RunKeeps(d, d, want, hands, mids, disk, weight, |mids|);
  }

  lemma RunStartsAt(d: Deck, want: Want, hands: seq<Hand>, mids: seq<Deck>, disk: Disk, weight: nat)
    requires CompleteRun(d, want, hands, mids, disk, weight)
    ensures |hands| == |mids| + 1 && hands[0].deck == d
  {}

  // ---- some way a draw can go ----

  /** As it was but for the position, or with lists that a rollback does not bring back. */
  ghost predicate Open(d0: Deck, d: Deck, disk: Disk) { Kept(d0, d, disk) && (Same(d0, d) || Changed(d0, d)) }

  /** A draw that does not change lists which have changed already into the old ones, and changes them if
      the bag does not suffice. */
  lemma SomeDraw(d0: Deck, d: Deck, count: nat, exclude: Option<string>, disk: Disk, weight: nat) returns (row: seq<string>, d': Deck)
    requires Open(d0, d, disk) && DeckOk(d0) && Listed(d0, disk) && weight >= 1 && d0.library != [] && !OneForAll(d0, disk, weight)
    requires !DrawFails(d, count, exclude, disk) && Settles(d, count, exclude, disk) && count > 0
    ensures DrawsTo(d, count, exclude, row, d', disk, weight) && Open(d0, d', disk)
    ensures Changed(d0, d) || !DealsRow(d, count, exclude, disk) ==> Changed(d0, d')
  {
    hide CompleteRun, OneForAll, DeckOk, Listed, Going, OnTheWay, Settles, Scan, DrawFails, Kept, Fate, Changed;
    var want := WantOf(d, count, exclude);
    var hands, mids;
    NotRefused(d, count, exclude, disk);
    if Changed(d0, d) || !DealsRow(d, count, exclude, disk) {
      var limit := BagLimit(d, weight);
      OpenGoes(d0, d, count, exclude, disk, weight, limit);
      hands, mids := FinishChanged(d0, Hand(d, [], 0), want, disk, weight, limit);
    } else {
      hands, mids := DealingRun(Hand(d, [], 0), want, disk, weight);
    }
    RunOf(d, want, hands, mids, disk, weight);
    row, d' := hands[|mids|].picked, hands[|mids|].deck;
    assert Leaves(hands, mids, row, d');
    DrawFate(d0, d, count, exclude, row, d', disk, weight);
    FateKeeps(d0, d, d', ScanPos(d, count, exclude, disk), disk, weight);
  }

  lemma FateKeeps(d0: Deck, d: Deck, d': Deck, dealt: Option<nat>, disk: Disk, weight: nat)
    requires Fate(d0, d, d', dealt, disk, weight)
    ensures Kept(d0, d', disk) && (dealt.Some? ==> d' == d.(pos := dealt.value))
  {}

  lemma OpenGoes(d0: Deck, d: Deck, count: nat, exclude: Option<string>, disk: Disk, weight: nat, limit: nat)
    requires Open(d0, d, disk) && !DrawFails(d, count, exclude, disk) && Settles(d, count, exclude, disk) && limit == BagLimit(d, weight)
    requires Changed(d0, d) || !DealsRow(d, count, exclude, disk)
    ensures Going(Hand(d, [], 0), WantOf(d, count, exclude), disk, weight, limit)
    ensures OnTheWay(d0, Hand(d, [], 0), WantOf(d, count, exclude), disk)
  {
    hide Going, Settles, DeckOk, Listed, Scan;
    GoingStart(d, count, exclude, disk, weight, limit);
  }

  /** A run within a bag that suffices. */
  lemma {:induction false} DealingRun(h: Hand, want: Want, disk: Disk, weight: nat) returns (hands: seq<Hand>, mids: seq<Deck>)
    requires Scan(h.deck.bag, h.deck.pos, h.picked, want, disk).Some? && h.attempts <= h.deck.pos
    ensures DrawRun(hands, mids, want, disk, weight) && hands[0] == h
    ensures (forall i | 0 <= i < |mids| :: |hands[i].picked| < want.count) && |hands[|mids|].picked| >= want.count
    decreases |h.deck.bag| - h.deck.pos
  {
    hide Rebuilt, Rescanned;
    if |h.picked| >= want.count {
      hands, mids := [h], [];
    } else {
      var wall, next := h.deck.bag[h.deck.pos], h.deck.(pos := h.deck.pos + 1);
      var picks := !Bad(wall, want, disk) && (want.allow_duplicates || wall !in h.picked);
      var h' := Hand(next, if picks then h.picked + [wall] else h.picked, h.attempts + 1);
      var restHands, restMids := DealingRun(h', want, disk, weight);
      hands, mids := [h] + restHands, [h.deck] + restMids;
      PrependRun(h, h.deck, restHands, restMids, want, disk, weight);
    }
  }

  // ---- the condition before the call ----

  /** Every way a draw can go can be taken back by a rollback if and only if, before the call, the bag
      held enough for it, or a rebuild could not have changed that bag. */
  lemma RollbackIff(d: Deck, count: nat, exclude: Option<string>, disk: Disk, weight: nat)
    requires DeckOk(d) && Listed(d, disk) && weight >= 1 && count > 0
    requires !DrawFails(d, count, exclude, disk) && Settles(d, count, exclude, disk)
    ensures (forall row: seq<string>, d': Deck | DrawsTo(d, count, exclude, row, d', disk, weight) :: TakenBack(d, d'))
      <==> DealsRow(d, count, exclude, disk) || OneForAll(d, disk, weight)
  {
    hide DrawsTo, OneForAll, DeckOk, Listed, Settles, DrawFails, DealsRow, Kept, Lost, Changed;
    KeptStart(d, disk);
    if DealsRow(d, count, exclude, disk) || OneForAll(d, disk, weight) {
      forall row: seq<string>, d': Deck | DrawsTo(d, count, exclude, row, d', disk, weight) ensures TakenBack(d, d') {
        DrawFate(d, d, count, exclude, row, d', disk, weight);
        PosOfRow(d, count, exclude, disk);
        SameTakenBack(d, d');
      }
    } else {
      NotRefused(d, count, exclude, disk);
      var row, d' := SomeDraw(d, d, count, exclude, disk, weight);
      ChangedStays(d, d');
    }
  }

  lemma PosOfRow(d: Deck, count: nat, exclude: Option<string>, disk: Disk)
    ensures ScanPos(d, count, exclude, disk).Some? <==> DealsRow(d, count, exclude, disk)
  {}

  lemma SameTakenBack(d: Deck, now: Deck)
    ensures Same(d, now) ==> TakenBack(d, now)
  {}

  lemma RunOf(d: Deck, want: Want, hands: seq<Hand>, mids: seq<Deck>, disk: Disk, weight: nat)
    requires DrawRun(hands, mids, want, disk, weight) && hands[0] == Hand(d, [], 0)
    requires (forall i | 0 <= i < |mids| :: |hands[i].picked| < want.count) && |hands[|mids|].picked| >= want.count
    ensures CompleteRun(d, want, hands, mids, disk, weight)
  {}

  lemma ChangedStays(d: Deck, now: Deck)
    requires Changed(d, now)
    ensures !TakenBack(d, now)
  {}
}
