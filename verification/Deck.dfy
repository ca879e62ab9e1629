/** The weighted shuffle deck: the wallpaper library, the favourites, and the bag of upcoming
    wallpapers with the position reached in it. */
module Decks {
  import opened Prelude
  import opened StringOrder

  datatype Deck = Deck(library: seq<string>, favorites: seq<string>, bag: seq<string>, pos: nat)

  /** The disk as the deck sees it: the files that exist, and those of them that are wallpapers
      directly in the wallpaper directory. */
  datatype Disk = Disk(files: set<string>, folder: set<string>)

  ghost predicate DiskOk(disk: Disk) { disk.folder <= disk.files }

  function Elements(s: seq<string>): set<string> { set x | x in s }

  lemma {:induction false} ElementsSize(s: seq<string>)
    ensures |Elements(s)| <= |s|
  {
    if s != [] {
      var init := s[..|s| - 1];
      ElementsSize(init);
      assert s == init + [s[|s| - 1]];
      assert Elements(s) == Elements(init) + {s[|s| - 1]};
    }
  }

  lemma {:induction false} CardinalityMono(a: set<string>, b: set<string>)
    requires a <= b
    ensures |a| <= |b|
  {
    if x :| x in a {
      CardinalityMono(a - {x}, b - {x});
    }
  }

  // ---- specifications of the changes ----

  function Retain(s: seq<string>, keep: set<string>): (r: seq<string>)
    ensures forall x :: x in r <==> x in s && x in keep
    ensures |r| <= |s|
  {
    if s == [] then []
    else
      assert s == [s[0]] + s[1..];
      (if s[0] in keep then [s[0]] else []) + Retain(s[1..], keep)
  }

  lemma {:induction false} RetainAll(s: seq<string>, keep: set<string>)
    requires forall x | x in s :: x in keep
    ensures Retain(s, keep) == s
  {
    if s != [] {
      assert s == [s[0]] + s[1..];
      RetainAll(s[1..], keep);
    }
  }

  /** `sanitize_favorites`: favourites that are still listed and on disk, sorted, once each. */
  function Sanitized(favorites: seq<string>, library: seq<string>, files: set<string>): seq<string> {
    Sorted(set x | x in favorites && x in library && x in files)
  }

  function Copies(x: string, n: nat): (m: multiset<string>)
    ensures forall y :: m[y] == if y == x then n else 0
  {
    if n == 0 then multiset{} else Copies(x, n - 1) + multiset{x}
  }

  /** Every listed wallpaper once, favourites `weight` times. */
  function Weighted(library: seq<string>, favorites: set<string>, weight: nat): multiset<string> {
    if library == [] then multiset{}
    else
      var x := library[|library| - 1];
      Weighted(library[..|library| - 1], favorites, weight) + Copies(x, if x in favorites then weight else 1)
  }

  /** `rebuild_bag`: sanitized favourites, and some order of the weighted library. */
  ghost predicate Rebuilt(d: Deck, d': Deck, disk: Disk, weight: nat) {
    && d'.library == d.library && d'.favorites == Sanitized(d.favorites, d.library, disk.files) && d'.pos == 0
    && multiset(d'.bag) == Weighted(d.library, Elements(d'.favorites), weight)
  }

  /** `rescan_top_level`: the library is the directory's listing; the bag loses what is gone and
      gets what is new at its end. */
  ghost predicate Rescanned(d: Deck, d': Deck, disk: Disk, weight: nat) {
    exists added: seq<string> ::
      && multiset(added) == multiset(disk.folder - Elements(d.library))
      && RescannedWith(d, d', disk, weight, added)
  }

  /** The deck before an empty bag is refilled. */
  ghost function ScannedDeck(d: Deck, disk: Disk, added: seq<string>): Deck {
    var kept := Retain(d.bag, disk.folder);
    var library := Sorted(disk.folder);
    Deck(library, Sanitized(d.favorites, library, disk.files), kept + added, Min(d.pos, |kept|))
  }

  lemma RescannedBy(d: Deck, d': Deck, disk: Disk, weight: nat, added: seq<string>)
    requires multiset(added) == multiset(disk.folder - Elements(d.library)) && RescannedWith(d, d', disk, weight, added)
    ensures Rescanned(d, d', disk, weight)
  {
    hide RescannedWith;
  }

  ghost predicate RescannedWith(d: Deck, d': Deck, disk: Disk, weight: nat, added: seq<string>) {
    var scanned := ScannedDeck(d, disk, added);
    if scanned.bag == [] && scanned.library != [] then Rebuilt(scanned, d', disk, weight) else d' == scanned
  }

  ghost predicate Increasing(at: seq<nat>, n: nat) {
    (forall i, j | 0 <= i < j < |at| :: at[i] < at[j]) && forall i | 0 <= i < |at| :: at[i] < n
  }

  /** The positions kept, in their order. */
  ghost predicate Keeps(s: seq<string>, keep: set<string>, at: seq<nat>, r: seq<string>) {
    && |at| == |r| && Increasing(at, |s|)
    && (forall k | 0 <= k < |at| :: r[k] == s[at[k]])
    && (forall i | 0 <= i < |s| :: i in at <==> s[i] in keep)
  }

  lemma {:induction false} RetainKeeps(s: seq<string>, keep: set<string>) returns (at: seq<nat>)
    ensures Keeps(s, keep, at, Retain(s, keep))
  {
    hide Retain, Keeps;
    at := [];
    RetainNone(keep);
    if s == [] {
      KeepsNone(keep);
    } else {
      var init, last := s[..|s| - 1], s[|s| - 1];
      at := RetainKeeps(init, keep);
      RetainSnoc(init, last, keep);
      assert s == init + [last];
      KeepsSnoc(init, keep, at, Retain(init, keep), last);
      assert Retain(init, keep) + [] == Retain(init, keep);
      if last in keep {
        at := at + [|init|];
      }
    }
  }

  lemma KeepsNone(keep: set<string>)
    ensures Keeps([], keep, [], [])
  {}

  lemma KeepsSnoc(s: seq<string>, keep: set<string>, at: seq<nat>, r: seq<string>, x: string)
    requires Keeps(s, keep, at, r)
    ensures if x in keep then Keeps(s + [x], keep, at + [|s|], r + [x]) else Keeps(s + [x], keep, at, r)
  {
    assert forall i | 0 <= i < |s| :: (s + [x])[i] == s[i];
    assert |s| !in at;
  }

  lemma {:induction false} RetainSnoc(s: seq<string>, x: string, keep: set<string>)
    ensures Retain(s + [x], keep) == Retain(s, keep) + if x in keep then [x] else []
  {
    hide Retain;
    RetainNone(keep);
    var all, tail := s + [x], if x in keep then [x] else [];
    RetainStep(all, keep);
    if s == [] {
      assert all[1..] == [];
    } else {
      RetainStep(s, keep);
      RetainSnoc(s[1..], x, keep);
      assert all[1..] == s[1..] + [x] && all[0] == s[0];
      var first := if s[0] in keep then [s[0]] else [];
      assert first + (Retain(s[1..], keep) + tail) == first + Retain(s[1..], keep) + tail;
    }
  }

  lemma RetainNone(keep: set<string>)
    ensures Retain([], keep) == []
  {}

  lemma RetainStep(s: seq<string>, keep: set<string>)
    requires s != []
    ensures Retain(s, keep) == (if s[0] in keep then [s[0]] else []) + Retain(s[1..], keep)
  {
  }

  // ---- the deck's invariant ----

  /** The bag holds the library's wallpapers and no others, favourites are listed, both lists are
      sorted without repeats. */
  ghost predicate DeckOk(d: Deck) {
    && StrictlySorted(d.library) && StrictlySorted(d.favorites)
    && Elements(d.bag) == Elements(d.library) && Elements(d.favorites) <= Elements(d.library)
  }

  /** What is listed and on disk is in the directory: the library only ever lists its files. */
  ghost predicate Listed(d: Deck, disk: Disk) {
    DiskOk(disk) && forall x | x in d.library && x in disk.files :: x in disk.folder
  }

  lemma {:induction false} WeightedIs(library: seq<string>, favorites: set<string>, weight: nat, x: string)
    requires StrictlySorted(library)
    ensures Weighted(library, favorites, weight)[x] ==
      if x !in library then 0 else if x in favorites then weight else 1
  {
    if library != [] {
      var init, last := library[..|library| - 1], library[|library| - 1];
      WeightedIs(init, favorites, weight, x);
      SortedDistinct(library);
      assert library == init + [last];
    }
  }

  lemma BagElements(bag: seq<string>, library: seq<string>, favorites: set<string>, weight: nat)
    requires StrictlySorted(library) && weight >= 1 && multiset(bag) == Weighted(library, favorites, weight)
    ensures Elements(bag) == Elements(library)
  {
    forall x ensures x in bag <==> x in library {
      WeightedIs(library, favorites, weight, x);
      assert x in bag <==> multiset(bag)[x] > 0;
    }
  }

  function Multiplicity(d: Deck, disk: Disk, weight: nat, x: string): nat {
    if x !in d.library then 0 else if x in d.favorites && x in disk.files then weight else 1
  }

  /** A rebuilt bag holds each favourite `weight` times, every other listed wallpaper once, and
      nothing else; and the deck is in order. */
  lemma RebuiltBag(d: Deck, d': Deck, disk: Disk, weight: nat)
    requires StrictlySorted(d.library) && weight >= 1 && Rebuilt(d, d', disk, weight)
    ensures DeckOk(d')
    ensures forall x :: multiset(d'.bag)[x] == Multiplicity(d, disk, weight, x)
  {
    BagElements(d'.bag, d.library, Elements(d'.favorites), weight);
    forall x ensures multiset(d'.bag)[x] == Multiplicity(d, disk, weight, x) {
      WeightedIs(d.library, Elements(d'.favorites), weight, x);
    }
  }

  /** A rescan leaves the deck in order, listing exactly the directory. */
  lemma RescannedDeck(d: Deck, d': Deck, disk: Disk, weight: nat)
    requires Elements(d.bag) == Elements(d.library) && weight >= 1 && DiskOk(disk) && Rescanned(d, d', disk, weight)
    ensures DeckOk(d') && d'.library == Sorted(disk.folder) && Listed(d', disk)
  {
    hide Rebuilt, Weighted, Sanitized, StrictlySorted, Less;
    var added :| multiset(added) == multiset(disk.folder - Elements(d.library)) && RescannedWith(d, d', disk, weight, added);
    KeptAndAdded(d, disk, added);
    SanitizedOk(d.favorites, Sorted(disk.folder), disk.files);
    assert Elements(Sorted(disk.folder)) == disk.folder;
    assert Sorted(disk.folder) != [] ==> Sorted(disk.folder)[0] in Retain(d.bag, disk.folder) + added;
  }

  lemma KeptAndAdded(d: Deck, disk: Disk, added: seq<string>)
    requires Elements(d.bag) == Elements(d.library) && multiset(added) == multiset(disk.folder - Elements(d.library))
    ensures forall x :: x in Retain(d.bag, disk.folder) + added <==> x in disk.folder
    ensures Elements(Retain(d.bag, disk.folder) + added) == disk.folder
  {
    forall x ensures x in Retain(d.bag, disk.folder) + added <==> x in disk.folder {
      assert x in added <==> multiset(added)[x] > 0;
      assert x in d.bag <==> x in Elements(d.bag);
    }
  }

  lemma SanitizedOk(favorites: seq<string>, library: seq<string>, files: set<string>)
    ensures var s := Sanitized(favorites, library, files); StrictlySorted(s) && Elements(s) <= Elements(library)
  {}

  /** The bag a rescan makes of stored lists that may disagree: what it kept, what the directory has
      beyond the stored library, or a rebuilt bag if that is nothing. */
  predicate LoadsWhole(d: Deck, disk: Disk) {
    || (forall x | x in disk.folder && x in d.library :: x in d.bag)
    || (forall x | x in disk.folder :: x in d.library && x !in d.bag)
  }

  /** A stored bag that lacks a listed wallpaper: the scan does not put it back. */
  lemma LackingBagStays()
    ensures !LoadsWhole(Deck(["a", "b"], [], ["a"], 0), Disk({"a", "b"}, {"a", "b"}))
  {
    var d, folder := Deck(["a", "b"], [], ["a"], 0), {"a", "b"};
    assert "a"[0] != "b"[0];
    assert "b" in folder && d.library[1] == "b" && d.bag[0] == "a";
    assert "a" in folder && "a" in d.bag;
  }

  /** After a rescan of any lists at all the library is the directory and favourites are listed; the bag
      holds the library exactly when no wallpaper was listed without being in the bag, or none is kept. */
  lemma RescannedLists(d: Deck, d': Deck, disk: Disk, weight: nat)
    requires weight >= 1 && DiskOk(disk) && Rescanned(d, d', disk, weight)
    ensures d'.library == Sorted(disk.folder) && Listed(d', disk)
    ensures StrictlySorted(d'.library) && StrictlySorted(d'.favorites) && Elements(d'.favorites) <= Elements(d'.library)
    ensures DeckOk(d') <==> LoadsWhole(d, disk)
    ensures d'.bag == [] ==> d'.library == []
  {
    hide Weighted, Sanitized, Less, StrictlySorted;
    var added :| multiset(added) == multiset(disk.folder - Elements(d.library)) && RescannedWith(d, d', disk, weight, added);
    var bag := Retain(d.bag, disk.folder) + added;
    forall x ensures x in bag <==> x in disk.folder && (x in d.bag || x !in d.library) {
      assert x in added <==> multiset(added)[x] > 0;
      assert x in d.library <==> x in Elements(d.library);
    }
    SanitizedOk(d.favorites, Sorted(disk.folder), disk.files);
    assert Elements(Sorted(disk.folder)) == disk.folder;
    var scanned := Deck(Sorted(disk.folder), Sanitized(d.favorites, Sorted(disk.folder), disk.files), bag,
                        Min(d.pos, |Retain(d.bag, disk.folder)|));
    if bag == [] && scanned.library != [] {
      RebuiltBag(scanned, d', disk, weight);
      assert d'.library[0] in Elements(d'.bag);
      assert forall x | x in disk.folder :: x !in bag;
    } else {
      BagHoldsFolder(d, bag, disk);
    }
  }

  lemma BagHoldsFolder(d: Deck, bag: seq<string>, disk: Disk)
    requires forall x :: x in bag <==> x in disk.folder && (x in d.bag || x !in d.library)
    requires bag != [] || disk.folder == {}
    ensures Elements(bag) == disk.folder <==> LoadsWhole(d, disk)
  {
    assert bag != [] ==> bag[0] in bag;
    if LoadsWhole(d, disk) {
      forall x ensures x in Elements(bag) <==> x in disk.folder {}
    } else {
      var x :| x in disk.folder && x in d.library && x !in d.bag;
      assert x !in Elements(bag);
    }
  }

  /** On a deck that already lists the directory a rescan changes neither bag nor position. */
  lemma RescanOfFresh(d: Deck, d': Deck, disk: Disk, weight: nat)
    requires Elements(d.bag) == Elements(d.library) && d.library == Sorted(disk.folder) && Rescanned(d, d', disk, weight)
    requires d.pos <= |d.bag|
    ensures d'.library == d.library && d'.bag == d.bag && d'.pos == d.pos
  {
    var added :| multiset(added) == multiset(disk.folder - Elements(d.library)) && RescannedWith(d, d', disk, weight, added);
    assert disk.folder - Elements(d.library) == {};
    assert |multiset(added)| == 0;
    forall x | x in d.bag ensures x in disk.folder { assert x in Elements(d.bag); }
    RetainAll(d.bag, disk.folder);
    assert added == [];
    assert d.bag + [] == d.bag;
    assert d.library != [] ==> d.library[0] in Elements(d.bag);
  }

  lemma {:induction false} WeightedSize(library: seq<string>, favorites: set<string>, weight: nat)
    requires weight >= 1
    ensures |Weighted(library, favorites, weight)| <= |library| * weight
  {
    if library != [] {
      var x := library[|library| - 1];
      WeightedSize(library[..|library| - 1], favorites, weight);
      CopiesSize(x, if x in favorites then weight else 1);
      assert |library| * weight == (|library| - 1) * weight + weight;
    }
  }

  lemma {:induction false} CopiesSize(x: string, n: nat)
    ensures |Copies(x, n)| == n
  {
    if n > 0 {
      CopiesSize(x, n - 1);
    }
  }

  lemma {:induction false} SortedMultiset(s: set<string>)
    ensures multiset(Sorted(s)) == multiset(s)
  {
    if s != {} {
      var m := Least(s);
      SortedMultiset(s - {m});
      assert Sorted(s) == [m] + Sorted(s - {m});
      assert multiset(s) == multiset(s - {m}) + multiset{m};
    }
  }

  lemma {:induction false} DistinctListing(s: seq<string>)
    requires StrictlySorted(s)
    ensures |Elements(s)| == |s|
  {
    if s != [] {
      var init, last := s[..|s| - 1], s[|s| - 1];
      DistinctListing(init);
      SortedDistinct(s);
      assert s == init + [last];
      assert Elements(s) == Elements(init) + {last} && last !in Elements(init);
    }
  }

  lemma ListingLength(folder: set<string>)
    ensures |folder| == |Sorted(folder)|
  {
    hide Sorted, Less;
    DistinctListing(Sorted(folder));
    assert Elements(Sorted(folder)) == folder;
  }

  /** A rescan keeps the wallpapers of the bag that are still there, each as often and in the order it
      was, puts the new ones behind them, each once, and leaves the position unless the bag got shorter. */
  lemma RescanOrder(d: Deck, d': Deck, disk: Disk, weight: nat) returns (at: seq<nat>)
    requires DeckOk(d) && Rescanned(d, d', disk, weight)
    ensures |at| <= |d'.bag| && Keeps(d.bag, disk.folder, at, d'.bag[..|at|])
    ensures multiset(d'.bag[|at|..]) == multiset(disk.folder - Elements(d.library))
    ensures d'.pos == Min(d.pos, |at|)
  {
    hide Rebuilt, Sorted, Sanitized, StrictlySorted, Keeps, Retain;
    var added :| multiset(added) == multiset(disk.folder - Elements(d.library)) && RescannedWith(d, d', disk, weight, added);
    at := RetainKeeps(d.bag, disk.folder);
    var kept := Retain(d.bag, disk.folder);
    KeepsSize(d.bag, disk.folder, at, kept);
    assert (kept + added)[..|kept|] == kept && (kept + added)[|kept|..] == added;
    if disk.folder != {} {
      ScanNotEmpty(d, disk, added);
    } else {
      NothingSorted();
    }
  }

  lemma KeepsSize(s: seq<string>, keep: set<string>, at: seq<nat>, r: seq<string>)
    requires Keeps(s, keep, at, r)
    ensures |at| == |r|
  {}

  lemma NothingSorted()
    ensures Sorted({}) == []
  {}

  lemma ScanNotEmpty(d: Deck, disk: Disk, added: seq<string>)
    requires DeckOk(d) && disk.folder != {} && multiset(added) == multiset(disk.folder - Elements(d.library))
    ensures Retain(d.bag, disk.folder) + added != []
  {
    hide StrictlySorted;
    var x :| x in disk.folder;
    if x in d.library {
      assert x in Elements(d.bag);
      assert x in Retain(d.bag, disk.folder);
    } else {
      assert multiset(disk.folder - Elements(d.library))[x] == 1;
      assert x in multiset(added);
    }
  }

  lemma EmptyTogether(d: Deck)
    requires DeckOk(d)
    ensures d.bag == [] <==> d.library == []
  {
    if d.bag != [] { assert d.bag[0] in Elements(d.bag); }
    if d.library != [] { assert d.library[0] in Elements(d.library); }
  }

  // ---- favourites ----

  /** Of the wallpapers on disk the same ones are favourites. */
  ghost predicate SameFavorites(d: Deck, d': Deck, disk: Disk) {
    forall x | x in disk.files :: x in d'.favorites <==> x in d.favorites
  }

  lemma RebuiltFavorites(d: Deck, d': Deck, disk: Disk, weight: nat)
    requires DeckOk(d) && Rebuilt(d, d', disk, weight)
    ensures SameFavorites(d, d', disk)
  {
    hide StrictlySorted, Weighted;
    forall x | x in d.favorites ensures x in d.library {
      assert x in Elements(d.favorites);
    }
  }

  lemma RescannedFavorites(d: Deck, d': Deck, disk: Disk, weight: nat)
    requires DeckOk(d) && Listed(d, disk) && weight >= 1 && Rescanned(d, d', disk, weight)
    ensures SameFavorites(d, d', disk)
  {
    hide StrictlySorted, Weighted, Rebuilt, Retain;
    forall x | x in d.favorites ensures x in d.library {
      assert x in Elements(d.favorites);
    }
    var added :| multiset(added) == multiset(disk.folder - Elements(d.library)) && RescannedWith(d, d', disk, weight, added);
    KeptAndAdded(d, disk, added);
    assert Sorted(disk.folder) != [] ==> Sorted(disk.folder)[0] in Retain(d.bag, disk.folder) + added;
  }
}
