/** The wallpapers shown in canvas previews: a window of the bag that is made to hold required
    wallpapers, and a slice of the history followed by upcoming wallpapers. */
module Previews {
  import opened Prelude
  import opened Decks
  import opened History

  // ---- the bag's windows ----

  /** `peek_bag_window`: around the position reached, wrapping at the end. */
  function PeekBagWindow(d: Deck, count: nat): (r: seq<string>)
    ensures |r| <= count
  {
    if count == 0 then []
    else if d.bag == [] then d.library[..Min(count, |d.library|)]
    else
      var len := |d.bag|;
      var start := Min(Monus(d.pos, count / 2), len);
      seq(Min(count, len), i requires 0 <= i < Min(count, len) => d.bag[(start + i) % len])
  }

  /** The next wallpapers of the bag, as many as asked for or left. */
  function PeekBagForward(d: Deck, count: nat): (r: seq<string>)
    ensures |r| == Min(count, Monus(|d.bag|, d.pos))
    ensures d.pos <= |d.bag| ==> r <= d.bag[d.pos..]
  {
    if count == 0 || d.bag == [] || d.pos >= |d.bag| then [] else d.bag[d.pos..Min(d.pos + count, |d.bag|)]
  }

  /** The window shows the wallpaper that will be drawn next, half its length in or, near the bag's
      start, as far in as it is in the bag. */
  lemma WindowHoldsNext(d: Deck, count: nat)
    requires d.pos < |d.bag| && count > 0
    ensures var k, window := Min(d.pos, count / 2), PeekBagWindow(d, count); k < |window| && window[k] == d.bag[d.pos]
  {
    var len, start, window := |d.bag|, Min(Monus(d.pos, count / 2), |d.bag|), PeekBagWindow(d, count);
    Wraps(d.pos, len);
    Reaches(d.pos, count);
    var k: nat := d.pos - start;
    assert k < |window| && start + k == d.pos;
    assert window[k] == d.bag[(start + k) % len];
  }

  lemma Reaches(pos: nat, count: nat)
    requires count > 0
    ensures 0 <= pos - Monus(pos, count / 2) < count
  {}

  /** It shows no place of the bag twice, so it repeats nothing that the bag does not repeat. */
  lemma WindowRepeatsNothing(d: Deck, count: nat)
    requires DuplicateFree(d.bag) && d.bag != []
    ensures DuplicateFree(PeekBagWindow(d, count))
  {
    if count > 0 {
      var len, start, window := |d.bag|, Min(Monus(d.pos, count / 2), |d.bag|), PeekBagWindow(d, count);
      forall i, j | 0 <= i < j < |window| ensures window[i] != window[j] {
        Wraps(start + i, len);
        Wraps(start + j, len);
        assert window[i] == d.bag[(start + i) % len] && window[j] == d.bag[(start + j) % len];
      }
    }
  }

  lemma Wraps(k: nat, len: nat)
    requires len > 0 && k < 2 * len
    ensures k % len == if k < len then k else k - len
  {}

  // ---- required wallpapers in a window ----

  function TargetLength(tile_count: nat, required: seq<string>): nat { Max(Max(tile_count, |required|), 1) }

  /** Positions that may be given up. */
  function Spare(preview: seq<string>, required: seq<string>): nat {
    if preview == [] then 0
    else Spare(preview[..|preview| - 1], required) + if preview[|preview| - 1] in required then 0 else 1
  }

  /** Places for missing wallpapers: free ones and spare ones. */
  function Places(preview: seq<string>, required: seq<string>, target: nat): nat {
    Monus(target, |preview|) + Spare(preview, required)
  }

  /** Required wallpapers not shown. */
  function Missing(preview: seq<string>, required: seq<string>): set<string> {
    set x | x in required && x != "" && x !in preview
  }

  lemma {:induction false} NoSpare(preview: seq<string>, required: seq<string>)
    requires forall i | 0 <= i < |preview| :: preview[i] in required
    ensures Spare(preview, required) == 0
  {
    if preview != [] {
      NoSpare(preview[..|preview| - 1], required);
    }
  }

  /** The last position that is not required. */
  predicate IsLastSpare(preview: seq<string>, required: seq<string>, slot: Option<nat>) {
    match slot
    case Some(s) => s < |preview| && preview[s] !in required && forall i | s < i < |preview| :: preview[i] in required
    case None => forall i | 0 <= i < |preview| :: preview[i] in required
  }

  method LastSpare(preview: seq<string>, required: seq<string>) returns (slot: Option<nat>)
    ensures IsLastSpare(preview, required, slot)
  {
    var i := |preview|;
    while i > 0
      invariant 0 <= i <= |preview| && forall j | i <= j < |preview| :: preview[j] in required
    {
      i := i - 1;
      if preview[i] !in required {
        return Some(i);
      }
    }
    slot := None;
  }

  /** The required wallpapers that a window lacks, in the order in which they are required. */
  function Lacking(window: seq<string>, required: seq<string>): (r: seq<string>)
    ensures forall x :: x in r <==> x in required && x != "" && x !in window
    ensures DuplicateFree(r)
  {
    if required == [] then []
    else
      var init, last := required[..|required| - 1], required[|required| - 1];
      assert required == init + [last];
      var before := Lacking(window, init);
      if last == "" || last in window || last in before then before else before + [last]
  }

  predicate Descending(slots: seq<nat>) { forall i, j | 0 <= i < j < |slots| :: slots[i] > slots[j] }

  /** What is where: the window, with the first of the lacking wallpapers after it as far as there is
      room, and the next ones in place of what is not required, from its end backwards. */
  ghost predicate Fills(window: seq<string>, required: seq<string>, target: nat, lacking: seq<string>, slots: seq<nat>, preview: seq<string>) {
    var room := Monus(target, |window|);
    && |preview| == |window| + Min(room, |lacking|)
    && (forall i | |window| <= i < |preview| :: preview[i] == lacking[i - |window|])
    && (forall i | 0 <= i < |window| && i !in slots :: preview[i] == window[i])
    && Descending(slots) && |slots| <= Monus(|lacking|, room)
    && (forall r | 0 <= r < |slots| :: slots[r] < |window| && window[slots[r]] !in required && preview[slots[r]] == lacking[room + r])
    && (forall i | 0 <= i < |window| && window[i] !in required && i !in slots :: forall r | 0 <= r < |slots| :: i < slots[r])
    && (|slots| == Monus(|lacking|, room) || forall i | 0 <= i < |preview| :: preview[i] in required)
  }

  lemma LackingStep(window: seq<string>, required: seq<string>, k: nat)
    requires k < |required|
    ensures var before, lacking, path := Lacking(window, required[..k]), Lacking(window, required[..k + 1]), required[k];
      lacking == if path == "" || path in window || path in before then before else before + [path]
  {
    assert required[..k + 1][..k] == required[..k];
  }

  lemma WindowKept(window: seq<string>, required: seq<string>, target: nat, lacking: seq<string>, slots: seq<nat>, preview: seq<string>, path: string)
    requires Fills(window, required, target, lacking, slots, preview) && path in required && path in window
    ensures path in preview
  {
    var i :| 0 <= i < |window| && window[i] == path;
    forall r | 0 <= r < |slots| ensures slots[r] != i {}
    assert preview[i] == path;
  }

  lemma LackingKept(window: seq<string>, required: seq<string>, target: nat, lacking: seq<string>, slots: seq<nat>, preview: seq<string>, path: string)
    requires Fills(window, required, target, lacking, slots, preview) && path in lacking && |slots| == Monus(|lacking|, Monus(target, |window|))
    ensures path in preview
  {
    var room := Monus(target, |window|);
    var m :| 0 <= m < |lacking| && lacking[m] == path;
    if m < room {
      assert preview[|window| + m] == path;
    } else {
      assert preview[slots[m - room]] == path;
    }
  }

  lemma LackingFits(window: seq<string>, required: seq<string>, target: nat, lacking: seq<string>, slots: seq<nat>, preview: seq<string>, path: string)
    requires Fills(window, required, target, lacking, slots, preview)
    requires path in preview && path !in window
    ensures path in lacking
  {
    var i :| 0 <= i < |preview| && preview[i] == path;
    if i < |window| {
      assert i in slots;
      var r :| 0 <= r < |slots| && slots[r] == i;
    }
  }

  lemma FillAppend(window: seq<string>, required: seq<string>, target: nat, lacking: seq<string>, slots: seq<nat>, preview: seq<string>, path: string)
    requires Fills(window, required, target, lacking, slots, preview) && |window| <= target && |preview| < target && path in required
    ensures Fills(window, required, target, lacking + [path], slots, preview + [path])
  {}

  lemma FillReplace(window: seq<string>, required: seq<string>, target: nat, lacking: seq<string>, slots: seq<nat>, preview: seq<string>, s: nat, path: string)
    requires Fills(window, required, target, lacking, slots, preview) && |window| <= target && |preview| >= target && path in required
    requires forall x | x in lacking :: x in required
    requires s < |preview| && preview[s] !in required && forall i | s < i < |preview| :: preview[i] in required
    ensures Fills(window, required, target, lacking + [path], slots + [s], preview[s := path])
  {
    var room := Monus(target, |window|);
    assert s < |window| && s !in slots;
    forall i | 0 <= i < |window| && window[i] !in required && i !in slots && i != s ensures i < s {
      assert preview[i] == window[i];
    }
  }

  lemma FillFull(window: seq<string>, required: seq<string>, target: nat, lacking: seq<string>, slots: seq<nat>, preview: seq<string>, lacking': seq<string>)
    requires Fills(window, required, target, lacking, slots, preview) && |window| <= target && |preview| >= target
    requires forall i | 0 <= i < |preview| :: preview[i] in required
    requires lacking <= lacking'
    ensures Fills(window, required, target, lacking', slots, preview)
  {}

  /** One required wallpaper: in the preview, or put where there is room or a place to give up. */
  lemma FillStep(window: seq<string>, required: seq<string>, target: nat, k: nat, slots: seq<nat>, preview: seq<string>, slot: Option<nat>)
    returns (slots': seq<nat>)
    requires k < |required| && |window| <= target
    requires Fills(window, required, target, Lacking(window, required[..k]), slots, preview)
    requires required[k] != "" && required[k] !in preview && |preview| >= target ==> IsLastSpare(preview, required, slot)
    ensures Fills(window, required, target, Lacking(window, required[..k + 1]), slots',
                  if required[k] == "" || required[k] in preview then preview
                  else if |preview| < target then preview + [required[k]]
                  else if slot.Some? then preview[slot.value := required[k]] else preview)
  {
    hide Fills;
    var before, path := Lacking(window, required[..k]), required[k];
    LackingStep(window, required, k);
    slots' := slots;
    if path != "" && path in preview {
      if path !in window {
        LackingFits(window, required, target, before, slots, preview, path);
      }
    } else if path != "" {
      if path in window {
        WindowKept(window, required, target, before, slots, preview, path);
      }
      if |preview| >= target && slot.None? {
        FillFull(window, required, target, before, slots, preview, Lacking(window, required[..k + 1]));
      } else {
        RoomPlaces(window, required, target, before, slots, preview, slot);
        if path in before {
          LackingKept(window, required, target, before, slots, preview, path);
        }
        if |preview| < target {
          FillAppend(window, required, target, before, slots, preview, path);
        } else {
          FillReplace(window, required, target, before, slots, preview, slot.value, path);
          slots' := slots + [slot.value];
        }
      }
    }
  }

  /** While there is room, or a place to give up, nothing lacks. */
  lemma RoomPlaces(window: seq<string>, required: seq<string>, target: nat, lacking: seq<string>, slots: seq<nat>, preview: seq<string>, slot: Option<nat>)
    requires Fills(window, required, target, lacking, slots, preview) && |window| <= target
    requires |preview| < target || (slot.Some? && slot.value < |preview| && preview[slot.value] !in required)
    ensures |slots| == Monus(|lacking|, Monus(target, |window|))
  {}

  /** Slots in descending order that skip no spare place but those in front of all of them. */
  ghost predicate SlotsOf(window: seq<string>, required: seq<string>, slots: seq<nat>) {
    && Descending(slots) && (forall r | 0 <= r < |slots| :: slots[r] < |window| && window[slots[r]] !in required)
    && (forall i | 0 <= i < |window| && window[i] !in required && i !in slots :: forall r | 0 <= r < |slots| :: i < slots[r])
  }

  lemma SlotsOfInit(window: seq<string>, required: seq<string>, slots: seq<nat>)
    requires window != [] && SlotsOf(window, required, slots)
    ensures var last := |window| - 1;
      && (window[last] in required ==> SlotsOf(window[..last], required, slots))
      && (window[last] !in required && slots != [] ==> slots[0] == last && SlotsOf(window[..last], required, slots[1..]))
  {
    var last, init := |window| - 1, window[..|window| - 1];
    assert forall i | 0 <= i < last :: init[i] == window[i];
    if window[last] !in required && slots != [] {
      assert slots[0] < |window|;
      assert slots == [slots[0]] + slots[1..];
    }
  }

  lemma {:induction false} SpareSlots(window: seq<string>, required: seq<string>, slots: seq<nat>)
    requires SlotsOf(window, required, slots)
    ensures |slots| <= Spare(window, required)
    ensures (forall i | 0 <= i < |window| && window[i] !in required :: i in slots) ==> |slots| == Spare(window, required)
  {
    assert slots != [] ==> slots[0] < |window|;
    if window != [] {
      var last := |window| - 1;
      var init := window[..last];
      SlotsOfInit(window, required, slots);
      assert forall i | 0 <= i < last :: init[i] == window[i];
      if window[last] in required {
        SpareSlots(init, required, slots);
      } else if slots != [] {
        SpareSlots(init, required, slots[1..]);
      }
    }
  }

  lemma {:induction false} DistinctSize(s: seq<string>)
    requires DuplicateFree(s)
    ensures |Elements(s)| == |s|
  {
    if s != [] {
      var init := s[..|s| - 1];
      DistinctSize(init);
      assert s == init + [s[|s| - 1]];
      assert Elements(s) == Elements(init) + {s[|s| - 1]};
    }
  }

  lemma LackingSize(window: seq<string>, required: seq<string>)
    ensures |Missing(window, required)| == |Lacking(window, required)|
  {
    assert Missing(window, required) == Elements(Lacking(window, required));
    DistinctSize(Lacking(window, required));
  }

  /** The first of the lacking wallpapers that found no place is not shown. */
  lemma NotPlaced(window: seq<string>, required: seq<string>, target: nat, slots: seq<nat>, preview: seq<string>, x: string)
    requires Fills(window, required, target, Lacking(window, required), slots, preview) && |window| <= target
    requires var n := Monus(target, |window|) + |slots|; n < |Lacking(window, required)| && x == Lacking(window, required)[n]
    ensures x in Missing(preview, required)
  {
    var lacking := Lacking(window, required);
    assert x in lacking;
    forall i | 0 <= i < |preview| ensures preview[i] != x {
      if i < |window| && i in slots {
        var r :| 0 <= r < |slots| && slots[r] == i;
      }
    }
  }

  /** What holds of a filled preview. */
  lemma FilledHolds(window: seq<string>, required: seq<string>, target: nat, slots: seq<nat>, preview: seq<string>)
    requires Fills(window, required, target, Lacking(window, required), slots, preview) && |window| <= target
    ensures |preview| <= target
    ensures forall x | x in preview :: x in window || x in required
    ensures forall x | x in required && x in window :: x in preview
    ensures Missing(preview, required) == {} <==> |Missing(window, required)| <= Places(window, required, target)
  {
    hide Lacking, Spare;
    var lacking, room := Lacking(window, required), Monus(target, |window|);
    LackingSize(window, required);
    FilledSlots(window, required, target, lacking, slots, preview);
    SpareSlots(window, required, slots);
    forall x | x in preview ensures x in window || x in required {
      if x !in window {
        LackingFits(window, required, target, lacking, slots, preview, x);
        LackingIn(window, required, x);
      }
    }
    forall x | x in required && x in window ensures x in preview {
      WindowKept(window, required, target, lacking, slots, preview, x);
    }
    if |slots| == Monus(|lacking|, room) {
      forall x | x in required && x != "" ensures x in preview {
        if x !in window {
          LackingKept(window, required, target, lacking, slots, preview, x);
        }
      }
    } else {
      NotPlaced(window, required, target, slots, preview, lacking[room + |slots|]);
      AllSpareTaken(window, required, target, lacking, slots, preview);
    }
  }

  lemma LackingIn(window: seq<string>, required: seq<string>, x: string)
    requires x in Lacking(window, required)
    ensures x in required
  {}

  lemma FilledSlots(window: seq<string>, required: seq<string>, target: nat, lacking: seq<string>, slots: seq<nat>, preview: seq<string>)
    requires Fills(window, required, target, lacking, slots, preview)
    ensures SlotsOf(window, required, slots)
  {}

  lemma AllSpareTaken(window: seq<string>, required: seq<string>, target: nat, lacking: seq<string>, slots: seq<nat>, preview: seq<string>)
    requires Fills(window, required, target, lacking, slots, preview) && |slots| != Monus(|lacking|, Monus(target, |window|))
    ensures forall i | 0 <= i < |window| && window[i] !in required :: i in slots
  {
    forall i | 0 <= i < |window| && window[i] !in required ensures i in slots {
      assert preview[i] in required;
    }
  }

  /** `preview_window`: no longer than asked for, the bag's window with the required wallpapers that it
      lacks after it and in place of others, and holding every required wallpaper exactly when the
      window leaves places enough for those it lacks. */
  method PreviewWindow(d: Deck, required: seq<string>, tile_count: nat) returns (preview: seq<string>, ghost slots: seq<nat>)
    ensures |preview| <= TargetLength(tile_count, required)
    ensures forall x | x in preview :: x in PeekBagWindow(d, TargetLength(tile_count, required)) || x in required
    ensures forall x | x in required && x in PeekBagWindow(d, TargetLength(tile_count, required)) :: x in preview
    ensures var window, target := PeekBagWindow(d, TargetLength(tile_count, required)), TargetLength(tile_count, required);
      Fills(window, required, target, Lacking(window, required), slots, preview)
    ensures Missing(preview, required) == {} <==>
      var window := PeekBagWindow(d, TargetLength(tile_count, required));
      |Missing(window, required)| <= Places(window, required, TargetLength(tile_count, required))
  {
    hide PeekBagWindow, Fills, Lacking, Missing, Places;
    var target := TargetLength(tile_count, required);
    ghost var window := PeekBagWindow(d, target);
    preview := PeekBagWindow(d, target);
    slots := [];
    NothingFilled(window, required, target);
    for k := 0 to |required|
      invariant Fills(window, required, target, Lacking(window, required[..k]), slots, preview)
    {
      var path := required[k];
      if path == "" || path in preview {
        slots := FillStep(window, required, target, k, slots, preview, None);
        continue;
      }
      if |preview| < target {
        slots := FillStep(window, required, target, k, slots, preview, None);
        preview := preview + [path];
      } else {
        var slot := LastSpare(preview, required);
        slots := FillStep(window, required, target, k, slots, preview, slot);
        if slot.Some? {
          preview := preview[slot.value := path];
        }
      }
    }
    assert required[..|required|] == required;
    FilledHolds(window, required, target, slots, preview);
    ghost var filled := preview;
    if preview == [] {
      EmptyPreview(window, required, target, slots);
      preview := NonEmpty(required);
    }
    preview := preview[..Min(target, |preview|)];
    assert preview == filled;
  }

  lemma EmptyPreview(window: seq<string>, required: seq<string>, target: nat, slots: seq<nat>)
    requires Fills(window, required, target, Lacking(window, required), slots, []) && target >= 1
    ensures NonEmpty(required) == []
  {
    assert window == [] && Lacking(window, required) == [];
    forall x | x in required ensures x == "" {
      assert x != "" ==> x in Lacking(window, required);
    }
    NothingMissing(required);
  }

  lemma NothingFilled(window: seq<string>, required: seq<string>, target: nat)
    ensures Fills(window, required, target, Lacking(window, required[..0]), [], window)
  {}

  function NonEmpty(paths: seq<string>): (r: seq<string>)
    ensures forall x :: x in r <==> x in paths && x != ""
  {
    if paths == [] then []
    else
      assert paths == [paths[0]] + paths[1..];
      (if paths[0] == "" then [] else [paths[0]]) + NonEmpty(paths[1..])
  }

  lemma {:induction false} NothingMissing(required: seq<string>)
    requires Missing([], required) == {}
    ensures NonEmpty(required) == []
  {
    if required != [] {
      var first := required[0];
      assert required == [first] + required[1..];
      assert Missing([], required[1..]) <= Missing([], required);
      NothingMissing(required[1..]);
      assert first == "" || first in Missing([], required);
    }
  }

  /** Where the bag's window has no repeats there are places enough, so every required wallpaper is shown. */
  lemma DistinctWindowSuffices(window: seq<string>, required: seq<string>, target: nat)
    requires DuplicateFree(window) && |window| <= target && |required| <= target
    ensures |Missing(window, required)| <= Places(window, required, target)
  {
    var all, shown := Elements(required), set x | x in required && x in window;
    SpareCount(window, required);
    ElementsSize(required);
    assert |all - shown| == |all| - |shown|;
    CardinalityMono(Missing(window, required), all - shown);
  }

  lemma {:induction false} SpareCount(window: seq<string>, required: seq<string>)
    requires DuplicateFree(window)
    ensures Spare(window, required) == |window| - |set x | x in required && x in window|
  {
    var shown := set x | x in required && x in window;
    if window == [] {
      assert shown == {};
    } else {
      var init, last := window[..|window| - 1], window[|window| - 1];
      SpareCount(init, required);
      assert window == init + [last];
      var before := set x | x in required && x in init;
      if last in required {
        assert shown == before + {last};
      } else {
        assert shown == before;
      }
    }
  }

  /** A favourite that repeats in the window takes the place of a required wallpaper. */
  lemma RepeatedFavoriteHides()
    ensures var d, required := Deck(["a", "b"], ["a"], ["a", "a", "b"], 0), ["a", "b"];
      var window := PeekBagWindow(d, TargetLength(2, required));
      window == ["a", "a"] && |Missing(window, required)| > Places(window, required, 2)
  {
    var d, required := Deck(["a", "b"], ["a"], ["a", "a", "b"], 0), ["a", "b"];
    var window := PeekBagWindow(d, TargetLength(2, required));
    assert window == ["a", "a"];
    NoSpare(window, required);
    assert required[1] == "b" && "b" in Missing(window, required);
  }

  // ---- canvas previews ----

  function Distance(a: nat, b: nat): nat { if a < b then b - a else a - b }

  /** `closest_path_index`: the first of the positions nearest to the anchor. */
  function ClosestPathIndex(paths: seq<string>, path: string, anchor: nat): (r: Option<nat>)
    ensures r.None? <==> path !in paths
    ensures r.Some? ==> r.value < |paths| && paths[r.value] == path
    ensures r.Some? ==> forall i | 0 <= i < |paths| && paths[i] == path :: Distance(r.value, anchor) <= Distance(i, anchor)
    ensures r.Some? ==> forall i | 0 <= i < r.value && paths[i] == path :: Distance(r.value, anchor) < Distance(i, anchor)
  {
    if paths == [] then None
    else
      var last := |paths| - 1;
      assert paths == paths[..last] + [paths[last]];
      match ClosestPathIndex(paths[..last], path, anchor)
      case None => if paths[last] == path then Some(last) else None
      case Some(i) => if paths[last] == path && Distance(last, anchor) < Distance(i, anchor) then Some(last) else Some(i)
  }

  datatype CanvasPreview = Window(paths: seq<string>, start_index: nat) | NoHistory | NotCaptured
                         | CurrentNotInHistory(path: string) | TargetNotInHistory(path: string) | TooMany(needed: nat) | CouldNotFit(path: string)

  /** The part of the history that must be shown, and the wallpapers found in it. */
  datatype Needed = Needed(start: nat, end: nat, paths: seq<string>) | Absent(path: string)

  predicate Covered(n: Needed, flat: seq<string>)
    requires n.Needed?
  {
    n.start <= n.end <= |flat| && forall x | x in n.paths :: x in flat[n.start..n.end]
  }

  ghost predicate AllIn(paths: seq<string>, within: seq<string>) {
    forall x | x in paths && x != "" :: x in within
  }

  /** Position `i` is the nearest occurrence of one of the paths. */
  ghost predicate IsNearest(flat: seq<string>, paths: seq<string>, anchor: nat, i: int) {
    exists x :: x in paths && x != "" && x in flat && i == ClosestPathIndex(flat, x, anchor).value
  }

  function StartOver(flat: seq<string>, paths: seq<string>, anchor: nat, start: nat): nat
    requires AllIn(paths, flat)
  {
    if paths == [] then start
    else
      var r := StartOver(flat, paths[..|paths| - 1], anchor, start);
      var last := paths[|paths| - 1];
      if last == "" then r else Min(r, ClosestPathIndex(flat, last, anchor).value)
  }

  function EndOver(flat: seq<string>, paths: seq<string>, anchor: nat, end: nat): nat
    requires AllIn(paths, flat)
  {
    if paths == [] then end
    else
      var r := EndOver(flat, paths[..|paths| - 1], anchor, end);
      var last := paths[|paths| - 1];
      if last == "" then r else Max(r, ClosestPathIndex(flat, last, anchor).value + 1)
  }

  /** The least of `start` and the nearest occurrences of the paths. */
  lemma {:induction false} StartOverLeast(flat: seq<string>, paths: seq<string>, anchor: nat, start: nat)
    requires AllIn(paths, flat)
    ensures var r := StartOver(flat, paths, anchor, start);
      && r <= start && (forall i | IsNearest(flat, paths, anchor, i) :: r <= i)
      && (r == start || IsNearest(flat, paths, anchor, r))
  {
    hide ClosestPathIndex;
    if paths != [] {
      var init, last := paths[..|paths| - 1], paths[|paths| - 1];
      assert paths == init + [last];
      StartOverLeast(flat, init, anchor, start);
      assert last in paths;
      NearestOfLast(flat, init, last, anchor);
    }
  }

  /** The greatest of `end` and the ends of the nearest occurrences of the paths. */
  lemma {:induction false} EndOverGreatest(flat: seq<string>, paths: seq<string>, anchor: nat, end: nat)
    requires AllIn(paths, flat)
    ensures var r := EndOver(flat, paths, anchor, end);
      && r >= end && (forall i | IsNearest(flat, paths, anchor, i) :: r > i)
      && (r == end || IsNearest(flat, paths, anchor, r - 1))
  {
    hide ClosestPathIndex;
    if paths != [] {
      var init, last := paths[..|paths| - 1], paths[|paths| - 1];
      assert paths == init + [last];
      EndOverGreatest(flat, init, anchor, end);
      assert last in paths;
      NearestOfLast(flat, init, last, anchor);
    }
  }

  lemma NearestOfLast(flat: seq<string>, init: seq<string>, last: string, anchor: nat)
    requires last == "" || last in flat
    ensures forall i :: IsNearest(flat, init + [last], anchor, i) <==>
      IsNearest(flat, init, anchor, i) || (last != "" && i == ClosestPathIndex(flat, last, anchor).value)
  {
    hide ClosestPathIndex;
    assert forall x :: x in init + [last] <==> x in init || x == last;
  }

  /** The part of the history a preview has to show: both windows, cut at the end of the history, and
      the occurrence of every current and every selected wallpaper nearest to its window. */
  function RequiredRange(flat: seq<string>, count: nat, before: nat, after: nat, current: seq<string>, selection: seq<string>): (nat, nat)
    requires AllIn(current, flat) && AllIn(selection, flat)
  {
    var b, a := Min(before, |flat|), Min(after, |flat|);
    var start, end := Min(b, a), Max(Min(b + count, |flat|), Min(a + count, |flat|));
    var s1, e1 := StartOver(flat, current, b, start), EndOver(flat, current, b, end);
    (StartOver(flat, selection, a, s1), EndOver(flat, selection, a, e1))
  }

  predicate RangeOver(flat: seq<string>, paths: seq<string>, anchor: nat, n: Needed, r: Needed)
    requires n.Needed? && r.Needed? && AllIn(paths, flat)
  {
    r.start == StartOver(flat, paths, anchor, n.start) && r.end == EndOver(flat, paths, anchor, n.end)
  }

  /** The required range is the least one with both windows and every nearest occurrence in it: its
      start is the start of a window or such an occurrence, and so is its end. */
  lemma RequiredRangeIsLeast(flat: seq<string>, count: nat, before: nat, after: nat, current: seq<string>, selection: seq<string>)
    requires AllIn(current, flat) && AllIn(selection, flat)
    ensures var (start, end), b, a := RequiredRange(flat, count, before, after, current, selection), Min(before, |flat|), Min(after, |flat|);
      && start <= b <= Min(b + count, |flat|) <= end <= |flat|
      && start <= a <= Min(a + count, |flat|) <= end
      && (forall i | IsNearest(flat, current, b, i) || IsNearest(flat, selection, a, i) :: start <= i < end)
      && (start in {b, a} || IsNearest(flat, current, b, start) || IsNearest(flat, selection, a, start))
      && (end in {Min(b + count, |flat|), Min(a + count, |flat|)} || IsNearest(flat, current, b, end - 1) || IsNearest(flat, selection, a, end - 1))
  {
    hide ClosestPathIndex;
    var b, a := Min(before, |flat|), Min(after, |flat|);
    var start, end := Min(b, a), Max(Min(b + count, |flat|), Min(a + count, |flat|));
    StartOverLeast(flat, current, b, start);
    EndOverGreatest(flat, current, b, end);
    StartOverLeast(flat, selection, a, StartOver(flat, current, b, start));
    EndOverGreatest(flat, selection, a, EndOver(flat, current, b, end));
  }

  /** Widen the range to the nearest occurrence of every path of a selection. */
  method Widen(flat: seq<string>, selection: seq<string>, anchor: nat, n: Needed) returns (r: Needed)
    requires n.Needed? && Covered(n, flat)
    ensures r.Absent? <==> !AllIn(selection, flat)
    ensures r.Absent? ==> r.path in selection && r.path !in flat
    ensures r.Needed? ==> Covered(r, flat)
    ensures r.Needed? ==> AllIn(selection, flat) && RangeOver(flat, selection, anchor, n, r)
    ensures r.Needed? ==> forall x :: x in r.paths <==> x in n.paths || (x in selection && x != "")
  {
    hide ClosestPathIndex, Covered;
    r := n;
    for i := 0 to |selection|
      invariant r.Needed? && Covered(r, flat)
      invariant AllIn(selection[..i], flat) && RangeOver(flat, selection[..i], anchor, n, r)
      invariant forall x :: x in r.paths <==> x in n.paths || (x in selection[..i] && x != "")
    {
      var path := selection[i];
      assert selection[..i + 1] == selection[..i] + [path];
      assert selection[..i + 1][..i] == selection[..i];
      if path == "" {
        continue;
      }
      var index := ClosestPathIndex(flat, path, anchor);
      if index.None? {
        return Absent(path);
      }
      var before := r;
      r := Needed(Min(r.start, index.value), Max(r.end, index.value + 1), if path in r.paths then r.paths else r.paths + [path]);
      WidenCovers(flat, before, index.value, r);
    }
    assert selection[..|selection|] == selection;
  }

  lemma WidenCovers(flat: seq<string>, n: Needed, index: nat, r: Needed)
    requires n.Needed? && Covered(n, flat) && index < |flat|
    requires r == Needed(Min(n.start, index), Max(n.end, index + 1), if flat[index] in n.paths then n.paths else n.paths + [flat[index]])
    ensures Covered(r, flat)
  {
    var part := flat[r.start..r.end];
    assert part[index - r.start] == flat[index];
    forall x | x in n.paths ensures x in part {
      var j :| 0 <= j < n.end - n.start && flat[n.start..n.end][j] == x;
      assert part[n.start - r.start + j] == x;
    }
  }

  function SliceAt(s: seq<string>, start: nat, count: nat): (r: seq<string>)
    ensures |r| <= count
  {
    s[Min(start, |s|)..Min(start + count, |s|)]
  }

  /** `canvas_preview_window_for_prepared_change`. A preview is a slice of the history and then the
      next wallpapers of the bag; it is no longer than asked for and shows every current and every
      selected wallpaper. The last error of the original, a wallpaper that could not be fitted in,
      never happens. */
  method CanvasPreviewWindow(d: Deck, l: Layout, before_start: Option<nat>, after_start: Option<nat>,
                             selection: seq<string>, current: seq<string>, tile_count: nat) returns (r: CanvasPreview)
    ensures r.NoHistory? <==> Flat(l.history) == []
    ensures r.NotCaptured? <==> Flat(l.history) != [] && (before_start.None? || after_start.None?)
    ensures r.CurrentNotInHistory? <==> Captured(l, before_start, after_start) && !AllIn(current, Flat(l.history))
    ensures r.CurrentNotInHistory? ==> r.path in current && r.path !in Flat(l.history)
    ensures r.TargetNotInHistory? <==>
      Captured(l, before_start, after_start) && AllIn(current, Flat(l.history)) && !AllIn(selection, Flat(l.history))
    ensures r.TargetNotInHistory? ==> r.path in selection && r.path !in Flat(l.history)
    ensures !r.CouldNotFit?
    ensures r.Window? || r.TooMany? <==>
      Captured(l, before_start, after_start) && AllIn(current, Flat(l.history)) && AllIn(selection, Flat(l.history))
    ensures r.Window? || r.TooMany? ==>
      var range, tiles := RequiredRange(Flat(l.history), Max(l.out_count, 1), before_start.value, after_start.value, current, selection), Max(tile_count, 1);
      && (r.Window? <==> range.1 - range.0 <= tiles)
      && (r.TooMany? ==> r.needed == range.1 - range.0)
      && (r.Window? ==> r.start_index == Monus(range.0, (tiles - (range.1 - range.0)) / 2))
    ensures var flat, tiles := Flat(l.history), Max(tile_count, 1);
      r.Window? ==>
        var slice := SliceAt(flat, r.start_index, tiles);
        && r.paths == slice + PeekBagForward(d, tiles - |slice|)
        && |r.paths| <= tiles && AllIn(current, r.paths) && AllIn(selection, r.paths)
  {
    hide ClosestPathIndex, Flat, PeekBagForward, StartOver, EndOver;
    var tiles := Max(tile_count, 1);
    var flat := Flat(l.history);
    if flat == [] {
      return NoHistory;
    }
    var output_count := Max(l.out_count, 1);
    if before_start.None? || after_start.None? {
      return NotCaptured;
    }
    var before, after := Min(before_start.value, |flat|), Min(after_start.value, |flat|);
    var before_end, after_end := Min(before + output_count, |flat|), Min(after + output_count, |flat|);
    var start := Min(before, after);
    var n := Needed(start, Max(Max(before_end, after_end), start), []);
    n := Widen(flat, current, before, n);
    if n.Absent? {
      return CurrentNotInHistory(n.path);
    }
    n := Widen(flat, selection, after, n);
    if n.Absent? {
      return TargetNotInHistory(n.path);
    }
    ghost var range := RequiredRange(flat, output_count, before_start.value, after_start.value, current, selection);
    assert n.start == range.0 && n.end == range.1;
    var required_len := Monus(n.end, n.start);
    if required_len > tiles {
      return TooMany(required_len);
    }
    r := FittedPreview(d, flat, n, tiles);
  }

  predicate Captured(l: Layout, before_start: Option<nat>, after_start: Option<nat>) {
    Flat(l.history) != [] && before_start.Some? && after_start.Some?
  }

  /** The slice of the history around a range that fits, and what is missing from the bag. */
  method FittedPreview(d: Deck, flat: seq<string>, n: Needed, tiles: nat) returns (r: CanvasPreview)
    requires n.Needed? && Covered(n, flat) && n.end - n.start <= tiles
    ensures r.Window? && r.start_index == Monus(n.start, (tiles - (n.end - n.start)) / 2)
    ensures var slice := SliceAt(flat, r.start_index, tiles);
      r.paths == slice + PeekBagForward(d, tiles - |slice|) && |r.paths| <= tiles
    ensures forall x | x in n.paths :: x in r.paths
  {
    var lead := (tiles - (n.end - n.start)) / 2;
    var preview_start := Monus(n.start, lead);
    var preview := SliceAt(flat, preview_start, tiles);
    ghost var slice := preview;
    var remaining := Monus(tiles, |preview|);
    preview := preview + PeekBagForward(d, remaining);
    SliceCovers(flat, n, preview_start, tiles);
    var lost: Option<string> := None;
    for i := 0 to |n.paths|
      invariant lost.None?
    {
      var path := n.paths[i];
      assert path in n.paths && path in slice;
      if path !in preview {
        lost := Some(path);
      }
    }
    r := match lost
      case None => Window(preview, preview_start)
      case Some(path) => CouldNotFit(path);
  }

  lemma SliceCovers(flat: seq<string>, n: Needed, start: nat, tiles: nat)
    requires n.Needed? && Covered(n, flat) && start <= n.start && n.end <= start + tiles
    ensures forall x | x in n.paths :: x in SliceAt(flat, start, tiles)
  {
    var slice := SliceAt(flat, start, tiles);
    forall x | x in n.paths ensures x in slice {
      var j :| 0 <= j < n.end - n.start && flat[n.start..n.end][j] == x;
      assert slice[n.start - start + j] == x;
    }
  }
}
