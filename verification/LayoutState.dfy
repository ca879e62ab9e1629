/** One layout's history as the object its methods change. */
module LayoutStates {
  import opened Prelude
  import opened History

  class LayoutState {
    const out_count: nat
    const max_history: nat
    var history: seq<Row>
    var idx: nat
    var offset: nat

    constructor (l: Layout)
      ensures Value() == l
    {
      out_count, max_history := l.out_count, l.max_history;
      history, idx, offset := l.history, l.idx, l.offset;
    }

    function Value(): Layout
      reads this
    {
      Layout(out_count, max_history, history, idx, offset)
    }

    method AppendSet(selection: Row)
      modifies this
      ensures Value() == Append(old(Value()), selection)
    {
      history := history + [selection];
      PruneHistory();
    }

    method TrimHistory()
      modifies this
      ensures Value() == Trim(old(Value()))
    {
      if |history| > idx {
        history := history[..idx];
      }
    }

    method PruneHistory()
      modifies this
      ensures Value() == Prune(old(Value()))
    {
      if |history| <= max_history {
        return;
      }
      var drop_count := |history| - max_history;
      history := history[drop_count..];
      if idx > 0 {
        idx := Monus(idx, drop_count);
        if idx < 1 {
          idx := 1;
        }
      }
    }

    /** Truncate at the cursor, push the selection and point at it. */
    method Push(selection: Row)
      modifies this
      ensures Value() == Record(old(Value()), selection)
    {
      TrimHistory();
      history := history + [selection];
      idx := |history|;
      offset := 0;
      PruneHistory();
    }

    /** The cursor's part of `run_next_back` and `run_shift`. */
    method MoveCursor(m: Move)
      requires out_count > 0
      modifies this
      ensures Value() == Moved(old(Value()), m)
    {
      match m
      case Next =>
        if idx < 1 {
          idx := 1;
        }
        idx := idx + 1;
      case Back =>
        if idx < 1 {
          idx := 1;
        }
        if idx > 1 {
          idx := idx - 1;
        }
      case ShiftForward =>
        offset := offset + 1;
        if offset >= out_count {
          offset := 0;
          idx := idx + 1;
        }
        if idx < 1 {
          idx := 1;
          offset := 0;
        }
      case ShiftBack =>
        if offset > 0 {
          offset := offset - 1;
        } else if idx > 1 {
          idx := idx - 1;
          offset := out_count - 1;
        }
    }
  }

  /** A layout as it is stored on disk. */
  datatype SavedLayout = SavedLayout(history: seq<Row>, idx: nat, offset: nat)

  /** `LayoutState::load`. */
  function LoadLayout(saved: SavedLayout, out_count: nat, max_history: nat): Layout {
    Layout(out_count, max_history, saved.history,
           if saved.idx < 1 && saved.history != [] then 1 else saved.idx,
           if out_count > 0 then saved.offset % out_count else saved.offset)
  }

  function SaveLayout(l: Layout): SavedLayout { SavedLayout(l.history, l.idx, l.offset) }

  /** A well-formed layout comes back from disk unchanged. */
  lemma SavedLayoutLoads(l: Layout)
    requires WellFormed(l)
    ensures LoadLayout(SaveLayout(l), l.out_count, l.max_history) == l
  {}

  datatype Selected = Selection(row: Row) | NoHistory | Incomplete

  /** `current_selection`. */
  function CurrentSelection(l: Layout, allow_extend: bool): Selected {
    if l.history == [] || l.idx < 1 then NoHistory
    else if !allow_extend && |l.history| * l.out_count < (l.idx - 1) * l.out_count + l.offset + l.out_count then Incomplete
    else Selection(Window(l))
  }

  /** A reported current selection is never short. */
  lemma CurrentIsWhole(l: Layout)
    requires WellFormed(l)
    ensures CurrentSelection(l, false).Selection? <==> l.history != [] && Complete(l)
    ensures CurrentSelection(l, false).Selection? ==> |CurrentSelection(l, false).row| == l.out_count
  {
    if l.history != [] && Complete(l) {
      WindowIsStream(l, Here(l));
    }
  }
}
