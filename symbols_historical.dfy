/**
 * Historical of mead/symbols/historical.py: the append-only list of values
 * a symbol of the step-indexed engine has produced.
 */
module SymbolHistory {

  class Historical {
    var history: seq<real>

    /** A fresh record holds no values. */
    constructor()
      ensures history == []
    {
      history := [];
    }

    /** `record(value)`: the value goes at the end; the earlier entries stay in place. */
    method Record(value: real)
      modifies this
      ensures history == old(history) + [value]
      ensures |history| == |old(history)| + 1
      ensures Last() == value
    {
      history := history + [value];
    }

    /** `last`: the most recent value, 0.0 before anything was recorded. */
    function Last(): (r: real)
      reads this
      ensures history == [] ==> r == 0.0
      ensures history != [] ==> r == history[|history| - 1]
      ensures r == 0.0 || r in history
    {
      if history == [] then 0.0 else history[|history| - 1]
    }
  }

  /** A fresh record has last value 0; after two records, the history holds both in order and last is the second. */
  method HistoryInOrder() returns (empty: real, history: seq<real>, last: real)
    ensures empty == 0.0
    ensures history == [1.5, -2.0] && last == -2.0
  {
    var h := new Historical();
    empty := h.Last();
    h.Record(1.5);
    h.Record(-2.0);
    history := h.history;
    last := h.Last();
  }
}
