/** Reassembly of streamed tool calls from their fragments. */
module ToolCalls {
  import opened Common

  const MAX_TOOL_CALLS := 128

  /** One fragment. A field the frame lacks, or carries with another type, is None;
      the index is the frame's number truncated to an integer. */
  datatype Fragment = Fragment(index: Option<int>, id: Option<string>, kind: Option<string>, name: Option<string>,
      args: Option<string>)

  datatype ToolCall = ToolCall(id: string, kind: string, name: string, args: string)

  const BLANK_CALL := ToolCall("", "function", "", "")

  /** Where a fragment goes when n calls exist. */
  function Slot(n: nat, index: Option<int>): (i: nat)
    ensures i <= n
  {
    match index
    case None => n
    case Some(i) => if i < 0 || i > n || i >= MAX_TOOL_CALLS then n else i
  }

  /** A missing, negative or too large index appends; any other is taken as it is. */
  lemma SlotMeaning(n: nat, index: Option<int>)
    requires n < MAX_TOOL_CALLS
    ensures Slot(n, index) == n <==> index.None? || index.value < 0 || index.value >= n
    ensures Slot(n, index) < n ==> index == Some(Slot(n, index))
  {
  }

  function Or<T>(update: Option<T>, current: T): T {
    match update
    case Some(v) => v
    case None => current
  }

  function Merged(call: ToolCall, f: Fragment): ToolCall {
    ToolCall(Or(f.id, call.id), Or(f.kind, call.kind), Or(f.name, call.name), call.args + Or(f.args, ""))
  }

  function Appended(calls: seq<ToolCall>, f: Fragment): seq<ToolCall> {
    if |calls| >= MAX_TOOL_CALLS then calls
    else
      var i := Slot(|calls|, f.index);
      var grown := if i == |calls| then calls + [BLANK_CALL] else calls;
      grown[i := Merged(grown[i], f)]
  }

  function AppendedAll(calls: seq<ToolCall>, fs: seq<Fragment>, n: nat): seq<ToolCall>
    requires n <= |fs|
  {
    if n == 0 then calls else Appended(AppendedAll(calls, fs, n - 1), fs[n - 1])
  }

  class ToolCallAccumulator {
    var calls: seq<ToolCall>

    constructor ()
      ensures calls == []
    {
      calls := [];
    }

    method Append(fragments: seq<Fragment>)
      modifies this
      ensures calls == AppendedAll(old(calls), fragments, |fragments|)
    {
      for k := 0 to |fragments|
        invariant calls == AppendedAll(old(calls), fragments, k)
      {
        if |calls| >= MAX_TOOL_CALLS {
          FullStaysFull(old(calls), fragments, k, |fragments|);
          return;
        }
        var f := fragments[k];
        var i: int := Or(f.index, |calls|);
        if i < 0 || i > |calls| || i >= MAX_TOOL_CALLS {
          i := |calls|;
        }
        ghost var before := calls;
        while |calls| <= i
          invariant calls == before || (i == |before| && calls == before + [BLANK_CALL])
          decreases i + 1 - |calls|
        {
          calls := calls + [BLANK_CALL];
        }
        var existing := calls[i];
        if f.id.Some? {
          existing := existing.(id := f.id.value);
        }
        if f.kind.Some? {
          existing := existing.(kind := f.kind.value);
        }
        if f.name.Some? {
          existing := existing.(name := f.name.value);
        }
        if f.args.Some? {
          existing := existing.(args := existing.args + f.args.value);
        }
        assert calls[i].args + "" == calls[i].args;
        assert existing == Merged(calls[i], f);
        calls := calls[i := existing];
      }
    }

    predicate IsEmpty()
      reads this
    {
      |calls| == 0
    }
  }

  lemma {:induction false} FullStaysFull(calls: seq<ToolCall>, fs: seq<Fragment>, k: nat, n: nat)
    requires k <= n <= |fs| && |AppendedAll(calls, fs, k)| >= MAX_TOOL_CALLS
    ensures AppendedAll(calls, fs, n) == AppendedAll(calls, fs, k)
  {
    if k < n {
      FullStaysFull(calls, fs, k, n - 1);
    }
  }

  lemma {:induction false} AppendedAllConcat(calls: seq<ToolCall>, fs: seq<Fragment>, gs: seq<Fragment>, n: nat)
    requires n <= |gs|
    ensures AppendedAll(AppendedAll(calls, fs, |fs|), gs, n) == AppendedAll(calls, fs + gs, |fs| + n)
  {
    if n > 0 {
      AppendedAllConcat(calls, fs, gs, n - 1);
    } else {
      AppendedAllPrefix(calls, fs, fs + gs, |fs|);
    }
  }

  lemma {:induction false} AppendedAllPrefix(calls: seq<ToolCall>, fs: seq<Fragment>, gs: seq<Fragment>, n: nat)
    requires n <= |fs| <= |gs| && gs[..n] == fs[..n]
    ensures AppendedAll(calls, fs, n) == AppendedAll(calls, gs, n)
  {
    if n > 0 {
      assert gs[..n - 1] == gs[..n][..n - 1] && fs[..n - 1] == fs[..n][..n - 1];
      assert gs[n - 1] == gs[..n][n - 1] && fs[n - 1] == fs[..n][n - 1];
      AppendedAllPrefix(calls, fs, gs, n - 1);
    }
  }

  // ---- What the accumulator holds, said without it ----

  /** How many calls the first k fragments open. */
  function Opened(fs: seq<Fragment>, k: nat): (n: nat)
    requires k <= |fs|
    ensures n <= MAX_TOOL_CALLS && n <= k
  {
    if k == 0 then 0
    else
      var n := Opened(fs, k - 1);
      if n < MAX_TOOL_CALLS && Slot(n, fs[k - 1].index) == n then n + 1 else n
  }

  /** Fragment k is taken, and goes to the given slot. */
  predicate RoutedTo(fs: seq<Fragment>, k: nat, slot: nat)
    requires k < |fs|
  {
    Opened(fs, k) < MAX_TOOL_CALLS && Slot(Opened(fs, k), fs[k].index) == slot
  }

  /** The arguments of the first k fragments routed to a slot, in order. */
  function ArgumentsOf(fs: seq<Fragment>, k: nat, slot: nat): string
    requires k <= |fs|
  {
    if k == 0 then ""
    else ArgumentsOf(fs, k - 1, slot) + if RoutedTo(fs, k - 1, slot) then Or(fs[k - 1].args, "") else ""
  }

  function IdField(f: Fragment): Option<string> { f.id }

  function KindField(f: Fragment): Option<string> { f.kind }

  function NameField(f: Fragment): Option<string> { f.name }

  /** The last value of a field given to a slot by the first k fragments. */
  function LatestOf(fs: seq<Fragment>, k: nat, slot: nat, field: Fragment -> Option<string>, initial: string): string
    requires k <= |fs|
  {
    if k == 0 then initial
    else
      var before := LatestOf(fs, k - 1, slot, field, initial);
      if RoutedTo(fs, k - 1, slot) then Or(field(fs[k - 1]), before) else before
  }

  /** The call a slot should hold after the first k fragments. */
  function Assembled(fs: seq<Fragment>, k: nat, slot: nat): ToolCall
    requires k <= |fs|
  {
    ToolCall(LatestOf(fs, k, slot, IdField, ""), LatestOf(fs, k, slot, KindField, "function"),
             LatestOf(fs, k, slot, NameField, ""), ArgumentsOf(fs, k, slot))
  }

  /** Reassembly: the accumulator holds one call per slot opened, at most 128, and
      each slot's arguments are the in-order concatenation of exactly the fragments
      routed to it, under the last id, kind and name they gave. */
  lemma {:induction false} Reassembles(fs: seq<Fragment>, k: nat)
    requires k <= |fs|
    ensures var calls := AppendedAll([], fs, k);
            && |calls| == Opened(fs, k) <= MAX_TOOL_CALLS
            && forall slot :: 0 <= slot < |calls| ==> calls[slot] == Assembled(fs, k, slot)
  {
    if k > 0 {
      Reassembles(fs, k - 1);
      var before, after := AppendedAll([], fs, k - 1), AppendedAll([], fs, k);
      if |before| < MAX_TOOL_CALLS {
        UnopenedIsBlank(fs, k - 1, |before|);
      }
      forall slot | 0 <= slot < |after|
        ensures after[slot] == Assembled(fs, k, slot)
      {
        assert RoutedTo(fs, k - 1, slot) <==> |before| < MAX_TOOL_CALLS && Slot(|before|, fs[k - 1].index) == slot;
      }
    }
  }

  lemma {:induction false} UnopenedIsBlank(fs: seq<Fragment>, k: nat, slot: nat)
    requires k <= |fs| && Opened(fs, k) <= slot
    ensures Assembled(fs, k, slot) == BLANK_CALL
  {
    if k > 0 {
      UnopenedIsBlank(fs, k - 1, slot);
    }
  }

  function Routed(fs: seq<Fragment>, k: nat, slot: nat): (n: nat)
    requires k <= |fs|
  {
    if k == 0 then 0 else Routed(fs, k - 1, slot) + if RoutedTo(fs, k - 1, slot) then 1 else 0
  }

  lemma {:induction false} UnopenedGotNothing(fs: seq<Fragment>, k: nat, slot: nat)
    requires k <= |fs| && Opened(fs, k) <= slot
    ensures Routed(fs, k, slot) == 0
  {
    if k > 0 {
      UnopenedGotNothing(fs, k - 1, slot);
    }
  }

  /** The cap also closes the slots already open: once 128 calls exist every further
      fragment is dropped, so the last call never gets more than its first fragment. */
  lemma {:induction false} LastCallGetsOneFragment(fs: seq<Fragment>, k: nat)
    requires k <= |fs|
    ensures Routed(fs, k, MAX_TOOL_CALLS - 1) == if Opened(fs, k) == MAX_TOOL_CALLS then 1 else 0
  {
    if k > 0 {
      LastCallGetsOneFragment(fs, k - 1);
      if Opened(fs, k - 1) == MAX_TOOL_CALLS - 1 {
        UnopenedGotNothing(fs, k - 1, MAX_TOOL_CALLS - 1);
      }
    }
  }
}
