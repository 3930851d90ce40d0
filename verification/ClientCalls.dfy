/** The tool calls a streaming client puts together from the fragments it receives, by
    their index, against those the accumulator holds. */
module ClientCalls {
  import opened Common
  import opened ToolCalls
  import opened StreamText
  import opened StreamAccumulator
  import opened Chunking

  /** A client's calls by index. */
  type Calls = map<int, ToolCall>

  function CallAt(calls: Calls, index: int): ToolCall {
    if index in calls then calls[index] else BLANK_CALL
  }

  /** A fragment on the wire always has an index. */
  function IndexOf(f: Fragment): int {
    Or(f.index, 0)
  }

  /** The first n fragments merged into the calls. */
  function Rebuilt(calls: Calls, fs: seq<Fragment>, n: nat): Calls
    requires n <= |fs|
  {
    if n == 0 then calls
    else
      var before := Rebuilt(calls, fs, n - 1);
      var i := IndexOf(fs[n - 1]);
      before[i := Merged(CallAt(before, i), fs[n - 1])]
  }

  function AsMap(calls: seq<ToolCall>): Calls {
    map i: int | 0 <= i < |calls| :: calls[i]
  }

  // ---- When the client holds what the accumulator holds ----

  /** The fragments as emitted are those received, with some index where they had none. */
  ghost predicate Reindexed(fs: seq<Fragment>, es: seq<Fragment>) {
    |fs| == |es| && forall k :: 0 <= k < |fs| ==> Reindexes(fs[k], es[k])
  }

  predicate Reindexes(f: Fragment, e: Fragment) {
    e.index.Some? && e == f.(index := e.index) && (f.index.Some? ==> e == f)
  }

  /** Fragment k goes to the same call on both sides: by its emitted index to the slot the
      accumulator gives it; or, when the accumulator is full and drops it, to a call it
      does not change. */
  predicate InStep(fs: seq<Fragment>, es: seq<Fragment>, k: nat)
    requires k < |fs| == |es|
  {
    var held := AppendedAll([], fs, k);
    var i := IndexOf(es[k]);
    if |held| < MAX_TOOL_CALLS then i == Slot(|held|, fs[k].index)
    else 0 <= i < |held| && Merged(held[i], fs[k]) == held[i]
  }

  predicate AllInStep(fs: seq<Fragment>, es: seq<Fragment>) {
    |fs| == |es| && forall k :: 0 <= k < |fs| ==> InStep(fs, es, k)
  }

  /** The client and the accumulator hold the same calls after k fragments. */
  predicate SameAfter(fs: seq<Fragment>, es: seq<Fragment>, k: nat)
    requires k <= |fs| == |es|
  {
    Rebuilt(map[], es, k) == AsMap(AppendedAll([], fs, k))
  }

  lemma MergedIgnoresIndex(call: ToolCall, f: Fragment, index: Option<int>)
    ensures Merged(call, f.(index := index)) == Merged(call, f)
  {
  }

  /** One fragment on both sides. */
  lemma StepAgreesIff(fs: seq<Fragment>, es: seq<Fragment>, k: nat)
    requires k < |fs| && Reindexed(fs, es)
    requires SameAfter(fs, es, k)
    ensures SameAfter(fs, es, k + 1) <==> InStep(fs, es, k)
  {
    hide Merged;
    var held := AppendedAll([], fs, k);
    var i := IndexOf(es[k]);
    MergedIgnoresIndex(CallAt(AsMap(held), i), fs[k], es[k].index);
    var client := AsMap(held)[i := Merged(CallAt(AsMap(held), i), fs[k])];
    assert Rebuilt(map[], es, k + 1) == client;
    if |held| < MAX_TOOL_CALLS {
      var slot := Slot(|held|, fs[k].index);
      var after := Appended(held, fs[k]);
      assert slot in AsMap(after).Keys;
      assert slot < |held| ==> fs[k].index == Some(slot) && es[k].index.Some?;
      if i == slot {
        assert client == AsMap(after);
      } else {
        assert slot == |held| && slot !in client;
      }
    } else {
      assert AppendedAll([], fs, k + 1) == held;
      if 0 <= i < |held| {
        assert client[i] == Merged(held[i], fs[k]);
      } else {
        assert i !in AsMap(held);
      }
    }
  }

  /** The client holds the accumulator's calls at every moment exactly when every
      fragment goes to the same call on both sides. */
  lemma {:induction false} HoldsTheSameIff(fs: seq<Fragment>, es: seq<Fragment>, n: nat)
    requires n <= |fs| && Reindexed(fs, es)
    ensures (forall k :: 0 <= k <= n ==> SameAfter(fs, es, k)) <==> (forall k :: 0 <= k < n ==> InStep(fs, es, k))
  {
    hide InStep, Rebuilt, AppendedAll, AsMap;
    if n == 0 {
      NothingHeld(fs, es);
    } else {
      HoldsTheSameIff(fs, es, n - 1);
      if SameAfter(fs, es, n - 1) {
        StepAgreesIff(fs, es, n - 1);
      }
    }
  }

  lemma NothingHeld(fs: seq<Fragment>, es: seq<Fragment>)
    requires |fs| == |es|
    ensures SameAfter(fs, es, 0)
  {
  }

  /** An upstream that numbers its calls from 0 without gaps and keeps to 127 of them is
      understood by both in the same way. */
  lemma NumberedCallsAgree(fs: seq<Fragment>, es: seq<Fragment>)
    requires Reindexed(fs, es)
    requires forall k :: 0 <= k < |fs| ==>
      fs[k].index.Some? && 0 <= fs[k].index.value <= Opened(fs, k) && Opened(fs, k) < MAX_TOOL_CALLS
    ensures Rebuilt(map[], es, |es|) == AsMap(AppendedAll([], fs, |fs|))
  {
    hide Rebuilt, AppendedAll, AsMap, Opened;
    forall k | 0 <= k < |fs|
      ensures InStep(fs, es, k)
    {
      Reassembles(fs, k);
      assert Reindexes(fs[k], es[k]);
    }
    HoldsTheSameIff(fs, es, |fs|);
    assert SameAfter(fs, es, |fs|);
  }

  /** But two frames with one fragment each and no index open two calls in the
      accumulator, while both fragments are emitted with index 0: the client merges
      them into one call. */
  lemma UnnumberedFramesMerge(a: Fragment, b: Fragment)
    requires a.index == b.index == None
    ensures |AppendedAll([], [a, b], 2)| == 2
    ensures var es := Indexed([a]) + Indexed([b]);
      Reindexed([a, b], es) && Rebuilt(map[], es, 2) == map[0 := Merged(Merged(BLANK_CALL, a), b)]
  {
    hide Merged, Appended;
    var es := Indexed([a]) + Indexed([b]);
    assert es[0] == a.(index := Some(0)) && es[1] == b.(index := Some(0));
    assert Reindexes(a, es[0]) && Reindexes(b, es[1]);
    AppendedOnce([], a);
    AppendedOnce([Merged(BLANK_CALL, a)], b);
    assert AppendedAll([], [a, b], 0) == [];
    assert AppendedAll([], [a, b], 1) == [Merged(BLANK_CALL, a)];
    assert Rebuilt(map[], es, 0) == map[];
    MergedIgnoresIndex(BLANK_CALL, a, Some(0));
    assert Rebuilt(map[], es, 1) == map[0 := Merged(BLANK_CALL, a)];
    MergedIgnoresIndex(Merged(BLANK_CALL, a), b, Some(0));
  }

  lemma AppendedOnce(calls: seq<ToolCall>, f: Fragment)
    requires f.index.None? && |calls| < MAX_TOOL_CALLS
    ensures Appended(calls, f) == calls + [Merged(BLANK_CALL, f)]
  {
  }

  // ---- When the client ends with what the accumulator ends with ----

  /** Those of the first n fragments that are wanted, merged in order. */
  function MergedOnly(fs: seq<Fragment>, n: nat, wanted: nat -> bool): ToolCall
    requires n <= |fs|
  {
    if n == 0 then BLANK_CALL
    else if wanted(n - 1) then Merged(MergedOnly(fs, n - 1, wanted), fs[n - 1])
    else MergedOnly(fs, n - 1, wanted)
  }

  function ByIndex(es: seq<Fragment>, i: int): nat -> bool {
    (k: nat) => k < |es| && IndexOf(es[k]) == i
  }

  function BySlot(fs: seq<Fragment>, slot: nat): nat -> bool {
    (k: nat) => k < |fs| && RoutedTo(fs, k, slot)
  }

  predicate Addressed(es: seq<Fragment>, n: nat, i: int)
    requires n <= |es|
  {
    exists k :: 0 <= k < n && IndexOf(es[k]) == i
  }

  /** The client's call at an index is made of the fragments emitted with that index. */
  lemma {:induction false} RebuiltMeaning(es: seq<Fragment>, n: nat, i: int)
    requires n <= |es|
    ensures i in Rebuilt(map[], es, n) <==> Addressed(es, n, i)
    ensures CallAt(Rebuilt(map[], es, n), i) == MergedOnly(es, n, ByIndex(es, i))
  {
    hide Merged;
    if n > 0 {
      RebuiltMeaning(es, n - 1, i);
      assert Addressed(es, n, i) <==> Addressed(es, n - 1, i) || IndexOf(es[n - 1]) == i;
    }
  }

  /** The accumulator's call in a slot is made of the fragments routed to it. */
  lemma {:induction false} HeldMeaning(fs: seq<Fragment>, n: nat, slot: nat)
    requires n <= |fs|
    ensures var held := AppendedAll([], fs, n);
      && |held| == Opened(fs, n)
      && MergedOnly(fs, n, BySlot(fs, slot)) == if slot < |held| then held[slot] else BLANK_CALL
  {
    hide Merged;
    if n > 0 {
      HeldMeaning(fs, n - 1, slot);
      assert RoutedTo(fs, n - 1, slot) <==>
        Opened(fs, n - 1) < MAX_TOOL_CALLS && Slot(Opened(fs, n - 1), fs[n - 1].index) == slot;
    }
  }

  /** The indices used are the slots opened, and for each of them the fragments with the
      index merge to the same call as the fragments routed to the slot. */
  ghost predicate EndTheSame(fs: seq<Fragment>, es: seq<Fragment>) {
    && (forall i :: Addressed(es, |es|, i) <==> 0 <= i < Opened(fs, |fs|))
    && forall slot: nat :: slot < Opened(fs, |fs|) ==>
         MergedOnly(es, |es|, ByIndex(es, slot)) == MergedOnly(fs, |fs|, BySlot(fs, slot))
  }

  /** The client ends with the calls of the accumulator exactly under that condition,
      whatever it held on the way. */
  lemma EndsTheSameIff(fs: seq<Fragment>, es: seq<Fragment>)
    ensures Rebuilt(map[], es, |es|) == AsMap(AppendedAll([], fs, |fs|)) <==> EndTheSame(fs, es)
  {
    hide Rebuilt, AppendedAll, MergedOnly, Opened, ByIndex, BySlot;
    var client, held := Rebuilt(map[], es, |es|), AppendedAll([], fs, |fs|);
    forall i
      ensures i in client <==> Addressed(es, |es|, i)
      ensures CallAt(client, i) == MergedOnly(es, |es|, ByIndex(es, i))
    {
      RebuiltMeaning(es, |es|, i);
    }
    forall slot: nat
      ensures |held| == Opened(fs, |fs|)
      ensures slot < |held| ==> MergedOnly(fs, |fs|, BySlot(fs, slot)) == held[slot]
    {
      HeldMeaning(fs, |fs|, slot);
    }
    HeldMeaning(fs, |fs|, 0);
    hide Addressed;
    if EndTheSame(fs, es) {
      forall i | i in client
        ensures client[i] == AsMap(held)[i]
      {
        assert Addressed(es, |es|, i);
      }
      assert client.Keys == AsMap(held).Keys;
    } else if client == AsMap(held) {
      forall i
        ensures Addressed(es, |es|, i) <==> 0 <= i < |held|
      {
        assert i in client <==> i in AsMap(held);
      }
      assert false;
    }
  }

  // ---- Reading the calls off the visible stream ----

  function ReadFrom(calls: Calls, items: seq<Item>): Calls {
    if |items| == 0 then calls
    else
      var before, last := ReadFrom(calls, items[..|items| - 1]), items[|items| - 1];
      if last.Tools? then Rebuilt(before, last.fragments, |last.fragments|) else before
  }

  /** What the client made of the stream so far. */
  function CallsSoFar(s: State): Calls {
    ReadFrom(map[], Visible(s.chunks))
  }

  lemma {:induction false} ReadConcat(calls: Calls, a: seq<Item>, b: seq<Item>)
    ensures ReadFrom(calls, a + b) == ReadFrom(ReadFrom(calls, a), b)
  {
    if |b| == 0 {
      assert a + b == a;
    } else {
      ReadConcat(calls, a, b[..|b| - 1]);
      assert (a + b)[..|a + b| - 1] == a + b[..|b| - 1];
    }
  }

  lemma {:induction false} NoToolsNoCalls(calls: Calls, items: seq<Item>)
    requires forall i :: 0 <= i < |items| ==> !items[i].Tools?
    ensures ReadFrom(calls, items) == calls
  {
    if |items| > 0 {
      NoToolsNoCalls(calls, items[..|items| - 1]);
    }
  }

  lemma ReadChunk(calls: Calls, c: Chunk)
    ensures ReadFrom(calls, ItemsOf(c)) == Rebuilt(calls, c.toolCalls, |c.toolCalls|)
  {
    hide Rebuilt;
    var rest := ItemsOf(c.(toolCalls := []));
    NoToolsNoCalls(calls, rest);
    if |c.toolCalls| > 0 {
      assert ItemsOf(c) == rest + [Tools(c.toolCalls)];
      assert ItemsOf(c)[..|rest|] == rest;
    } else {
      RebuiltFromNone(calls);
    }
  }

  lemma RebuiltFromNone(calls: Calls)
    ensures Rebuilt(calls, [], 0) == calls
  {
  }

  lemma EmitReads(s: State, content: string, reasoning: string, fs: seq<Fragment>)
    ensures CallsSoFar(Emitted(s, content, reasoning, fs)) == Rebuilt(CallsSoFar(s), fs, |fs|)
    ensures fs == [] ==> CallsSoFar(Emitted(s, content, reasoning, fs)) == CallsSoFar(s)
  {
    hide Rebuilt, ReadFrom, Visible, ItemsOf;
    var role := if s.emitted then "" else if s.role == "" then "assistant" else s.role;
    EmitStep(s, content, reasoning, fs);
    ReadConcat(map[], Visible(s.chunks), ItemsOf(Chunk(role, content, reasoning, fs)));
    ReadChunk(CallsSoFar(s), Chunk(role, content, reasoning, fs));
    RebuiltFromNone(CallsSoFar(s));
  }

  /** A frame adds its own fragments, as indexed, and nothing else. */
  lemma AcceptReads(s: State, d: Delta, fallback: bool)
    ensures CallsSoFar(Accepted(s, d, fallback)) == Rebuilt(CallsSoFar(s), Indexed(d.toolCalls), |d.toolCalls|)
    ensures Accepted(s, d, fallback).calls == AppendedAll(s.calls, d.toolCalls, |d.toolCalls|)
  {
    hide Rebuilt, CallsSoFar, Emitted, AppendedAll, IsPotential, Join;
    var s1 := WithHeader(s, d);
    SameChunksReadSame(s1, s);
    EmitReads(s1, "", d.reasoning, []);
    EmittedKeeps(s1, "", d.reasoning, []);
    var m := WithMeta(s, d);
    if |d.toolCalls| > 0 {
      var text := Join(m.pending);
      var cleared, shown := m.(pending := []), m.(pending := [], streaming := true);
      SameChunksReadSame(cleared, m);
      SameChunksReadSame(shown, m);
      EmitReads(shown, text, "", []);
      EmittedKeeps(shown, text, "", []);
      var x := Discarded(m, fallback);
      var y := x.(calls := AppendedAll(x.calls, d.toolCalls, |d.toolCalls|));
      SameChunksReadSame(y, x);
      EmitReads(y, "", "", Indexed(d.toolCalls));
      EmittedKeeps(y, "", "", Indexed(d.toolCalls));
    } else {
      RebuiltFromNone(CallsSoFar(s));
      AppendedFromNone(s.calls);
      assert Indexed(d.toolCalls) == [] && d.toolCalls == [];
      ContentReads(m, d.content, fallback);
    }
  }

  lemma AppendedFromNone(calls: seq<ToolCall>)
    ensures AppendedAll(calls, [], 0) == calls
  {
  }

  lemma ContentReads(s: State, content: string, fallback: bool)
    ensures CallsSoFar(WithContent(s, content, fallback)) == CallsSoFar(s)
    ensures WithContent(s, content, fallback).calls == s.calls
  {
    hide CallsSoFar, Emitted, IsPotential, Join;
    var held := s.(pending := s.pending + [content]);
    var flowing, shown := s.(streaming := true), s.(pending := [], streaming := true);
    SameChunksReadSame(held, s);
    SameChunksReadSame(flowing, s);
    SameChunksReadSame(shown, s);
    EmitReads(flowing, content, "", []);
    EmittedKeeps(flowing, content, "", []);
    EmitReads(shown, Join(s.pending + [content]), "", []);
    EmittedKeeps(shown, Join(s.pending + [content]), "", []);
  }

  lemma SameChunksReadSame(x: State, y: State)
    requires x.chunks == y.chunks
    ensures CallsSoFar(x) == CallsSoFar(y)
  {
  }

  /** The fragments a stream brought in, and as they were emitted. */
  function FragmentsOf(ds: seq<Delta>): seq<Fragment> {
    if |ds| == 0 then [] else FragmentsOf(ds[..|ds| - 1]) + ds[|ds| - 1].toolCalls
  }

  function EmittedOf(ds: seq<Delta>): seq<Fragment> {
    if |ds| == 0 then [] else EmittedOf(ds[..|ds| - 1]) + Indexed(ds[|ds| - 1].toolCalls)
  }

  lemma {:induction false} EmittedAreReindexed(ds: seq<Delta>)
    ensures Reindexed(FragmentsOf(ds), EmittedOf(ds))
  {
    if |ds| > 0 {
      EmittedAreReindexed(ds[..|ds| - 1]);
      var last := ds[|ds| - 1].toolCalls;
      assert forall i :: 0 <= i < |last| ==> Reindexes(last[i], Indexed(last)[i]);
    }
  }

  lemma {:induction false} RebuiltConcat(calls: Calls, fs: seq<Fragment>, gs: seq<Fragment>, n: nat)
    requires n <= |gs|
    ensures Rebuilt(Rebuilt(calls, fs, |fs|), gs, n) == Rebuilt(calls, fs + gs, |fs| + n)
  {
    if n > 0 {
      RebuiltConcat(calls, fs, gs, n - 1);
    } else {
      RebuiltPrefix(calls, fs, fs + gs, |fs|);
    }
  }

  lemma {:induction false} RebuiltPrefix(calls: Calls, fs: seq<Fragment>, gs: seq<Fragment>, n: nat)
    requires n <= |fs| <= |gs| && gs[..|fs|] == fs
    ensures Rebuilt(calls, fs, n) == Rebuilt(calls, gs, n)
  {
    if n > 0 {
      assert fs[n - 1] == gs[..|fs|][n - 1];
      RebuiltPrefix(calls, fs, gs, n - 1);
    }
  }

  /** In every stream the client merges the fragments as emitted, and the accumulator
      holds the fragments as received. */
  lemma {:induction false} RunReads(ds: seq<Delta>, fallback: bool)
    ensures var s := RunOf(START, ds, fallback);
      && CallsSoFar(s) == Rebuilt(map[], EmittedOf(ds), |EmittedOf(ds)|)
      && s.calls == AppendedAll([], FragmentsOf(ds), |FragmentsOf(ds)|)
  {
    hide Accepted, CallsSoFar, Rebuilt, AppendedAll;
    if |ds| == 0 {
      NothingRead();
      RebuiltFromNone(map[]);
      AppendedFromNone([]);
    } else {
      var n := |ds| - 1;
      RunReads(ds[..n], fallback);
      AcceptReads(RunOf(START, ds[..n], fallback), ds[n], fallback);
      RebuiltConcat(map[], EmittedOf(ds[..n]), Indexed(ds[n].toolCalls), |ds[n].toolCalls|);
      AppendedAllConcat([], FragmentsOf(ds[..n]), ds[n].toolCalls, |ds[n].toolCalls|);
    }
  }

  lemma NothingRead()
    ensures CallsSoFar(START) == map[]
  {
  }

  /** So the client has exactly the tool calls of the one-shot response if every fragment
      goes to the same call on both sides. */
  lemma ClientHasAllCalls(ds: seq<Delta>, fallback: bool)
    requires AllInStep(FragmentsOf(ds), EmittedOf(ds))
    ensures CallsSoFar(RunOf(START, ds, fallback)) == AsMap(AppendedAll([], FragmentsOf(ds), |FragmentsOf(ds)|))
  {
    hide InStep, Rebuilt, AppendedAll, AsMap, CallsSoFar;
    EmittedAreReindexed(ds);
    RunReads(ds, fallback);
    HoldsTheSameIff(FragmentsOf(ds), EmittedOf(ds), |FragmentsOf(ds)|);
    assert SameAfter(FragmentsOf(ds), EmittedOf(ds), |FragmentsOf(ds)|);
  }

  /** A parsed written tool call is numbered as it is emitted. */
  lemma {:induction false} ParsedCallsArrive(calls: seq<ToolCall>, n: nat)
    requires n <= |calls|
    ensures Rebuilt(map[], Indexed(AsFragments(calls)), n) == map i: int | 0 <= i < n :: calls[i]
  {
    var fs := Indexed(AsFragments(calls));
    if n > 0 {
      ParsedCallsArrive(calls, n - 1);
      assert "" + calls[n - 1].args == calls[n - 1].args;
      assert Merged(BLANK_CALL, fs[n - 1]) == calls[n - 1];
    }
  }
}
