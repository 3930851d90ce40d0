/** What the client sees does not depend on how the upstream cuts the text. */
module Chunking {
  import opened Common
  import opened ToolCalls
  import opened StreamText
  import opened StreamAccumulator

  /** The visible stream, character by character, so that chunk borders vanish. */
  datatype Item = RoleIs(role: string) | TextChar(c: char) | ReasonChar(c: char) | Tools(fragments: seq<Fragment>)

  function TextItems(s: string): (r: seq<Item>)
    ensures |r| == |s| && forall i :: 0 <= i < |s| ==> r[i] == TextChar(s[i])
  {
    seq(|s|, i requires 0 <= i < |s| => TextChar(s[i]))
  }

  function ReasonItems(s: string): (r: seq<Item>)
    ensures |r| == |s| && forall i :: 0 <= i < |s| ==> r[i] == ReasonChar(s[i])
  {
    seq(|s|, i requires 0 <= i < |s| => ReasonChar(s[i]))
  }

  function ItemsOf(c: Chunk): seq<Item> {
    (if c.role != "" then [RoleIs(c.role)] else []) + TextItems(c.content) + ReasonItems(c.reasoning)
    + (if |c.toolCalls| > 0 then [Tools(c.toolCalls)] else [])
  }

  function Visible(chunks: seq<Chunk>): seq<Item> {
    if |chunks| == 0 then [] else Visible(chunks[..|chunks| - 1]) + ItemsOf(chunks[|chunks| - 1])
  }

  /** All that later behaviour and the client can depend on. */
  datatype Observation = Observation(held: string, role: string, finish: string, emitted: bool, streaming: bool,
                                     calls: seq<ToolCall>, items: seq<Item>)

  function Observe(s: State): Observation {
    Observation(Join(s.pending), s.role, s.finish, s.emitted, s.streaming, s.calls, Visible(s.chunks))
  }

  /** Only non-empty text is ever held back. */
  ghost predicate Proper(s: State) {
    forall i :: 0 <= i < |s.pending| ==> s.pending[i] != ""
  }

  lemma JoinStep(parts: seq<string>, part: string)
    ensures Join(parts + [part]) == Join(parts) + part
  {
    assert (parts + [part])[..|parts|] == parts;
  }

  lemma JoinEmptyIff(s: State)
    requires Proper(s)
    ensures Join(s.pending) == "" <==> |s.pending| == 0
  {
  }

  lemma EmitStep(s: State, content: string, reasoning: string, fs: seq<Fragment>)
    ensures var s' := Emitted(s, content, reasoning, fs);
            var role := if s.emitted then "" else if s.role == "" then "assistant" else s.role;
            Visible(s'.chunks) == Visible(s.chunks) + ItemsOf(Chunk(role, content, reasoning, fs))
  {
    var role := if s.emitted then "" else if s.role == "" then "assistant" else s.role;
    assert (s.chunks + [Chunk(role, content, reasoning, fs)])[..|s.chunks|] == s.chunks;
  }

  /** States that look alike stay alike. */
  lemma EmittedAlike(x: State, y: State, content: string, reasoning: string, fs: seq<Fragment>)
    requires Observe(x) == Observe(y)
    ensures Observe(Emitted(x, content, reasoning, fs)) == Observe(Emitted(y, content, reasoning, fs))
  {
    EmitStep(x, content, reasoning, fs);
    EmitStep(y, content, reasoning, fs);
  }

  lemma ContentAlike(x: State, y: State, content: string, fallback: bool)
    requires Observe(x) == Observe(y) && Proper(x) && Proper(y)
    ensures Observe(WithContent(x, content, fallback)) == Observe(WithContent(y, content, fallback))
    ensures Proper(WithContent(x, content, fallback))
  {
    hide Emitted, Visible, IsPotential;
    if content != "" {
      JoinStep(x.pending, content);
      JoinStep(y.pending, content);
      EmittedAlike(x.(streaming := true), y.(streaming := true), content, "", []);
      EmittedAlike(x.(pending := [], streaming := true), y.(pending := [], streaming := true),
          Join(x.pending + [content]), "", []);
      EmittedKeeps(x.(streaming := true), content, "", []);
      EmittedKeeps(x.(pending := [], streaming := true), Join(x.pending + [content]), "", []);
    }
  }

  lemma EmittedKeeps(s: State, content: string, reasoning: string, fs: seq<Fragment>)
    ensures Emitted(s, content, reasoning, fs).pending == s.pending
    ensures Emitted(s, content, reasoning, fs).calls == s.calls
    ensures Emitted(s, content, reasoning, fs).streaming == s.streaming
    ensures Emitted(s, content, reasoning, fs).emitted
  {
  }

  lemma MetaAlike(x: State, y: State, d: Delta)
    requires Observe(x) == Observe(y)
    ensures Observe(WithMeta(x, d)) == Observe(WithMeta(y, d)) && WithMeta(x, d).pending == x.pending
  {
    var x', y' := WithHeader(x, d), WithHeader(y, d);
    EmittedAlike(x', y', "", d.reasoning, []);
    EmittedKeeps(x', "", d.reasoning, []);
  }

  lemma DiscardedAlike(x: State, y: State, fallback: bool)
    requires Observe(x) == Observe(y) && Proper(x) && Proper(y)
    ensures Observe(Discarded(x, fallback)) == Observe(Discarded(y, fallback)) && Discarded(x, fallback).pending == []
  {
    hide Emitted, Visible, IsPotential;
    JoinEmptyIff(x);
    JoinEmptyIff(y);
    EmittedAlike(x.(pending := [], streaming := true), y.(pending := [], streaming := true), Join(x.pending), "", []);
    EmittedKeeps(x.(pending := [], streaming := true), Join(x.pending), "", []);
  }

  lemma AcceptedAlike(x: State, y: State, d: Delta, fallback: bool)
    requires Observe(x) == Observe(y) && Proper(x) && Proper(y)
    ensures Observe(Accepted(x, d, fallback)) == Observe(Accepted(y, d, fallback)) && Proper(Accepted(x, d, fallback))
  {
    hide WithMeta, Discarded, WithContent, Emitted, Visible, AppendedAll;
    MetaAlike(x, y, d);
    MetaAlike(y, x, d);
    var x', y' := WithMeta(x, d), WithMeta(y, d);
    if |d.toolCalls| > 0 {
      DiscardedAlike(x', y', fallback);
      var a, b := Discarded(x', fallback), Discarded(y', fallback);
      var calls := AppendedAll(a.calls, d.toolCalls, |d.toolCalls|);
      EmittedAlike(a.(calls := calls), b.(calls := calls), "", "", Indexed(d.toolCalls));
      EmittedKeeps(a.(calls := calls), "", "", Indexed(d.toolCalls));
    } else {
      ContentAlike(x', y', d.content, fallback);
    }
  }

  lemma FlushedAlike(x: State, y: State, decode: Decoder, fallback: bool)
    requires Observe(x) == Observe(y) && Proper(x) && Proper(y)
    ensures Observe(Flushed(x, decode, fallback)) == Observe(Flushed(y, decode, fallback))
  {
    hide Emitted, Visible, ParsedCalls, AppendedAll;
    JoinEmptyIff(x);
    JoinEmptyIff(y);
    var text := Join(x.pending);
    var fs := AsFragments(ParsedCalls(decode, text));
    var calls := AppendedAll(x.calls, fs, |fs|);
    EmittedAlike(x.(pending := [], calls := calls), y.(pending := [], calls := calls), "", "", Indexed(fs));
    EmittedAlike(x.(pending := [], streaming := true), y.(pending := [], streaming := true), text, "", []);
  }

  // ---- Cutting text ----

  /** Two pieces of text arriving one after the other do what their concatenation does. */
  lemma CutAnywhere(s: State, a: string, b: string, fallback: bool)
    requires Proper(s) && a != "" && b != ""
    ensures Observe(WithContent(WithContent(s, a, fallback), b, fallback)) == Observe(WithContent(s, a + b, fallback))
  {
    JoinStep(s.pending, a);
    JoinStep(s.pending, a + b);
    JoinStep(s.pending + [a], b);
    assert Join(s.pending) + a + b == Join(s.pending) + (a + b);
    if !fallback || s.streaming {
      EmitCut(s.(streaming := true), a, b);
    } else if !IsPotential(Join(s.pending) + a) {
      if IsPotential(Join(s.pending) + (a + b)) {
        PotentialIsPrefixClosed(Join(s.pending) + a, b);
      }
      EmitCut(s.(pending := [], streaming := true), Join(s.pending) + a, b);
    }
  }

  /** A chunk with one field, as items. */
  lemma TextChunkItems(role: string, content: string)
    ensures ItemsOf(Chunk(role, content, "", [])) == (if role != "" then [RoleIs(role)] else []) + TextItems(content)
  {
    assert ReasonItems("") == [];
  }

  lemma ReasonChunkItems(role: string, reasoning: string)
    ensures ItemsOf(Chunk(role, "", reasoning, [])) ==
            (if role != "" then [RoleIs(role)] else []) + ReasonItems(reasoning)
  {
    assert TextItems("") == [];
  }

  /** Text of a chunk cut in two. */
  lemma TextItemsCut(role: string, a: string, b: string)
    ensures ItemsOf(Chunk(role, a, "", [])) + ItemsOf(Chunk("", b, "", [])) == ItemsOf(Chunk(role, a + b, "", []))
  {
    hide ItemsOf;
    TextChunkItems(role, a);
    TextChunkItems("", b);
    TextChunkItems(role, a + b);
    assert TextItems(a + b) == TextItems(a) + TextItems(b);
  }

  /** Reasoning of a chunk cut in two. */
  lemma ReasonItemsCut(role: string, a: string, b: string)
    ensures ItemsOf(Chunk(role, "", a, [])) + ItemsOf(Chunk("", "", b, [])) == ItemsOf(Chunk(role, "", a + b, []))
  {
    hide ItemsOf;
    ReasonChunkItems(role, a);
    ReasonChunkItems("", b);
    ReasonChunkItems(role, a + b);
    assert ReasonItems(a + b) == ReasonItems(a) + ReasonItems(b);
  }

  lemma EmitCut(s: State, a: string, b: string)
    ensures Observe(Emitted(Emitted(s, a, "", []), b, "", [])) == Observe(Emitted(s, a + b, "", []))
  {
    hide Visible, Join, ItemsOf;
    var role := if s.emitted then "" else if s.role == "" then "assistant" else s.role;
    EmitStep(s, a, "", []);
    EmitStep(Emitted(s, a, "", []), b, "", []);
    EmitStep(s, a + b, "", []);
    TextItemsCut(role, a, b);
    var x, y := ItemsOf(Chunk(role, a, "", [])), ItemsOf(Chunk("", b, "", []));
    assert Visible(s.chunks) + x + y == Visible(s.chunks) + (x + y);
  }

  /** A delta of text and nothing else. */
  function Text(content: string): Delta { Delta("", content, "", "", []) }

  function RunOf(s: State, ds: seq<Delta>, fallback: bool): State {
    if |ds| == 0 then s else Accepted(RunOf(s, ds[..|ds| - 1], fallback), ds[|ds| - 1], fallback)
  }

  /** A delta of reasoning and nothing else. */
  function Reason(reasoning: string): Delta { Delta("", "", reasoning, "", []) }

  /** The finest cut of a stream: role and finish reason, reasoning character by
      character, and the tool calls or the text character by character. */
  function Atoms(ds: seq<Delta>): seq<Delta> {
    if |ds| == 0 then [] else Atoms(ds[..|ds| - 1]) + AtomsOf(ds[|ds| - 1])
  }

  function AtomsOf(d: Delta): seq<Delta> {
    Header(d) + Reasons(d.reasoning) + if |d.toolCalls| > 0 then [Delta("", "", "", "", d.toolCalls)]
        else Letters(d.content)
  }

  function Header(d: Delta): seq<Delta> {
    if d.role != "" || d.finish != "" then [Delta(d.role, "", "", d.finish, [])] else []
  }

  function Reasons(reasoning: string): seq<Delta> {
    seq(|reasoning|, i requires 0 <= i < |reasoning| => Reason([reasoning[i]]))
  }

  function Letters(content: string): seq<Delta> {
    seq(|content|, i requires 0 <= i < |content| => Text([content[i]]))
  }

  lemma {:induction false} RunConcat(s: State, ds: seq<Delta>, es: seq<Delta>, fallback: bool)
    ensures RunOf(s, ds + es, fallback) == RunOf(RunOf(s, ds, fallback), es, fallback)
  {
    if |es| == 0 {
      assert ds + es == ds;
    } else {
      RunConcat(s, ds, es[..|es| - 1], fallback);
      assert (ds + es)[..|ds + es| - 1] == ds + es[..|es| - 1];
    }
  }

  lemma TextAccepted(s: State, content: string, fallback: bool)
    ensures Accepted(s, Text(content), fallback) == WithContent(s, content, fallback)
  {
  }

  lemma ContentProper(s: State, content: string, fallback: bool)
    requires Proper(s)
    ensures Proper(WithContent(s, content, fallback))
  {
    ContentAlike(s, s, content, fallback);
  }

  lemma {:induction false} LettersOfText(s: State, content: string, fallback: bool)
    requires Proper(s)
    ensures Observe(RunOf(s, Letters(content), fallback)) == Observe(WithContent(s, content, fallback))
    ensures Proper(RunOf(s, Letters(content), fallback))
  {
    hide WithContent, Accepted;
    if content == "" {
      EmptyContent(s, fallback);
    } else {
      var n := |content| - 1;
      var init, last := content[..n], [content[n]];
      LettersOfText(s, init, fallback);
      assert Letters(content)[..n] == Letters(init);
      var x, y := RunOf(s, Letters(init), fallback), WithContent(s, init, fallback);
      TextAccepted(x, last, fallback);
      ContentProper(s, init, fallback);
      ContentAlike(x, y, last, fallback);
      assert content == init + last;
      if init == "" {
        EmptyContent(s, fallback);
      } else {
        CutAnywhere(s, init, last, fallback);
      }
    }
  }

  /** What reasoning adds. */
  function WithReason(s: State, reasoning: string): State {
    if reasoning != "" then Emitted(s, "", reasoning, []) else s
  }

  lemma ReasonAccepted(s: State, reasoning: string, fallback: bool)
    ensures Accepted(s, Reason(reasoning), fallback) == WithReason(s, reasoning)
  {
    hide Emitted;
  }

  lemma ReasonCut(s: State, a: string, b: string)
    ensures Observe(Emitted(Emitted(s, "", a, []), "", b, [])) == Observe(Emitted(s, "", a + b, []))
  {
    hide Visible, Join, ItemsOf;
    var role := if s.emitted then "" else if s.role == "" then "assistant" else s.role;
    EmitStep(s, "", a, []);
    EmitStep(Emitted(s, "", a, []), "", b, []);
    EmitStep(s, "", a + b, []);
    ReasonItemsCut(role, a, b);
    var x, y := ItemsOf(Chunk(role, "", a, [])), ItemsOf(Chunk("", "", b, []));
    assert Visible(s.chunks) + x + y == Visible(s.chunks) + (x + y);
  }

  lemma {:induction false} ReasonsOfText(s: State, reasoning: string, fallback: bool)
    ensures Observe(RunOf(s, Reasons(reasoning), fallback)) == Observe(WithReason(s, reasoning))
    ensures RunOf(s, Reasons(reasoning), fallback).pending == s.pending
  {
    hide Accepted, Emitted, Observe;
    if reasoning != "" {
      var n := |reasoning| - 1;
      var init, last := reasoning[..n], [reasoning[n]];
      ReasonsOfText(s, init, fallback);
      assert Reasons(reasoning)[..n] == Reasons(init);
      var x, y := RunOf(s, Reasons(init), fallback), WithReason(s, init);
      ReasonAccepted(x, last, fallback);
      EmittedAlike(x, y, "", last, []);
      EmittedKeeps(x, "", last, []);
      assert reasoning == init + last;
      if init != "" {
        ReasonCut(s, init, last);
      }
    }
  }

  /** A frame does what its parts do one after the other. */
  lemma AtomsOfFrame(s: State, d: Delta, fallback: bool)
    requires Proper(s)
    ensures Observe(RunOf(s, AtomsOf(d), fallback)) == Observe(Accepted(s, d, fallback))
    ensures Proper(RunOf(s, AtomsOf(d), fallback))
  {
    hide Observe, RunOf, WithContent, Emitted;
    var parts := if |d.toolCalls| > 0 then [Delta("", "", "", "", d.toolCalls)] else Letters(d.content);
    RunConcat(s, Header(d) + Reasons(d.reasoning), parts, fallback);
    RunConcat(s, Header(d), Reasons(d.reasoning), fallback);
    var s1 := WithHeader(s, d);
    HeaderAccepted(s, d, fallback);
    ReasonsOfText(s1, d.reasoning, fallback);
    var x, y := RunOf(s1, Reasons(d.reasoning), fallback), WithReason(s1, d.reasoning);
    assert WithMeta(s, d) == y;
    EmittedKeeps(s1, "", d.reasoning, []);
    if |d.toolCalls| > 0 {
      RunOfOne(x, parts[0], fallback);
      assert WithMeta(y, parts[0]) == y;
      AcceptedAlike(x, y, parts[0], fallback);
    } else {
      LettersOfText(x, d.content, fallback);
      ContentAlike(x, y, d.content, fallback);
    }
  }

  lemma HeaderAccepted(s: State, d: Delta, fallback: bool)
    ensures RunOf(s, Header(d), fallback) ==
            WithHeader(s, d)
  {
    hide RunOf;
    if d.role != "" || d.finish != "" {
      var header := Delta(d.role, "", "", d.finish, []);
      RunOfOne(s, header, fallback);
      EmptyContent(WithMeta(s, header), fallback);
    } else {
      RunOfNone(s, fallback);
    }
  }

  lemma RunOfNone(s: State, fallback: bool)
    ensures RunOf(s, [], fallback) == s
  {
  }

  lemma RunOfOne(s: State, d: Delta, fallback: bool)
    ensures RunOf(s, [d], fallback) == Accepted(s, d, fallback)
  {
    assert [d][..0] == [];
    assert RunOf(s, [d][..0], fallback) == s;
  }

  lemma EmptyContent(s: State, fallback: bool)
    ensures WithContent(s, "", fallback) == s
  {
  }

  lemma {:induction false} RunAlike(x: State, y: State, ds: seq<Delta>, fallback: bool)
    requires Observe(x) == Observe(y) && Proper(x) && Proper(y)
    ensures Observe(RunOf(x, ds, fallback)) == Observe(RunOf(y, ds, fallback)) && Proper(RunOf(x, ds, fallback))
    decreases |ds|
  {
    hide Accepted, Observe;
    if |ds| > 0 {
      RunAlike(x, y, ds[..|ds| - 1], fallback);
      RunAlike(y, x, ds[..|ds| - 1], fallback);
      AcceptedAlike(RunOf(x, ds[..|ds| - 1], fallback), RunOf(y, ds[..|ds| - 1], fallback), ds[|ds| - 1], fallback);
    }
  }

  lemma {:induction false} RunIsRunOfAtoms(s: State, ds: seq<Delta>, fallback: bool)
    requires Proper(s)
    ensures Observe(RunOf(s, ds, fallback)) == Observe(RunOf(s, Atoms(ds), fallback))
    ensures Proper(RunOf(s, ds, fallback)) && Proper(RunOf(s, Atoms(ds), fallback))
  {
    hide Accepted, Observe;
    if |ds| > 0 {
      var before, last := ds[..|ds| - 1], ds[|ds| - 1];
      RunIsRunOfAtoms(s, before, fallback);
      RunConcat(s, Atoms(before), AtomsOf(last), fallback);
      var x, y := RunOf(s, before, fallback), RunOf(s, Atoms(before), fallback);
      AcceptedAlike(x, y, last, fallback);
      AcceptedAlike(y, x, last, fallback);
      AtomsOfFrame(y, last, fallback);
    }
  }

  /** Chunking independence: two delta streams that differ only in how their fields are
      put into frames and where their text and reasoning are cut (tool-call frames
      between them included) leave the client with the same visible stream, the same
      tool calls and the same finish reason. */
  lemma CutsAreInvisible(ds: seq<Delta>, es: seq<Delta>, decode: Decoder, fallback: bool)
    requires Atoms(ds) == Atoms(es)
    ensures var x, y := Flushed(RunOf(START, ds, fallback), decode, fallback),
        Flushed(RunOf(START, es, fallback), decode, fallback);
            Visible(x.chunks) == Visible(y.chunks) && x.calls == y.calls && FinishReasonOf(x) == FinishReasonOf(y)
  {
    hide RunOf, Atoms, Flushed;
    RunIsRunOfAtoms(START, ds, fallback);
    RunIsRunOfAtoms(START, es, fallback);
    FlushedAlike(RunOf(START, ds, fallback), RunOf(START, es, fallback), decode, fallback);
  }

  lemma NothingParsed(decode: Decoder)
    ensures ParsedCalls(decode, "") == []
  {
  }

  // ---- The role ----

  /** Exactly the first chunk names the role. */
  ghost predicate RoleIsFirst(s: State) {
    && (s.emitted <==> s.chunks != [])
    && forall i :: 0 <= i < |s.chunks| ==> (s.chunks[i].role != "" <==> i == 0)
  }

  lemma EmittedKeepsRole(s: State, content: string, reasoning: string, fs: seq<Fragment>)
    requires RoleIsFirst(s)
    ensures RoleIsFirst(Emitted(s, content, reasoning, fs))
  {
  }

  lemma AcceptedKeepsRole(s: State, d: Delta, fallback: bool)
    requires RoleIsFirst(s)
    ensures RoleIsFirst(Accepted(s, d, fallback))
  {
    hide AppendedAll, IsPotential, Join, Emitted, Discarded, WithContent;
    var s1 := WithHeader(s, d);
    EmittedKeepsRole(s1, "", d.reasoning, []);
    var m := WithMeta(s, d);
    DiscardedKeepsRole(m, fallback);
    var x := Discarded(m, fallback);
    EmittedKeepsRole(x.(calls := AppendedAll(x.calls, d.toolCalls, |d.toolCalls|)), "", "", Indexed(d.toolCalls));
    ContentKeepsRole(m, d.content, fallback);
  }

  lemma DiscardedKeepsRole(s: State, fallback: bool)
    requires RoleIsFirst(s)
    ensures RoleIsFirst(Discarded(s, fallback))
  {
    hide IsPotential, Join, Emitted;
    EmittedKeepsRole(s.(pending := [], streaming := true), Join(s.pending), "", []);
  }

  lemma ContentKeepsRole(s: State, content: string, fallback: bool)
    requires RoleIsFirst(s)
    ensures RoleIsFirst(WithContent(s, content, fallback))
  {
    hide IsPotential, Join, Emitted;
    EmittedKeepsRole(s.(streaming := true), content, "", []);
    EmittedKeepsRole(s.(pending := [], streaming := true), Join(s.pending + [content]), "", []);
  }

  /** The first chunk of every stream names the role, and no later one does. */
  lemma {:induction false} RoleGoesFirst(ds: seq<Delta>, decode: Decoder, fallback: bool)
    ensures RoleIsFirst(RunOf(START, ds, fallback)) && RoleIsFirst(Flushed(RunOf(START, ds, fallback), decode,
        fallback))
  {
    hide Accepted, AppendedAll, ParsedCalls, Join;
    if |ds| > 0 {
      RoleGoesFirst(ds[..|ds| - 1], decode, fallback);
      AcceptedKeepsRole(RunOf(START, ds[..|ds| - 1], fallback), ds[|ds| - 1], fallback);
    }
  }

  // ---- With tools off every field goes straight through ----

  /** What a frame shows: its reasoning, then its tool calls or its text. */
  function FrameItems(d: Delta): seq<Item> {
    ReasonItems(d.reasoning) + if |d.toolCalls| > 0 then [Tools(Indexed(d.toolCalls))] else TextItems(d.content)
  }

  function Shown(ds: seq<Delta>): seq<Item> {
    if |ds| == 0 then [] else Shown(ds[..|ds| - 1]) + FrameItems(ds[|ds| - 1])
  }

  function LatestRole(ds: seq<Delta>): string {
    if |ds| == 0 then "assistant"
    else if ds[|ds| - 1].role != "" then ds[|ds| - 1].role
    else LatestRole(ds[..|ds| - 1])
  }

  /** The role reported last when the first item was shown. */
  function RoleShown(ds: seq<Delta>): string {
    if |ds| == 0 then ""
    else if Shown(ds[..|ds| - 1]) != [] then RoleShown(ds[..|ds| - 1])
    else LatestRole(ds)
  }

  /** The visible stream when it has begun under a role. */
  function Begun(role: string, items: seq<Item>): seq<Item> {
    if items == [] then [] else [RoleIs(role)] + items
  }

  ghost predicate Straight(s: State, role: string, latest: string, items: seq<Item>) {
    && s.pending == [] && s.role == latest != "" && (s.emitted <==> items != [])
    && Visible(s.chunks) == Begun(role, items)
  }

  /** What one chunk adds to the visible stream, its role aside. */
  function Fields(content: string, reasoning: string, fs: seq<Fragment>): seq<Item> {
    TextItems(content) + ReasonItems(reasoning) + if |fs| > 0 then [Tools(fs)] else []
  }

  lemma ChunkFields(role: string, content: string, reasoning: string, fs: seq<Fragment>)
    ensures ItemsOf(Chunk(role, content, reasoning, fs)) ==
            (if role != "" then [RoleIs(role)] else []) + Fields(content, reasoning, fs)
  {
  }

  lemma FieldsOfOne(content: string, reasoning: string, fs: seq<Fragment>)
    ensures Fields(content, "", []) == TextItems(content)
    ensures Fields("", reasoning, []) == ReasonItems(reasoning)
    ensures |fs| > 0 ==> Fields("", "", fs) == [Tools(fs)]
  {
    assert TextItems("") == [] && ReasonItems("") == [];
  }

  lemma EmitStraight(s: State, role: string, items: seq<Item>, content: string, reasoning: string, fs: seq<Fragment>)
    requires Straight(s, role, s.role, items) && (items == [] ==> role == s.role)
    requires Fields(content, reasoning, fs) != []
    ensures Straight(Emitted(s, content, reasoning, fs), role, s.role, items + Fields(content, reasoning, fs))
  {
    hide Visible, ItemsOf, Fields;
    EmitStep(s, content, reasoning, fs);
    var added := Fields(content, reasoning, fs);
    ChunkFields(if s.emitted then "" else s.role, content, reasoning, fs);
    if items == [] {
      assert items + added == added && [] + ([RoleIs(role)] + added) == [RoleIs(role)] + added;
    } else {
      assert [] + added == added && [RoleIs(role)] + items + added == [RoleIs(role)] + (items + added);
    }
  }

  /** With tools off the client sees, in order, exactly the fields of the frames, once the
      role reported last before the first of them has been named. */
  lemma {:induction false} PassesThrough(ds: seq<Delta>)
    ensures Straight(RunOf(START, ds, false), RoleShown(ds), LatestRole(ds), Shown(ds))
  {
    hide Accepted, FrameItems;
    if |ds| > 0 {
      var n := |ds| - 1;
      PassesThrough(ds[..n]);
      FramePasses(RunOf(START, ds[..n], false), RoleShown(ds[..n]), LatestRole(ds[..n]), Shown(ds[..n]), ds[n]);
    }
  }

  lemma FramePasses(s: State, role: string, latest: string, items: seq<Item>, d: Delta)
    requires Straight(s, role, latest, items)
    ensures var latest' := if d.role != "" then d.role else latest;
            Straight(Accepted(s, d, false), if items != [] then role else latest', latest', items + FrameItems(d))
  {
    hide AppendedAll, Visible, Emitted, Straight, Fields;
    var latest' := if d.role != "" then d.role else latest;
    var role' := if items != [] then role else latest';
    HeaderPasses(s, role, latest, items, d);
    MetaPasses(s, role', latest', items, d);
    var m, shown := WithMeta(s, d), items + ReasonItems(d.reasoning);
    StraightPending(m, role', latest', shown);
    if |d.toolCalls| > 0 {
      var c := m.(calls := AppendedAll(m.calls, d.toolCalls, |d.toolCalls|));
      StraightAlike(m, c, role', latest', shown);
      FieldsOfOne("", "", Indexed(d.toolCalls));
      EmitStraight(c, role', shown, "", "", Indexed(d.toolCalls));
      assert shown + [Tools(Indexed(d.toolCalls))] == items + FrameItems(d);
    } else if d.content != "" {
      StraightAlike(m, m.(streaming := true), role', latest', shown);
      FieldsOfOne(d.content, "", []);
      EmitStraight(m.(streaming := true), role', shown, d.content, "", []);
      assert shown + TextItems(d.content) == items + FrameItems(d);
    } else {
      assert items + FrameItems(d) == shown;
    }
  }

  lemma StraightPending(s: State, role: string, latest: string, items: seq<Item>)
    requires Straight(s, role, latest, items)
    ensures s.pending == [] && s.role == latest
  {
  }

  lemma StraightAlike(x: State, y: State, role: string, latest: string, items: seq<Item>)
    requires Straight(x, role, latest, items)
    requires x.pending == y.pending && x.role == y.role && x.emitted == y.emitted && x.chunks == y.chunks
    ensures Straight(y, role, latest, items)
  {
  }

  lemma HeaderPasses(s: State, role: string, latest: string, items: seq<Item>, d: Delta)
    requires Straight(s, role, latest, items)
    ensures var latest' := if d.role != "" then d.role else latest;
            Straight(WithHeader(s, d), if items != [] then role else latest', latest', items)
  {
    hide Visible;
  }

  lemma MetaPasses(s: State, role: string, latest: string, items: seq<Item>, d: Delta)
    requires Straight(WithHeader(s, d), role, latest, items) && (items == [] ==> role == latest)
    ensures Straight(WithMeta(s, d), role, latest, items + ReasonItems(d.reasoning))
  {
    hide Visible, Straight, Emitted, Fields;
    StraightPending(WithHeader(s, d), role, latest, items);
    if d.reasoning != "" {
      FieldsOfOne("", d.reasoning, []);
      EmitStraight(WithHeader(s, d), role, items, "", d.reasoning, []);
    } else {
      assert items + ReasonItems("") == items;
    }
  }
}
