/** Streamed delivery against the one-shot response, and what text streaming loses. */
module Delivery {
  import opened Common
  import opened ToolCalls
  import opened StreamText
  import opened StreamAccumulator
  import opened Chunking
  import opened ClientCalls

  // ---- Text kept and lost by streaming ----

  function TextOf(items: seq<Item>): string {
    if |items| == 0 then ""
    else
      var last := items[|items| - 1];
      TextOf(items[..|items| - 1]) + if last.TextChar? then [last.c] else ""
  }

  function ReasonOf(items: seq<Item>): string {
    if |items| == 0 then ""
    else
      var last := items[|items| - 1];
      ReasonOf(items[..|items| - 1]) + if last.ReasonChar? then [last.c] else ""
  }

  lemma {:induction false} TextConcat(a: seq<Item>, b: seq<Item>)
    ensures TextOf(a + b) == TextOf(a) + TextOf(b)
  {
    if |b| == 0 {
      assert a + b == a;
    } else {
      TextConcat(a, b[..|b| - 1]);
      assert (a + b)[..|a + b| - 1] == a + b[..|b| - 1];
    }
  }

  lemma {:induction false} ReasonConcat(a: seq<Item>, b: seq<Item>)
    ensures ReasonOf(a + b) == ReasonOf(a) + ReasonOf(b)
  {
    if |b| == 0 {
      assert a + b == a;
    } else {
      ReasonConcat(a, b[..|b| - 1]);
      assert (a + b)[..|a + b| - 1] == a + b[..|b| - 1];
    }
  }

  lemma ProjectionsConcat(a: seq<Item>, b: seq<Item>)
    ensures TextOf(a + b) == TextOf(a) + TextOf(b)
    ensures ReasonOf(a + b) == ReasonOf(a) + ReasonOf(b)
  {
    TextConcat(a, b);
    ReasonConcat(a, b);
  }

  lemma {:induction false} ProjectionsOfText(s: string)
    ensures TextOf(TextItems(s)) == s && ReasonOf(TextItems(s)) == ""
    ensures ReasonOf(ReasonItems(s)) == s && TextOf(ReasonItems(s)) == ""
  {
    if s != "" {
      var n := |s| - 1;
      ProjectionsOfText(s[..n]);
      assert TextItems(s)[..n] == TextItems(s[..n]) && ReasonItems(s)[..n] == ReasonItems(s[..n]);
    }
  }

  lemma ProjectionsOfOne(item: Item)
    requires !item.TextChar? && !item.ReasonChar?
    ensures TextOf([item]) == "" && ReasonOf([item]) == ""
  {
    assert TextOf([item][..0]) == "" && ReasonOf([item][..0]) == "";
  }

  lemma ProjectionsOfChunk(c: Chunk)
    ensures TextOf(ItemsOf(c)) == c.content && ReasonOf(ItemsOf(c)) == c.reasoning
  {
    hide TextOf, ReasonOf;
    var role: seq<Item> := if c.role != "" then [RoleIs(c.role)] else [];
    var tools: seq<Item> := if |c.toolCalls| > 0 then [Tools(c.toolCalls)] else [];
    var text, reason := TextItems(c.content), ReasonItems(c.reasoning);
    ProjectionsOfText("");
    assert TextItems("") == [];
    ProjectionsOfOne(RoleIs(c.role));
    ProjectionsOfOne(Tools(c.toolCalls));
    ProjectionsOfText(c.content);
    ProjectionsOfText(c.reasoning);
    ProjectionsConcat(role, text);
    ProjectionsConcat(role + text, reason);
    ProjectionsConcat(role + text + reason, tools);
    assert "" + c.content + "" + "" == c.content && "" + "" + c.reasoning + "" == c.reasoning;
  }

  /** The text the client has or will get, and the reasoning it has. */
  function TextSoFar(s: State): string { TextOf(Visible(s.chunks)) + Join(s.pending) }

  function ReasonSoFar(s: State): string { ReasonOf(Visible(s.chunks)) }

  lemma EmitProjects(s: State, content: string, reasoning: string, fs: seq<Fragment>)
    ensures var s' := Emitted(s, content, reasoning, fs);
            && TextOf(Visible(s'.chunks)) == TextOf(Visible(s.chunks)) + content
            && ReasonSoFar(s') == ReasonSoFar(s) + reasoning
            && s'.pending == s.pending
  {
    var role := if s.emitted then "" else if s.role == "" then "assistant" else s.role;
    EmitStep(s, content, reasoning, fs);
    hide Visible, ItemsOf;
    ProjectionsOfChunk(Chunk(role, content, reasoning, fs));
    ProjectionsConcat(Visible(s.chunks), ItemsOf(Chunk(role, content, reasoning, fs)));
  }

  lemma MetaProjects(s: State, d: Delta)
    ensures var s' := WithMeta(s, d); TextSoFar(s') == TextSoFar(s) && ReasonSoFar(s') == ReasonSoFar(s) + d.reasoning
                                      && s'.pending == s.pending
  {
    var s1 := WithHeader(s, d);
    EmitProjects(s1, "", d.reasoning, []);
    assert TextOf(Visible(s.chunks)) + "" == TextOf(Visible(s.chunks));
    assert ReasonSoFar(s) + "" == ReasonSoFar(s);
  }

  /** Once text streams, or when nothing is ever held back, the buffer is empty. */
  ghost predicate Flowing(s: State, fallback: bool) {
    s.streaming || !fallback ==> s.pending == []
  }

  lemma ContentProjects(s: State, content: string, fallback: bool)
    requires Flowing(s, fallback)
    ensures var s' := WithContent(s, content, fallback);
            TextSoFar(s') == TextSoFar(s) + content && ReasonSoFar(s') == ReasonSoFar(s) && Flowing(s', fallback)
  {
    hide Visible, IsPotential, Emitted, TextOf, ReasonOf;
    JoinStep(s.pending, content);
    var text := Join(s.pending) + content;
    assert TextOf(Visible(s.chunks)) + text == TextSoFar(s) + content;
    assert TextSoFar(s) + "" == TextSoFar(s) && ReasonSoFar(s) + "" == ReasonSoFar(s);
    EmitProjects(s.(streaming := true), content, "", []);
    EmittedKeeps(s.(streaming := true), content, "", []);
    EmitProjects(s.(pending := [], streaming := true), text, "", []);
    EmittedKeeps(s.(pending := [], streaming := true), text, "", []);
  }

  /** A frame with real tool calls drops the text it carries itself, and the text held
      back if that may be a written tool call. */
  predicate LosesText(s: State, d: Delta, fallback: bool) {
    |d.toolCalls| > 0 && (d.content != "" || (fallback && Join(s.pending) != "" && IsPotential(Join(s.pending))))
  }

  lemma AcceptProjects(s: State, d: Delta, fallback: bool)
    requires Flowing(s, fallback) && Proper(s)
    ensures var s' := Accepted(s, d, fallback);
            && ReasonSoFar(s') == ReasonSoFar(s) + d.reasoning
            && Flowing(s', fallback) && Proper(s')
            && |TextSoFar(s')| <= |TextSoFar(s)| + |d.content|
            && if LosesText(s, d, fallback) then |TextSoFar(s')| < |TextSoFar(s)| + |d.content|
               else TextSoFar(s') == TextSoFar(s) + d.content
  {
    hide Visible, IsPotential, Emitted, TextOf, ReasonOf, WithContent, WithMeta, AppendedAll;
    AcceptedAlike(s, s, d, fallback);
    MetaProjects(s, d);
    MetaKeeps(s, d);
    var m := WithMeta(s, d);
    if |d.toolCalls| > 0 {
      JoinEmptyIff(s);
      var text := Join(s.pending);
      EmitProjects(m.(pending := [], streaming := true), text, "", []);
      EmittedKeeps(m.(pending := [], streaming := true), text, "", []);
      var s1 := Discarded(m, fallback);
      var s2 := s1.(calls := AppendedAll(s1.calls, d.toolCalls, |d.toolCalls|));
      EmitProjects(s2, "", "", Indexed(d.toolCalls));
      EmittedKeeps(s2, "", "", Indexed(d.toolCalls));
      assert ReasonSoFar(m) + "" + "" == ReasonSoFar(m) && TextOf(Visible(m.chunks)) + text == TextSoFar(s);
    } else {
      ContentProjects(m, d.content, fallback);
    }
  }

  lemma MetaKeeps(s: State, d: Delta)
    ensures WithMeta(s, d).streaming == s.streaming && WithMeta(s, d).pending == s.pending
  {
  }

  function Contents(ds: seq<Delta>): string {
    if |ds| == 0 then "" else Contents(ds[..|ds| - 1]) + ds[|ds| - 1].content
  }

  function Reasonings(ds: seq<Delta>): string {
    if |ds| == 0 then "" else Reasonings(ds[..|ds| - 1]) + ds[|ds| - 1].reasoning
  }

  predicate LosesNothing(ds: seq<Delta>, fallback: bool) {
    forall k :: 0 <= k < |ds| ==> !LosesText(RunOf(START, ds[..k], fallback), ds[k], fallback)
  }

  lemma LosesNothingStep(ds: seq<Delta>, fallback: bool)
    requires |ds| > 0
    ensures var n := |ds| - 1;
            LosesNothing(ds, fallback) <==>
            LosesNothing(ds[..n], fallback) && !LosesText(RunOf(START, ds[..n], fallback), ds[n], fallback)
  {
    hide RunOf, LosesText;
    var n := |ds| - 1;
    forall k | 0 <= k < n
      ensures ds[..n][..k] == ds[..k] && ds[..n][k] == ds[k]
    {
    }
    if LosesNothing(ds[..n], fallback) && !LosesText(RunOf(START, ds[..n], fallback), ds[n], fallback) {
      forall k | 0 <= k < |ds|
        ensures !LosesText(RunOf(START, ds[..k], fallback), ds[k], fallback)
      {
        if k < n {
          assert !LosesText(RunOf(START, ds[..n][..k], fallback), ds[..n][k], fallback);
        }
      }
    }
  }

  /** In every stream all reasoning is delivered; all text is delivered or still held
      exactly when no frame with real tool calls dropped any. */
  lemma {:induction false} TextIsKeptIff(ds: seq<Delta>, fallback: bool)
    ensures var s := RunOf(START, ds, fallback);
            && Flowing(s, fallback) && Proper(s)
            && ReasonSoFar(s) == Reasonings(ds)
            && |TextSoFar(s)| <= |Contents(ds)|
            && (TextSoFar(s) == Contents(ds) <==> LosesNothing(ds, fallback))
  {
    hide Accepted, TextOf, ReasonOf, LosesText, Visible;
    if |ds| == 0 {
      NothingSoFar();
    } else {
      var n := |ds| - 1;
      TextIsKeptIff(ds[..n], fallback);
      var s := RunOf(START, ds[..n], fallback);
      AcceptProjects(s, ds[n], fallback);
      LosesNothingStep(ds, fallback);
      hide LosesNothing;
      SameEnds(TextSoFar(s), Contents(ds[..n]), ds[n].content);
    }
  }

  lemma SameEnds(a: string, b: string, c: string)
    requires |a| <= |b|
    ensures a + c == b + c <==> a == b
  {
    if a + c == b + c {
      assert |a| == |b|;
      assert a == (a + c)[..|a|] && b == (b + c)[..|b|];
    }
  }

  lemma NothingSoFar()
    ensures TextSoFar(START) == "" && ReasonSoFar(START) == ""
  {
  }

  // ---- The one-shot response ----

  /** The message of a non-streaming response; None is JSON null. */
  datatype Message = Message(content: Option<string>, reasoning: Option<string>, toolCalls: seq<ToolCall>,
      finish: string)

  /** The message built from what the stream brought in. */
  function MessageOf(text: string, reasonings: seq<string>, calls: seq<ToolCall>, decode: Decoder,
      enabled: bool): Message {
    var written := if |calls| == 0 && enabled then ParsedCalls(decode, text) else [];
    Message(
      if written != [] || (text == "" && |calls| > 0) then None else Some(text),
      if |reasonings| > 0 then Some(Join(reasonings)) else None,
      if |calls| > 0 then calls else written,
      if |calls| > 0 || written != [] then "tool_calls" else "stop")
  }

  /** The reasoning texts a one-shot response collects. */
  function ReasoningsOf(ds: seq<Delta>): seq<string> {
    if |ds| == 0 then []
    else ReasoningsOf(ds[..|ds| - 1]) + if ds[|ds| - 1].reasoning != "" then [ds[|ds| - 1].reasoning] else []
  }

  lemma {:induction false} ReasoningsJoin(ds: seq<Delta>)
    ensures Join(ReasoningsOf(ds)) == Reasonings(ds)
    ensures |ReasoningsOf(ds)| == 0 ==> Reasonings(ds) == ""
  {
    if |ds| > 0 {
      var n := |ds| - 1;
      ReasoningsJoin(ds[..n]);
      JoinStep(ReasoningsOf(ds[..n]), ds[n].reasoning);
      assert ReasoningsOf(ds[..n]) + [] == ReasoningsOf(ds[..n]);
      assert Reasonings(ds[..n]) + "" == Reasonings(ds[..n]);
    }
  }

  /** The message of the one-shot response to a stream. */
  function OneShot(ds: seq<Delta>, decode: Decoder, enabled: bool): Message {
    var calls := AppendedAll([], FragmentsOf(ds), |FragmentsOf(ds)|);
    MessageOf(Contents(ds), ReasoningsOf(ds), calls, decode, enabled)
  }

  /** The state at the end of a streamed response. */
  function AtEnd(ds: seq<Delta>, decode: Decoder, enabled: bool): State {
    Flushed(RunOf(START, ds, enabled), decode, enabled)
  }

  /** The last finish reason reported. */
  function LastFinish(ds: seq<Delta>): string {
    if |ds| == 0 then ""
    else if ds[|ds| - 1].finish != "" then ds[|ds| - 1].finish
    else LastFinish(ds[..|ds| - 1])
  }

  lemma AcceptKeepsFinish(s: State, d: Delta, fallback: bool)
    ensures Accepted(s, d, fallback).finish == if d.finish != "" then d.finish else s.finish
  {
    hide AppendedAll, IsPotential, Join;
  }

  lemma {:induction false} RunKeepsFinish(ds: seq<Delta>, fallback: bool)
    ensures RunOf(START, ds, fallback).finish == LastFinish(ds)
  {
    hide Accepted;
    if |ds| > 0 {
      RunKeepsFinish(ds[..|ds| - 1], fallback);
      AcceptKeepsFinish(RunOf(START, ds[..|ds| - 1], fallback), ds[|ds| - 1], fallback);
    }
  }

  /** What the flush at the end does: parse the held text as a written tool call, or
      show it. */
  lemma FlushProjects(s: State, decode: Decoder, fallback: bool)
    requires Proper(s)
    ensures var s' := Flushed(s, decode, fallback);
            var held := Join(s.pending);
            var parsed := if fallback then ParsedCalls(decode, held) else [];
            && ReasonSoFar(s') == ReasonSoFar(s) && s'.finish == s.finish
            && s'.calls == AppendedAll(s.calls, AsFragments(parsed), |parsed|)
            && (parsed != [] ==> held != "" && TextOf(Visible(s'.chunks)) == TextOf(Visible(s.chunks))
                                 && CallsSoFar(s') == Rebuilt(CallsSoFar(s), Indexed(AsFragments(parsed)), |parsed|))
            && (parsed == [] ==> TextOf(Visible(s'.chunks)) == TextSoFar(s) && CallsSoFar(s') == CallsSoFar(s))
  {
    hide ParsedCalls, Visible, TextOf, ReasonOf, AppendedAll, Rebuilt, ReadFrom, Join, Emitted;
    var held := Join(s.pending);
    JoinEmptyIff(s);
    NothingParsed(decode);
    var parsed := if fallback then ParsedCalls(decode, held) else [];
    var fs := AsFragments(parsed);
    AppendedFromNone(s.calls);
    assert AsFragments([]) == [];
    var called, shown := s.(pending := [], calls := AppendedAll(s.calls, fs, |fs|)),
        s.(pending := [], streaming := true);
    SameChunksReadSame(called, s);
    SameChunksReadSame(shown, s);
    EmitProjects(called, "", "", Indexed(fs));
    EmitProjects(shown, held, "", []);
    EmitReads(called, "", "", Indexed(fs));
    EmitReads(shown, held, "", []);
    FlushedFinish(s, decode, fallback);
    EmittedKeeps(called, "", "", Indexed(fs));
    EmittedKeeps(shown, held, "", []);
    assert TextOf(Visible(s.chunks)) + "" == TextOf(Visible(s.chunks)) && ReasonSoFar(s) + "" == ReasonSoFar(s);
  }

  lemma FlushedFinish(s: State, decode: Decoder, fallback: bool)
    ensures Flushed(s, decode, fallback).finish == s.finish
  {
    hide ParsedCalls, AppendedAll, Join;
  }

  /** No frame carries tool calls. */
  predicate ContentOnly(ds: seq<Delta>) {
    forall k :: 0 <= k < |ds| ==> ds[k].toolCalls == []
  }

  lemma {:induction false} ContentOnlyFragments(ds: seq<Delta>)
    requires ContentOnly(ds)
    ensures FragmentsOf(ds) == [] && EmittedOf(ds) == []
  {
    if |ds| > 0 {
      ContentOnlyFragments(ds[..|ds| - 1]);
    }
  }

  lemma ContentOnlyLosesNothing(ds: seq<Delta>, fallback: bool)
    requires ContentOnly(ds)
    ensures LosesNothing(ds, fallback)
  {
    hide RunOf;
  }

  /** The text is all held while it may be a written tool call, and all shown once it
      cannot be one any more. */
  ghost predicate HeldOrShown(s: State, text: string, fallback: bool) {
    if s.streaming || !fallback then s.pending == [] && (fallback ==> !IsPotential(text))
    else TextOf(Visible(s.chunks)) == "" && (text != "" ==> IsPotential(text))
  }

  lemma ContentHeldOrShown(s: State, text: string, content: string, fallback: bool)
    requires HeldOrShown(s, text, fallback) && TextSoFar(s) == text
    ensures HeldOrShown(WithContent(s, content, fallback), text + content, fallback)
  {
    hide Visible, IsPotential, TextOf, Emitted;
    assert text + "" == text && "" + Join(s.pending) == Join(s.pending);
    if content != "" {
      JoinStep(s.pending, content);
      var flowing, shown := s.(streaming := true), s.(pending := [], streaming := true);
      EmittedKeeps(flowing, content, "", []);
      EmittedKeeps(shown, Join(s.pending + [content]), "", []);
      if fallback && s.streaming && IsPotential(text + content) {
        PotentialIsPrefixClosed(text, content);
      }
    }
  }

  lemma AcceptHeldOrShown(s: State, text: string, d: Delta, fallback: bool)
    requires d.toolCalls == [] && HeldOrShown(s, text, fallback) && TextSoFar(s) == text
    ensures HeldOrShown(Accepted(s, d, fallback), text + d.content, fallback)
  {
    hide WithMeta, WithContent, Visible, IsPotential, TextOf, Join;
    MetaProjects(s, d);
    MetaKeeps(s, d);
    ContentHeldOrShown(WithMeta(s, d), text, d.content, fallback);
  }

  lemma {:induction false} RunHeldOrShown(ds: seq<Delta>, fallback: bool)
    requires ContentOnly(ds)
    ensures HeldOrShown(RunOf(START, ds, fallback), Contents(ds), fallback)
  {
    hide Accepted, HeldOrShown, TextSoFar;
    if |ds| == 0 {
      NothingHeldOrShown(fallback);
    } else {
      var n := |ds| - 1;
      RunHeldOrShown(ds[..n], fallback);
      TextIsKeptIff(ds[..n], fallback);
      ContentOnlyLosesNothing(ds[..n], fallback);
      AcceptHeldOrShown(RunOf(START, ds[..n], fallback), Contents(ds[..n]), ds[n], fallback);
    }
  }

  lemma NothingHeldOrShown(fallback: bool)
    ensures HeldOrShown(START, "", fallback)
  {
    assert !START.streaming && START.pending == [];
    NothingSoFar();
  }

  /** The outcome of a stream without tool-call frames, whatever roles, finish reasons
      and reasoning its frames carry: all reasoning, and either the whole text or only
      the tool calls written in it. The text and calls depend on the whole text alone. */
  lemma TextOutcome(ds: seq<Delta>, decode: Decoder, enabled: bool)
    requires ContentOnly(ds)
    ensures var s, text := AtEnd(ds, decode, enabled), Contents(ds);
            var parsed := if enabled && IsPotential(text) then ParsedCalls(decode, text) else [];
            && ReasonSoFar(s) == Reasonings(ds) && s.finish == LastFinish(ds)
            && TextOf(Visible(s.chunks)) == (if parsed != [] then "" else text)
            && CallsSoFar(s) == AsMap(parsed)
            && s.calls == AppendedAll([], AsFragments(parsed), |parsed|)
  {
    hide ParsedCalls, IsPotential, Visible, TextOf, ReasonOf, AppendedAll, Rebuilt, ReadFrom, RunOf, Flushed, Join;
    hide Contents, Reasonings, LastFinish, FragmentsOf, EmittedOf, LosesNothing, ContentOnly, Proper;
    var s0, text := RunOf(START, ds, enabled), Contents(ds);
    TextIsKeptIff(ds, enabled);
    ContentOnlyLosesNothing(ds, enabled);
    RunHeldOrShown(ds, enabled);
    RunKeepsFinish(ds, enabled);
    ContentOnlyFragments(ds);
    RunReads(ds, enabled);
    RebuiltFromNone(map[]);
    AppendedFromNone([]);
    FlushProjects(s0, decode, enabled);
    JoinOfNone();
    NothingParsed(decode);
    assert "" + Join(s0.pending) == Join(s0.pending);
    var parsed := if enabled && IsPotential(text) then ParsedCalls(decode, text) else [];
    ParsedCallsArrive(parsed, |parsed|);
  }

  lemma JoinOfNone()
    ensures Join([]) == ""
  {
  }

  /** Streaming agrees with the one-shot response: on every stream without tool-call
      frames both deliver the same reasoning always, and the same text and the same tool
      calls exactly unless tools are enabled and the text is a written tool call indented
      by white space other than the four blanks. The finish reasons are the same
      exactly if, in addition, the upstream reported none, or the one they name. */
  lemma StreamingAgreesIff(ds: seq<Delta>, decode: Decoder, enabled: bool)
    requires ContentOnly(ds)
    ensures var s, m := AtEnd(ds, decode, enabled), OneShot(ds, decode, enabled);
            var written := enabled && ParsedCalls(decode, Contents(ds)) != [];
            var odd := OddlyIndented(Contents(ds));
            && ReasonSoFar(s) == Or(m.reasoning, "")
            && ((TextOf(Visible(s.chunks)) == Or(m.content, "") && CallsSoFar(s) == AsMap(m.toolCalls)) <==>
                !(written && odd))
            && (FinishReasonOf(s) == m.finish <==>
                if written then !odd || LastFinish(ds) == "tool_calls" else LastFinish(ds) in {"", "stop"})
  {
    hide ParsedCalls, IsPotential, OddlyIndented, Visible, TextOf, ReasonOf, AppendedAll, Rebuilt, ReadFrom, AtEnd,
        Join;
    var text := Contents(ds);
    var parsed := ParsedCalls(decode, text);
    TextOutcome(ds, decode, enabled);
    ContentOnlyFragments(ds);
    AppendedFromNone([]);
    ReasoningsJoin(ds);
    NothingParsed(decode);
    if parsed != [] {
      ParsedButNotPotentialIff(decode, text);
    }
    SomeCallsAppended(AsFragments(parsed));
    assert AsFragments([]) == [];
  }

  /** The finish reason a stream ends with: "tool_calls" if it ends with calls, and else the
      last reason the upstream reported, or "stop" if it reported none. */
  lemma FinishIsReported(ds: seq<Delta>, decode: Decoder, enabled: bool)
    ensures var s := AtEnd(ds, decode, enabled);
            FinishReasonOf(s) ==
            if s.calls != [] then "tool_calls" else if LastFinish(ds) != "" then LastFinish(ds) else "stop"
  {
    hide RunOf;
    RunKeepsFinish(ds, enabled);
    FlushedFinish(RunOf(START, ds, enabled), decode, enabled);
  }

  /** No frame carries anything to show. */
  predicate NothingToShow(ds: seq<Delta>) {
    forall k :: 0 <= k < |ds| ==> ds[k].content == "" && ds[k].reasoning == "" && ds[k].toolCalls == []
  }

  predicate Quiet(s: State) {
    s.chunks == [] && s.pending == []
  }

  lemma AcceptIsQuietIff(s: State, d: Delta, fallback: bool)
    ensures Quiet(Accepted(s, d, fallback)) <==>
            Quiet(s) && d.content == "" && d.reasoning == "" && d.toolCalls == []
  {
    hide AppendedAll, IsPotential, Join;
  }

  lemma {:induction false} RunIsQuietIff(ds: seq<Delta>, fallback: bool)
    ensures Quiet(RunOf(START, ds, fallback)) <==> NothingToShow(ds)
  {
    hide Accepted, Quiet;
    if |ds| == 0 {
      assert Quiet(START) by {
        NothingYet();
      }
    } else {
      var n := |ds| - 1;
      RunIsQuietIff(ds[..n], fallback);
      AcceptIsQuietIff(RunOf(START, ds[..n], fallback), ds[n], fallback);
      assert NothingToShow(ds) <==>
        NothingToShow(ds[..n]) && ds[n].content == "" && ds[n].reasoning == "" && ds[n].toolCalls == [];
    }
  }

  lemma NothingYet()
    ensures Quiet(START)
  {
  }

  /** A stream ends without a chunk exactly when no frame carried text, reasoning or tool
      calls. */
  lemma NoChunksIff(ds: seq<Delta>, decode: Decoder, enabled: bool)
    ensures AtEnd(ds, decode, enabled).chunks == [] <==> NothingToShow(ds)
  {
    hide RunOf, AppendedAll, ParsedCalls, Join;
    RunIsQuietIff(ds, enabled);
  }

  /** What the one-shot message says of itself: it finishes with tool calls exactly if it
      has some; its content is null exactly if it has some and there is no text beside
      them, or the text was those calls; its reasoning is absent exactly if there was none. */
  lemma MessageShape(ds: seq<Delta>, decode: Decoder, enabled: bool)
    ensures var m := OneShot(ds, decode, enabled);
            && m.finish == (if m.toolCalls != [] then "tool_calls" else "stop")
            && (m.content == None <==> m.toolCalls != [] && (Contents(ds) == "" || FragmentsOf(ds) == []))
            && (m.content != None ==> m.content == Some(Contents(ds)))
            && (m.reasoning == None <==> Reasonings(ds) == "")
            && (FragmentsOf(ds) == [] ==> m.toolCalls == if enabled then ParsedCalls(decode, Contents(ds)) else [])
            && (FragmentsOf(ds) != [] ==> m.toolCalls == AppendedAll([], FragmentsOf(ds), |FragmentsOf(ds)|))
  {
    hide ParsedCalls, AppendedAll, Join;
    ReasoningsJoin(ds);
    ReasoningsEmptyIff(ds);
    SomeCallsAppended(FragmentsOf(ds));
    AppendedFromNone([]);
  }

  lemma {:induction false} ReasoningsEmptyIff(ds: seq<Delta>)
    ensures ReasoningsOf(ds) == [] <==> Reasonings(ds) == ""
  {
    if |ds| > 0 {
      ReasoningsEmptyIff(ds[..|ds| - 1]);
    }
  }

  /** The text held at the end parses as a written tool call. */
  predicate ParsesHeld(ds: seq<Delta>, decode: Decoder, enabled: bool) {
    enabled && ParsedCalls(decode, Join(RunOf(START, ds, enabled).pending)) != []
  }

  /** On a stream with tool calls in its frames both name "tool_calls" and deliver the
      same reasoning; the text is the same and the accumulator ends with the calls of the
      one-shot response exactly if no frame dropped text and the rest held back is not a
      written tool call of its own. The client ends with the calls of the one-shot response
      exactly if, index by index, what it was sent merges to them. */
  lemma ToolStreamsAgreeIff(ds: seq<Delta>, decode: Decoder, enabled: bool)
    requires FragmentsOf(ds) != []
    ensures var s, m := AtEnd(ds, decode, enabled), OneShot(ds, decode, enabled);
            && ReasonSoFar(s) == Or(m.reasoning, "") && FinishReasonOf(s) == m.finish == "tool_calls"
            && ((TextOf(Visible(s.chunks)) == Or(m.content, "") && s.calls == m.toolCalls) <==>
                LosesNothing(ds, enabled) && !ParsesHeld(ds, decode, enabled))
            && (CallsSoFar(s) == AsMap(m.toolCalls) <==> EndTheSame(FragmentsOf(ds), AllEmitted(ds, decode, enabled)))
            && (!ParsesHeld(ds, decode, enabled) && AllInStep(FragmentsOf(ds), EmittedOf(ds)) ==>
                CallsSoFar(s) == AsMap(m.toolCalls))
  {
    hide AtEnd, OneShot, LosesNothing, ParsesHeld, CallsSoFar, AllInStep, FragmentsOf, EmittedOf, AppendedAll, AsMap;
    hide AllEmitted, EndTheSame, Rebuilt;
    OneShotOfTools(ds, decode, enabled);
    ToolStreamEnds(ds, decode, enabled);
    ClientAtEnd(ds, decode, enabled);
    EndsTheSameIff(FragmentsOf(ds), AllEmitted(ds, decode, enabled));
    if AllInStep(FragmentsOf(ds), EmittedOf(ds)) {
      ClientHasAllCalls(ds, enabled);
    }
  }

  /** Every fragment the client is sent, those of the flush included. */
  function AllEmitted(ds: seq<Delta>, decode: Decoder, enabled: bool): seq<Fragment> {
    var held := Join(RunOf(START, ds, enabled).pending);
    EmittedOf(ds) + if ParsesHeld(ds, decode, enabled) then Indexed(AsFragments(ParsedCalls(decode, held))) else []
  }

  lemma ClientAtEnd(ds: seq<Delta>, decode: Decoder, enabled: bool)
    ensures CallsSoFar(AtEnd(ds, decode, enabled)) ==
            Rebuilt(map[], AllEmitted(ds, decode, enabled), |AllEmitted(ds, decode, enabled)|)
  {
    hide ParsedCalls, Visible, AppendedAll, Rebuilt, ReadFrom, RunOf, Flushed, Join, EmittedOf, TextOf, ReasonOf;
    var s := RunOf(START, ds, enabled);
    TextIsKeptIff(ds, enabled);
    RunReads(ds, enabled);
    FlushProjects(s, decode, enabled);
    var parsed := if enabled then ParsedCalls(decode, Join(s.pending)) else [];
    var more := Indexed(AsFragments(parsed));
    RebuiltConcat(map[], EmittedOf(ds), more, |more|);
    assert EmittedOf(ds) + [] == EmittedOf(ds);
  }

  lemma OneShotOfTools(ds: seq<Delta>, decode: Decoder, enabled: bool)
    requires FragmentsOf(ds) != []
    ensures var m := OneShot(ds, decode, enabled);
            && Or(m.reasoning, "") == Reasonings(ds) && Or(m.content, "") == Contents(ds) && m.finish == "tool_calls"
            && m.toolCalls == AppendedAll([], FragmentsOf(ds), |FragmentsOf(ds)|) != []
  {
    hide ParsedCalls, AppendedAll, Join;
    SomeCallsAppended(FragmentsOf(ds));
    ReasoningsJoin(ds);
  }

  lemma ToolStreamEnds(ds: seq<Delta>, decode: Decoder, enabled: bool)
    requires FragmentsOf(ds) != []
    ensures var s, calls := AtEnd(ds, decode, enabled), AppendedAll([], FragmentsOf(ds), |FragmentsOf(ds)|);
            && ReasonSoFar(s) == Reasonings(ds) && FinishReasonOf(s) == "tool_calls"
            && (TextOf(Visible(s.chunks)) == Contents(ds) <==>
                LosesNothing(ds, enabled) && !ParsesHeld(ds, decode, enabled))
            && (!ParsesHeld(ds, decode, enabled) ==>
                s.calls == calls && CallsSoFar(s) == CallsSoFar(RunOf(START, ds, enabled)))
  {
    hide ParsedCalls, Visible, TextOf, ReasonOf, AppendedAll, Rebuilt, ReadFrom, RunOf, Flushed, Join, LosesNothing;
    var s0 := RunOf(START, ds, enabled);
    TextIsKeptIff(ds, enabled);
    RunReads(ds, enabled);
    SomeCallsAppended(FragmentsOf(ds));
    FlushProjects(s0, decode, enabled);
    var held := Join(s0.pending);
    var parsed := if enabled then ParsedCalls(decode, held) else [];
    AppendedFromNone(s0.calls);
    assert AsFragments([]) == [];
    NeverFewer(s0.calls, AsFragments(parsed), |parsed|);
    assert held != "" ==> |TextOf(Visible(s0.chunks))| < |TextSoFar(s0)|;
  }

  lemma {:induction false} NeverFewer(calls: seq<ToolCall>, fs: seq<Fragment>, n: nat)
    requires n <= |fs|
    ensures |AppendedAll(calls, fs, n)| >= |calls|
  {
    if n > 0 {
      NeverFewer(calls, fs, n - 1);
    }
  }

  lemma SomeCallsAppended(fs: seq<Fragment>)
    ensures |fs| > 0 ==> |AppendedAll([], fs, |fs|)| > 0
  {
    if |fs| > 0 {
      SomeCallsFrom(fs, |fs|);
    }
  }

  lemma {:induction false} SomeCallsFrom(fs: seq<Fragment>, n: nat)
    requires 1 <= n <= |fs|
    ensures |AppendedAll([], fs, n)| > 0
  {
    if n > 1 {
      SomeCallsFrom(fs, n - 1);
    } else {
      assert AppendedAll([], fs, 0) == [];
    }
  }

  lemma ParsedAfterTrim(decode: Decoder, a: string, b: string)
    requires a != "" && b != "" && TrimSpace(a) == TrimSpace(b)
    ensures ParsedCalls(decode, a) == ParsedCalls(decode, b)
  {
    hide TrimSpace, Unfenced;
  }

  lemma TrimLeftSkips(c: char, text: string)
    requires IsSpace(c)
    ensures TrimLeft([c] + text, IsSpace) == TrimLeft(text, IsSpace)
  {
    hide IsSpace;
    var odd, n := [c] + text, Leading(text, IsSpace);
    forall i | 0 <= i < n + 1
      ensures IsSpace(odd[i])
    {
      assert i > 0 ==> odd[i] == text[i - 1];
    }
    assert n < |text| ==> odd[n + 1] == text[n];
    TrimLeftUnique(odd, IsSpace, n + 1);
    assert odd[n + 1..] == text[n..];
  }

  /** Every written tool call has oddly indented variants, on which the two disagree. */
  lemma OddVariant(decode: Decoder, c: char, text: string)
    requires ParsedCalls(decode, text) != [] && IsSpace(c) && !IsBlank(c)
    ensures ParsedCalls(decode, [c] + text) == ParsedCalls(decode, text) && OddlyIndented([c] + text)
  {
    NothingParsed(decode);
    hide ParsedCalls, IsSpace, TrimRight;
    TrimLeftUnique([c] + text, IsBlank, 0);
    TrimLeftSkips(c, text);
    ParsedAfterTrim(decode, [c] + text, text);
  }
}
