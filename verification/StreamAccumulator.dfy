/** The streaming accumulator: it forwards deltas as chunks, holding back text that
    may turn out to be a written tool call. */
module StreamAccumulator {
  import opened Common
  import opened ToolCalls
  import opened StreamText

  datatype Delta = Delta(role: string, content: string, reasoning: string, finish: string, toolCalls: seq<Fragment>)

  /** One emitted chunk; empty fields are absent from the frame. */
  datatype Chunk = Chunk(role: string, content: string, reasoning: string, toolCalls: seq<Fragment>)

  datatype State = State(pending: seq<string>, role: string, finish: string, emitted: bool, streaming: bool,
                         calls: seq<ToolCall>, chunks: seq<Chunk>)

  const START := State([], "assistant", "", false, false, [], [])

  function Join(parts: seq<string>): string {
    if |parts| == 0 then "" else Join(parts[..|parts| - 1]) + parts[|parts| - 1]
  }

  /** Missing indices become positions within the delta. */
  function Indexed(fs: seq<Fragment>): (r: seq<Fragment>)
    ensures |r| == |fs|
    ensures forall i :: 0 <= i < |fs| ==> r[i] == fs[i].(index := Some(Or(fs[i].index, i)))
  {
    seq(|fs|, i requires 0 <= i < |fs| => fs[i].(index := Some(Or(fs[i].index, i))))
  }

  /** `ToolsCallsToMaps`. */
  function AsFragments(calls: seq<ToolCall>): (r: seq<Fragment>)
    ensures |r| == |calls|
    ensures forall i :: 0 <= i < |calls| ==>
                          r[i] == Fragment(None, Some(calls[i].id), Some(calls[i].kind), Some(calls[i].name),
                              Some(calls[i].args))
  {
    seq(|calls|, i requires 0 <= i < |calls| =>
      Fragment(None, Some(calls[i].id), Some(calls[i].kind), Some(calls[i].name), Some(calls[i].args)))
  }

  function Emitted(s: State, content: string, reasoning: string, toolCalls: seq<Fragment>): State {
    var role := if s.emitted then "" else if s.role == "" then "assistant" else s.role;
    s.(chunks := s.chunks + [Chunk(role, content, reasoning, toolCalls)], emitted := true)
  }

  /** Buffered text ahead of a real tool call: dropped if it may be a written one. */
  function Discarded(s: State, fallback: bool): State {
    if |s.pending| == 0 then s
    else
      var text := Join(s.pending);
      if fallback && IsPotential(text) then s.(pending := [])
      else Emitted(s.(pending := [], streaming := true), text, "", [])
  }

  /** Role and finish reason are remembered. */
  function WithHeader(s: State, d: Delta): State {
    s.(role := if d.role != "" then d.role else s.role,
       finish := if d.finish != "" then d.finish else s.finish)
  }

  function WithMeta(s: State, d: Delta): State {
    var s := WithHeader(s, d);
    if d.reasoning != "" then Emitted(s, "", d.reasoning, []) else s
  }

  function WithContent(s: State, content: string, fallback: bool): State {
    if content == "" then s
    else if !fallback || s.streaming then Emitted(s.(streaming := true), content, "", [])
    else
      var pending := s.pending + [content];
      if IsPotential(Join(pending)) then s.(pending := pending)
      else Emitted(s.(pending := [], streaming := true), Join(pending), "", [])
  }

  function Accepted(s: State, d: Delta, fallback: bool): State {
    var s := WithMeta(s, d);
    if |d.toolCalls| > 0 then
      var s := Discarded(s, fallback);
      Emitted(s.(calls := AppendedAll(s.calls, d.toolCalls, |d.toolCalls|)), "", "", Indexed(d.toolCalls))
    else WithContent(s, d.content, fallback)
  }

  function Flushed(s: State, decode: Decoder, fallback: bool): State {
    if |s.pending| == 0 then s
    else
      var text := Join(s.pending);
      var parsed := if fallback then ParsedCalls(decode, text) else [];
      if parsed != [] then
        var fs := AsFragments(parsed);
        Emitted(s.(pending := [], calls := AppendedAll(s.calls, fs, |fs|)), "", "", Indexed(fs))
      else Emitted(s.(pending := [], streaming := true), text, "", [])
  }

  function FinishReasonOf(s: State): string {
    if |s.calls| > 0 then "tool_calls" else if s.finish != "" then s.finish else "stop"
  }

  class Accumulator {
    const toolCallFallback: bool
    const decode: Decoder
    const toolCalls: ToolCallAccumulator
    var pendingContent: seq<string>
    var pendingRole: string
    var finishReason: string
    var emitted: bool
    var streamingText: bool
    var chunks: seq<Chunk>

    ghost function Current(): State
      reads this, toolCalls
    {
      State(pendingContent, pendingRole, finishReason, emitted, streamingText, toolCalls.calls, chunks)
    }

    constructor (fallback: bool, decode: Decoder)
      ensures Current() == START && toolCallFallback == fallback && this.decode == decode
      ensures fresh(toolCalls)
    {
      toolCallFallback, this.decode := fallback, decode;
      toolCalls := new ToolCallAccumulator();
      pendingContent, pendingRole, finishReason, emitted, streamingText, chunks := [], "assistant", "", false, false,
          [];
    }

    method Emit(content: string, reasoning: string, fragments: seq<Fragment>)
      modifies this`chunks, this`emitted
      ensures Current() == Emitted(old(Current()), content, reasoning, fragments)
    {
      var role := "";
      if !emitted {
        role := pendingRole;
        if role == "" {
          role := "assistant";
        }
      }
      chunks := chunks + [Chunk(role, content, reasoning, fragments)];
      emitted := true;
    }

    method Accept(delta: Delta)
      modifies this, toolCalls
      ensures Current() == Accepted(old(Current()), delta, toolCallFallback)
    {
      hide WithContent, Discarded, AppendedAll;
      if delta.role != "" {
        pendingRole := delta.role;
      }
      if delta.finish != "" {
        finishReason := delta.finish;
      }
      if delta.reasoning != "" {
        Emit("", delta.reasoning, []);
      }
      if |delta.toolCalls| > 0 {
        DiscardBufferedToolCallText();
        toolCalls.Append(delta.toolCalls);
        Emit("", "", Indexed(delta.toolCalls));
        return;
      }
      AcceptContent(delta.content);
    }

    /** Streams text, or holds it back while it may be a written tool call. */
    method AcceptContent(content: string)
      modifies this
      ensures Current() == WithContent(old(Current()), content, toolCallFallback)
    {
      if content == "" {
        return;
      }
      if !toolCallFallback || streamingText {
        streamingText := true;
        Emit(content, "", []);
        return;
      }
      pendingContent := pendingContent + [content];
      var text := Join(pendingContent);
      if IsPotential(text) {
        return;
      }
      streamingText := true;
      pendingContent := [];
      Emit(text, "", []);
    }

    method DiscardBufferedToolCallText()
      modifies this
      ensures Current() == Discarded(old(Current()), toolCallFallback)
    {
      if |pendingContent| == 0 {
        return;
      }
      var buffered := Join(pendingContent);
      pendingContent := [];
      if toolCallFallback && IsPotential(buffered) {
        return;
      }
      streamingText := true;
      Emit(buffered, "", []);
    }

    method Flush()
      modifies this, toolCalls
      ensures Current() == Flushed(old(Current()), decode, toolCallFallback)
    {
      if |pendingContent| == 0 {
        return;
      }
      var buffered := Join(pendingContent);
      pendingContent := [];
      var parsed := [];
      if toolCallFallback {
        parsed := ParsedCalls(decode, buffered);
      }
      if parsed != [] {
        toolCalls.Append(AsFragments(parsed));
        Emit("", "", Indexed(AsFragments(parsed)));
        return;
      }
      streamingText := true;
      Emit(buffered, "", []);
    }

    function FinishReason(): (r: string)
      reads this, toolCalls
      ensures r == FinishReasonOf(Current())
    {
      if !toolCalls.IsEmpty() then "tool_calls" else if finishReason != "" then finishReason else "stop"
    }
  }
}
