/** What one attempt writes to the client, as a function of the lines it received. */
module ResponseSpec {
  import opened Common
  import opened ToolCalls
  import opened StreamText
  import opened StreamAccumulator
  import opened Chunking
  import opened ClientCalls
  import opened Delivery
  import opened Upstream

  /** What is written to the client. Model output carries the number of the upstream
      open it came from. */
  datatype Output =
    | Streamed(open: nat, chunk: Chunk)
    | Body(open: nat, message: Message, usage: Option<Usage>)
    | DoneChunk(finishReason: string)
    | UsageChunk(frame: Usage)
    | DoneMarker
    | ErrorChunk(error: Error)
    | ErrorStatus(error: Error)
    | NoRoute

  predicate FromModel(o: Output) { o.Streamed? || o.Body? }

  /** The outputs that conclude a response. */
  predicate Concludes(o: Output) { o.Body? || o.DoneMarker? || o.ErrorChunk? || o.ErrorStatus? || o.NoRoute? }

  /** Exactly the last output concludes. */
  ghost predicate OneConclusion(out: seq<Output>) {
    |out| > 0 && Concludes(out[|out| - 1]) && forall i :: 0 <= i < |out| - 1 ==> !Concludes(out[i])
  }

  ghost predicate AllFrom(out: seq<Output>, open: nat) {
    forall i :: 0 <= i < |out| && FromModel(out[i]) ==> out[i].open == open
  }

  /** The delivery options of a request. */
  datatype Options = Options(toolsEnabled: bool, includeUsage: bool, decode: Decoder)

  const NO_DELTA := Delta("", "", "", "", [])

  function DeltasOf(lines: seq<Line>): seq<Delta> {
    if |lines| == 0 then []
    else
      var last := lines[|lines| - 1];
      DeltasOf(lines[..|lines| - 1]) + if last.data then [last.frame.delta] else []
  }

  /** The last usage frame counts. */
  function LastUsage(lines: seq<Line>): Option<Usage> {
    if |lines| == 0 then None
    else
      var last := lines[|lines| - 1];
      if last.data && last.frame.usage.Some? then last.frame.usage else LastUsage(lines[..|lines| - 1])
  }

  function Forwarded(chunks: seq<Chunk>, open: nat): (r: seq<Output>)
    ensures |r| == |chunks| && forall i :: 0 <= i < |chunks| ==> r[i] == Streamed(open, chunks[i])
  {
    seq(|chunks|, i requires 0 <= i < |chunks| => Streamed(open, chunks[i]))
  }

  /** The frames after the last chunk of a completed stream. */
  function Closing(opts: Options, finishReason: string, usage: Option<Usage>): seq<Output> {
    [DoneChunk(finishReason)] + (if opts.includeUsage && usage.Some? then [UsageChunk(usage.value)] else []) +
        [DoneMarker]
  }

  /** Streaming delivery: the chunks, and unless nothing was written before an error,
      a closing. */
  function StreamOut(opts: Options, open: nat, lines: seq<Line>, err: Option<Error>): seq<Output> {
    var s := AtEnd(DeltasOf(lines), opts.decode, opts.toolsEnabled);
    var body := Forwarded(s.chunks, open);
    match err
    case Some(e) => if |body| == 0 then [] else body + [ErrorChunk(e)]
    case None => body + Closing(opts, FinishReasonOf(s), LastUsage(lines))
  }

  /** One-shot delivery: the whole message, or nothing. */
  function SyncOut(opts: Options, open: nat, lines: seq<Line>, err: Option<Error>): seq<Output> {
    if err.Some? then []
    else
      [Body(open, OneShot(DeltasOf(lines), opts.decode, opts.toolsEnabled), LastUsage(lines))]
  }

  function Out(stream: bool, opts: Options, open: nat, lines: seq<Line>, err: Option<Error>): seq<Output> {
    if stream then StreamOut(opts, open, lines, err) else SyncOut(opts, open, lines, err)
  }

  /** All model output of an attempt comes from its last open, and a response that was
      begun is concluded exactly once; it is not begun only on an error. */
  lemma AttemptOutput(stream: bool, opts: Options, open: nat, lines: seq<Line>, err: Option<Error>)
    ensures var out := Out(stream, opts, open, lines, err);
            && AllFrom(out, open)
            && (out == [] || OneConclusion(out))
            && (out == [] ==> err.Some?)
            && (err.None? ==> |out| > 0 && (out[|out| - 1] == DoneMarker || out[|out| - 1].Body?))
            && (err.Some? && out != [] ==> out[|out| - 1] == ErrorChunk(err.value))
  {
    hide AtEnd, OneShot, DeltasOf, FinishReasonOf, LastUsage;
  }

  /** The finish reason and the chunks of a streamed response, and the message of a
      one-shot response, to the same lines of a completed stream. */
  lemma BothOutputs(opts: Options, open: nat, lines: seq<Line>)
    ensures var s := AtEnd(DeltasOf(lines), opts.decode, opts.toolsEnabled);
            var m := OneShot(DeltasOf(lines), opts.decode, opts.toolsEnabled);
            && Forwarded(s.chunks, open) + [DoneChunk(FinishReasonOf(s))] <= Out(true, opts, open, lines, None)
            && Out(false, opts, open, lines, None) == [Body(open, m, LastUsage(lines))]
  {
    hide AtEnd, OneShot, FinishReasonOf;
    var s := AtEnd(DeltasOf(lines), opts.decode, opts.toolsEnabled);
    var body := Forwarded(s.chunks, open) + [DoneChunk(FinishReasonOf(s))];
    assert Closing(opts, FinishReasonOf(s), LastUsage(lines))[0] == DoneChunk(FinishReasonOf(s));
    assert StreamOut(opts, open, lines, None)[..|body|] == body;
  }

  /** The last data line with a usage frame names the usage. */
  lemma {:induction false} LastUsageMeaning(lines: seq<Line>) returns (k: int)
    ensures var u := LastUsage(lines);
      if u.None? then forall i :: 0 <= i < |lines| ==> !(lines[i].data && lines[i].frame.usage.Some?)
      else
        && 0 <= k < |lines| && lines[k].data && u == lines[k].frame.usage
        && forall i :: k < i < |lines| ==> !(lines[i].data && lines[i].frame.usage.Some?)
  {
    k := |lines| - 1;
    if |lines| > 0 && !(lines[k].data && lines[k].frame.usage.Some?) {
      k := LastUsageMeaning(lines[..k]);
    }
  }

  /** How a completed streamed response ends: after its chunks the finish chunk, naming
      "tool_calls" if there were calls and else what the upstream reported last, or "stop";
      then the usage chunk exactly if the client asked for it and a frame carried one; then
      the end marker. */
  lemma StreamedEnd(opts: Options, open: nat, lines: seq<Line>)
    ensures var ds := DeltasOf(lines);
            var s := AtEnd(ds, opts.decode, opts.toolsEnabled);
            var reported := if LastFinish(ds) != "" then LastFinish(ds) else "stop";
            var finish := if s.calls != [] then "tool_calls" else reported;
            Out(true, opts, open, lines, None) ==
              Forwarded(s.chunks, open) + [DoneChunk(finish)]
              + (if opts.includeUsage && LastUsage(lines).Some? then [UsageChunk(LastUsage(lines).value)] else [])
              + [DoneMarker]
  {
    hide AtEnd, FinishReasonOf, DeltasOf, LastUsage;
    FinishIsReported(DeltasOf(lines), opts.decode, opts.toolsEnabled);
    var s := AtEnd(DeltasOf(lines), opts.decode, opts.toolsEnabled);
    var usage: seq<Output> :=
      if opts.includeUsage && LastUsage(lines).Some? then [UsageChunk(LastUsage(lines).value)] else [];
    assert Forwarded(s.chunks, open) + ([DoneChunk(FinishReasonOf(s))] + usage + [DoneMarker])
        == Forwarded(s.chunks, open) + [DoneChunk(FinishReasonOf(s))] + usage + [DoneMarker];
  }

  /** A streamed response that fails after its first chunk ends, after its chunks, with the
      error and nothing else. */
  lemma StreamedFailure(opts: Options, open: nat, lines: seq<Line>, e: Error)
    ensures var s := AtEnd(DeltasOf(lines), opts.decode, opts.toolsEnabled);
            Out(true, opts, open, lines, Some(e)) ==
            if s.chunks == [] then [] else Forwarded(s.chunks, open) + [ErrorChunk(e)]
  {
  }

  predicate IsData(line: Line) { line.data }

  /** The deltas are those of the data lines, one each, in order. */
  lemma {:induction false} DeltasAreDataLines(lines: seq<Line>)
    ensures var data := Filter(lines, IsData);
            |DeltasOf(lines)| == |data| && forall i :: 0 <= i < |data| ==> DeltasOf(lines)[i] == data[i].frame.delta
  {
    if |lines| > 0 {
      DeltasAreDataLines(lines[..|lines| - 1]);
    }
  }

  /** An attempt writes nothing at all exactly when it fails and either answers in one
      shot or received no frame with anything to show. */
  lemma WritesNothingIff(stream: bool, opts: Options, open: nat, lines: seq<Line>, err: Option<Error>)
    ensures Out(stream, opts, open, lines, err) == [] <==> err.Some? && (!stream || NothingToShow(DeltasOf(lines)))
  {
    hide AtEnd, DeltasOf, LastUsage, OneShot, NothingToShow;
    NoChunksIff(DeltasOf(lines), opts.decode, opts.toolsEnabled);
  }

  /** The chunks a client reads off a response. */
  function Chunks(out: seq<Output>): seq<Chunk> {
    if |out| == 0 then []
    else
      var last := out[|out| - 1];
      Chunks(out[..|out| - 1]) + if last.Streamed? then [last.chunk] else []
  }

  lemma {:induction false} ChunksConcat(a: seq<Output>, b: seq<Output>)
    ensures Chunks(a + b) == Chunks(a) + Chunks(b)
  {
    if |b| == 0 {
      assert a + b == a;
    } else {
      ChunksConcat(a, b[..|b| - 1]);
      assert (a + b)[..|a + b| - 1] == a + b[..|b| - 1];
    }
  }

  lemma {:induction false} ForwardedChunks(chunks: seq<Chunk>, open: nat)
    ensures Chunks(Forwarded(chunks, open)) == chunks
  {
    if |chunks| > 0 {
      var n := |chunks| - 1;
      ForwardedChunks(chunks[..n], open);
      assert Forwarded(chunks, open)[..n] == Forwarded(chunks[..n], open);
    }
  }

  lemma {:induction false} NoChunks(out: seq<Output>)
    requires forall i :: 0 <= i < |out| ==> !out[i].Streamed?
    ensures Chunks(out) == []
  {
    if |out| > 0 {
      NoChunks(out[..|out| - 1]);
    }
  }

  /** The client reads exactly the accumulator's chunks off a streamed response. */
  lemma StreamedChunks(opts: Options, open: nat, lines: seq<Line>, err: Option<Error>)
    ensures Chunks(StreamOut(opts, open, lines, err)) == AtEnd(DeltasOf(lines), opts.decode, opts.toolsEnabled).chunks
  {
    hide AtEnd, Chunks, FinishReasonOf;
    var s := AtEnd(DeltasOf(lines), opts.decode, opts.toolsEnabled);
    var body := Forwarded(s.chunks, open);
    ForwardedChunks(s.chunks, open);
    NoChunks(Closing(opts, FinishReasonOf(s), LastUsage(lines)));
    ChunksConcat(body, Closing(opts, FinishReasonOf(s), LastUsage(lines)));
    NoChunks([]);
    if err.Some? {
      NoChunks([ErrorChunk(err.value)]);
      ChunksConcat(body, [ErrorChunk(err.value)]);
    }
  }

  /** The two responses to the same lines without tool-call frames give the client the
      same reasoning always, and the same text and the same tool calls exactly unless
      tools are enabled and the text is an oddly indented written tool call; when they
      name the same finish reason is as in StreamingAgreesIff. */
  lemma DeliveriesAgreeIff(opts: Options, open: nat, lines: seq<Line>)
    requires ContentOnly(DeltasOf(lines))
    ensures var ds := DeltasOf(lines);
            var out, sync := Out(true, opts, open, lines, None), Out(false, opts, open, lines, None);
            var chunks := Chunks(out);
            var items := Visible(chunks);
            var written := opts.toolsEnabled && ParsedCalls(opts.decode, Contents(ds)) != [];
            var odd := OddlyIndented(Contents(ds));
            && |out| > |chunks| && out[|chunks|].DoneChunk? && |sync| == 1 && sync[0].Body?
            && var m := sync[0].message;
               && (out[|chunks|].finishReason == m.finish <==>
                   if written then !odd || LastFinish(ds) == "tool_calls" else LastFinish(ds) in {"", "stop"})
               && ReasonOf(items) == Or(m.reasoning, "")
               && ((TextOf(items) == Or(m.content, "") && ReadFrom(map[], items) == AsMap(m.toolCalls)) <==>
                   !(written && odd))
  {
    hide AtEnd, OneShot, ParsedCalls, OddlyIndented, Contents, Visible, ReadFrom, TextOf, ReasonOf, StreamOut, SyncOut;
    hide AsMap, FinishReasonOf, LastFinish, ContentOnly;
    StreamingAgreesIff(DeltasOf(lines), opts.decode, opts.toolsEnabled);
    StreamedChunks(opts, open, lines, None);
    BothOutputs(opts, open, lines);
  }
}
