/** One chat request end to end: routing, delivery to the client, and failover to
    other accounts while nothing has been written. */
module ChatHandler {
  import opened Common
  import opened Accounts
  import opened RouterSpec
  import opened ToolCalls
  import opened StreamText
  import opened StreamAccumulator
  import opened Chunking
  import opened ClientCalls
  import opened Delivery
  import opened Upstream
  import opened ResponseSpec
  import opened Failover
  import R = Router

  /** How an attempt failed: with an error still to be told to the client, or with one
      already told in the stream. */
  datatype Failure = Plain(error: Error) | StreamReported(inner: Error)

  function FailureOf(err: Option<Error>, written: seq<Output>): Option<Failure> {
    match err
    case None => None
    case Some(e) => if written == [] then Some(Plain(e)) else Some(StreamReported(e))
  }

  lemma AcceptedExtends(s: State, d: Delta, fallback: bool)
    ensures s.chunks <= Accepted(s, d, fallback).chunks
    ensures d == NO_DELTA ==> Accepted(s, d, fallback) == s
  {
    hide AppendedAll, IsPotential, Join;
  }

  lemma FlushedExtends(s: State, decode: Decoder, fallback: bool)
    ensures s.chunks <= Flushed(s, decode, fallback).chunks
  {
    hide AppendedAll, ParsedCalls, Join;
  }

  lemma LinesStep(lines: seq<Line>, i: nat)
    requires i < |lines|
    ensures DeltasOf(lines[..i + 1]) == if lines[i].data then DeltasOf(lines[..i]) + [lines[i].frame.delta]
        else DeltasOf(lines[..i])
    ensures LastUsage(lines[..i + 1]) ==
            if lines[i].data && lines[i].frame.usage.Some? then lines[i].frame.usage else LastUsage(lines[..i])
  {
    assert lines[..i + 1][..i] == lines[..i];
    assert DeltasOf(lines[..i]) + [] == DeltasOf(lines[..i]);
  }

  lemma DeltasStep(ds: seq<Delta>, d: Delta, fallback: bool)
    ensures RunOf(START, ds + [d], fallback) == Accepted(RunOf(START, ds, fallback), d, fallback)
    ensures Contents(ds + [d]) == Contents(ds) + d.content
    ensures FragmentsOf(ds + [d]) == FragmentsOf(ds) + d.toolCalls
    ensures ReasoningsOf(ds + [d]) == if d.reasoning != "" then ReasoningsOf(ds) + [d.reasoning] else ReasoningsOf(ds)
  {
    assert (ds + [d])[..|ds|] == ds;
    assert ReasoningsOf(ds) + [] == ReasoningsOf(ds);
  }

  /** One line of streaming delivery. */
  lemma RelayStep(lines: seq<Line>, i: nat, fallback: bool)
    requires i < |lines|
    ensures var before, after := RunOf(START, DeltasOf(lines[..i]), fallback),
        RunOf(START, DeltasOf(lines[..i + 1]), fallback);
            var frame := lines[i].frame;
            && before.chunks <= after.chunks
            && (if lines[i].data then after == Accepted(before, frame.delta, fallback) else after == before)
            && (frame.delta == NO_DELTA ==> after == before)
    ensures LastUsage(lines[..i + 1]) ==
            if lines[i].data && lines[i].frame.usage.Some? then lines[i].frame.usage else LastUsage(lines[..i])
  {
    hide Accepted, RunOf, DeltasOf, LastUsage;
    LinesStep(lines, i);
    DeltasStep(DeltasOf(lines[..i]), lines[i].frame.delta, fallback);
    AcceptedExtends(RunOf(START, DeltasOf(lines[..i]), fallback), lines[i].frame.delta, fallback);
  }

  /** What one-shot delivery collects from the lines. */
  datatype Gathering = Gathering(content: string, reasonings: seq<string>, calls: seq<ToolCall>, usage: Option<Usage>)

  function Gathered(lines: seq<Line>): Gathering {
    var ds := DeltasOf(lines);
    Gathering(Contents(ds), ReasoningsOf(ds), AppendedAll([], FragmentsOf(ds), |FragmentsOf(ds)|), LastUsage(lines))
  }

  lemma GatheredStep(lines: seq<Line>, i: nat)
    requires i < |lines|
    ensures Gathered(lines[..i + 1]) ==
            var g, frame := Gathered(lines[..i]), lines[i].frame;
            var added := frame.delta.toolCalls;
            if !lines[i].data then g
            else
              Gathering(if frame.delta.content != "" then g.content + frame.delta.content else g.content,
                        if frame.delta.reasoning != "" then g.reasonings + [frame.delta.reasoning] else g.reasonings,
                        if |added| > 0 then AppendedAll(g.calls, added, |added|) else g.calls,
                        if frame.usage.Some? then frame.usage else g.usage)
  {
    hide DeltasOf, Contents, ReasoningsOf, FragmentsOf, AppendedAll, LastUsage;
    LinesStep(lines, i);
    var ds, d := DeltasOf(lines[..i]), lines[i].frame.delta;
    DeltasStep(ds, d, true);
    var fs := FragmentsOf(ds);
    AppendedAllConcat([], fs, d.toolCalls, |d.toolCalls|);
    assert Contents(ds) + "" == Contents(ds) && fs + [] == fs;
  }

  /** The response writer and the usage sink of one request, and the cooldowns it
      writes to the account snapshots. */
  class Exchange {
    var out: seq<Output>
    var sinks: seq<(string, Usage)>
    var cooldowns: seq<(string, int)>

    constructor ()
      ensures out == [] && sinks == [] && cooldowns == []
    {
      out, sinks, cooldowns := [], [], [];
    }

    /** Streaming delivery of the lines of one open; on an error before the first
        write nothing is written at all. */
    method HandleStream(opts: Options, account: string, open: nat, lines: seq<Line>, err: Option<Error>)
        returns (failure: Option<Failure>)
      requires out == []
      modifies this`out, this`sinks
      ensures out == StreamOut(opts, open, lines, err)
      ensures sinks == old(sinks) + if err.None? && LastUsage(lines).Some? then [(account, LastUsage(lines).value)]
          else []
      ensures failure == match err
                         case None => None
                         case Some(e) => if out == [] then Some(Plain(e)) else Some(StreamReported(e))
    {
      var acc := new Accumulator(opts.toolsEnabled, opts.decode);
      var usage := Relay(acc, open, lines);
      hide RunOf, DeltasOf, LastUsage;
      FlushedExtends(acc.Current(), opts.decode, opts.toolsEnabled);
      var sent := |acc.chunks|;
      ghost var before := acc.chunks;
      acc.Flush();
      assert acc.chunks[..sent] == before;
      WriteNew(acc.chunks, sent, open);
      hide Flushed, Accepted;
      assert out == Forwarded(acc.chunks, open);
      if err.Some? {
        if |out| == 0 {
          return Some(Plain(err.value));
        }
        out := out + [ErrorChunk(err.value)];
        return Some(StreamReported(err.value));
      }
      hide StreamOut, Forwarded, FinishReasonOf;
      WriteClosing(opts, account, acc.FinishReason(), usage);
      failure := None;
    }

    /** The frames after the last chunk, and the usage report. */
    method WriteClosing(opts: Options, account: string, finishReason: string, usage: Option<Usage>)
      modifies this`out, this`sinks
      ensures out == old(out) + Closing(opts, finishReason, usage)
      ensures sinks == old(sinks) + if usage.Some? then [(account, usage.value)] else []
    {
      out := out + [DoneChunk(finishReason)];
      if usage.Some? {
        if opts.includeUsage {
          out := out + [UsageChunk(usage.value)];
        }
        sinks := sinks + [(account, usage.value)];
      }
      out := out + [DoneMarker];
    }

    /** The line callback of streaming delivery: every accepted frame's chunks are
        written at once. */
    method Relay(acc: Accumulator, open: nat, lines: seq<Line>) returns (usage: Option<Usage>)
      requires out == [] && acc.Current() == START
      modifies this`out, acc, acc.toolCalls
      ensures acc.Current() == RunOf(START, DeltasOf(lines), acc.toolCallFallback)
      ensures out == Forwarded(acc.chunks, open) && usage == LastUsage(lines)
    {
      usage := None;
      assert lines[..0] == [];
      for i := 0 to |lines|
        invariant acc.Current() == RunOf(START, DeltasOf(lines[..i]), acc.toolCallFallback)
        invariant usage == LastUsage(lines[..i])
        invariant out == Forwarded(acc.chunks, open)
      {
        hide Accepted, RunOf, DeltasOf, LastUsage, Forwarded;
        RelayStep(lines, i, acc.toolCallFallback);
        if !lines[i].data {
          continue;
        }
        var frame := lines[i].frame;
        if frame.usage.Some? {
          usage := frame.usage;
        }
        if frame.usage.Some? || frame.delta != NO_DELTA {
          var sent := |acc.chunks|;
          ghost var before := acc.chunks;
          acc.Accept(frame.delta);
          assert acc.chunks[..sent] == before;
          WriteNew(acc.chunks, sent, open);
        }
      }
      assert lines[..|lines|] == lines;
    }

    /** Writes the chunks emitted since the last write. */
    method WriteNew(chunks: seq<Chunk>, sent: nat, open: nat)
      requires sent <= |chunks| && out == Forwarded(chunks[..sent], open)
      modifies this`out
      ensures out == Forwarded(chunks, open)
    {
      out := out + Forwarded(chunks[sent..], open);
    }

    /** One-shot delivery of the lines of one open. */
    method HandleSync(opts: Options, account: string, open: nat, lines: seq<Line>, err: Option<Error>)
        returns (failure: Option<Failure>)
      requires out == []
      modifies this`out, this`sinks
      ensures out == SyncOut(opts, open, lines, err)
      ensures sinks == old(sinks) + if err.None? && LastUsage(lines).Some? then [(account, LastUsage(lines).value)]
          else []
      ensures failure == match err case None => None case Some(e) => Some(Plain(e))
    {
      var toolCalls := new ToolCallAccumulator();
      var content, reasonings, usage := Gather(toolCalls, lines);
      hide MessageOf, Contents, ReasoningsOf, FragmentsOf, AppendedAll, DeltasOf, LastUsage;
      if err.Some? {
        return Some(Plain(err.value));
      }
      if usage.Some? {
        sinks := sinks + [(account, usage.value)];
      }
      out := [Body(open, MessageOf(content, reasonings, toolCalls.calls, opts.decode, opts.toolsEnabled), usage)];
      failure := None;
    }

    /** The line callback of one-shot delivery. */
    static method Gather(toolCalls: ToolCallAccumulator, lines: seq<Line>)
        returns (content: string, reasonings: seq<string>, usage: Option<Usage>)
      requires toolCalls.calls == []
      modifies toolCalls
      ensures Gathering(content, reasonings, toolCalls.calls, usage) == Gathered(lines)
    {
      content, reasonings, usage := "", [], None;
      assert lines[..0] == [];
      for i := 0 to |lines|
        invariant Gathering(content, reasonings, toolCalls.calls, usage) == Gathered(lines[..i])
      {
        hide Gathered, AppendedAll;
        GatheredStep(lines, i);
        if !lines[i].data {
          continue;
        }
        var frame := lines[i].frame;
        if frame.usage.Some? {
          usage := frame.usage;
        }
        if frame.delta.reasoning != "" {
          reasonings := reasonings + [frame.delta.reasoning];
        }
        if frame.delta.content != "" {
          content := content + frame.delta.content;
        }
        if |frame.delta.toolCalls| > 0 {
          toolCalls.Append(frame.delta.toolCalls);
        }
      }
      assert lines[..|lines|] == lines;
    }

    /** Attempt n on an account, after so many opens of the upstream. */
    method HandleChat(req: Request, n: nat, account: string, open: nat) returns (failure: Option<Failure>, opens: nat)
      requires out == []
      modifies this`out, this`sinks
      ensures var a := AttemptOf(req, n, account, open);
        && opens == a.opens <= 2
        && out == Written(req, a) && sinks == old(sinks) + UsageOf(a)
        && failure == FailureOf(a.err, out)
    {
      hide StreamOut, SyncOut, LastUsage, BroughtIn, OneConclusion, AllFrom;
      if req.preflight(n).Some? {
        return Some(Plain(req.preflight(n).value)), 0;
      }
      var seen, err;
      seen, err, opens := OpenStreamAsync(req.script, open);
      var last := open + opens - 1;
      if req.stream {
        failure := HandleStream(req.options, account, last, seen, err);
      } else {
        NothingFromSync(req.options, last, seen, err);
        failure := HandleSync(req.options, account, last, seen, err);
      }
    }

    /** Serves one request: tries accounts until one succeeds or the failover ends.
        Everything the client, the usage sink, the cooldowns and the router get out of
        it is what the course of the request says. */
    method Serve(req: Request, router: R.Router) returns (served: bool)
      requires out == [] && sinks == [] && cooldowns == []
      modifies this, router
      ensures var course := Course(req, old(router.State())).0;
        && served == Served(course)
        && out == Answer(req, course) && sinks == Usages(course)
        && cooldowns == Cooldowns(req, 0, course)
      ensures Leaves(req, old(router.State()), router.State())
    {
      hide Course, Asked, AskedNext, AttemptOf, Written, UsageOf, HandsOver, Binds, Cooldowns, Cooldown;
      hide Served, Answer, Usages, LastOf, Underway;
      ghost var st := router.State();
      var next := Resolve(req, router, 0, {});
      served := false;
      Begins(req, st);
      if next.None? {
        out := [NoRoute];
        return;
      }
      var account, exclude, attempt, open := next.value, {}, 0, 0;
      ghost var done: seq<Attempt> := [];
      while true
        invariant attempt <= MAX_FAILOVER_ATTEMPTS && out == [] && sinks == [] && !served
        invariant Underway(req, st, done, cooldowns, attempt, account, exclude, open, router.State())
        decreases MAX_FAILOVER_ATTEMPTS - attempt
      {
        var failure, n;
        failure, n := HandleChat(req, attempt, account, open);
        ghost var a := AttemptOf(req, attempt, account, open);
        ghost var cool, before := cooldowns, router.State();
        GoesOn(req, st, done, cool, attempt, account, exclude, open, before);
        if failure.None? {
          served := true;
          OnSuccess(req, router, account);
          LastAttempt(req, done, a);
          return;
        }
        if failure == Some(Plain(AuthError)) && attempt < MAX_FAILOVER_ATTEMPTS {
          exclude := exclude + {account};
          next := HandleChatFailover(req, router, attempt, exclude, account);
          if next.Some? {
            done := done + [a];
            account, open, attempt := next.value, open + n, attempt + 1;
            continue;
          }
        }
        LastAttempt(req, done, a);
        HandleChatError(failure.value);
        return;
      }
    }

    /** Binds the conversation to the account that served it. */
    static method OnSuccess(req: Request, router: R.Router, account: string)
      modifies router
      ensures if req.stickyKey == "" then router.State() == old(router.State())
              else Binds(old(router.State()), req.stickyKey, account, req.finishedAt, router.State())
    {
      if req.stickyKey != "" {
        router.Bind(req.stickyKey, account, req.finishedAt);
      }
    }

    /** Tells the client of a failure it has not been told of. */
    method HandleChatError(failure: Failure)
      requires failure.Plain? ==> out == []
      modifies this`out
      ensures out == match failure case Plain(e) => [ErrorStatus(e)] case StreamReported(_) => old(out)
    {
      if failure.Plain? {
        out := [ErrorStatus(failure.error)];
      }
    }

    /** Cools down the account whose attempt n failed and, within the retry budget, asks
        for another one outside the excluded ones, which include it. */
    method HandleChatFailover(req: Request, router: R.Router, n: nat, excluded: set<string>, failed: string)
      returns (account: Option<string>)
      requires failed in excluded
      modifies router, this`cooldowns
      ensures cooldowns == old(cooldowns) + [Cooldown(req, n, failed)]
      ensures (account, router.State()) == AskedNext(req, n, excluded, old(router.State()))
    {
      hide Picked;
      cooldowns := cooldowns + [Cooldown(req, n, failed)];
      if |excluded| >= req.maxRetryAccounts {
        return None;
      }
      account := Resolve(req, router, n + 1, excluded);
    }

    /** Routing decision n: asks the router for an account outside the excluded ones. */
    static method Resolve(req: Request, router: R.Router, n: nat, exclude: set<string>)
        returns (account: Option<string>)
      modifies router
      ensures (account, router.State()) == Asked(req, n, exclude, old(router.State()))
    {
      hide Picked;
      if !req.keyKnown(n) {
        return None;
      }
      var acc := router.Pick(req.stickyKey, req.model, req.filter, exclude, req.view(n));
      if acc.None? {
        return None;
      }
      account := Some(acc.value.id);
    }
  }

  /** What the last attempt of a course means for the client and the usage sink. */
  lemma LastAttempt(req: Request, done: seq<Attempt>, a: Attempt)
    ensures var course := done + [a];
      && LastOf(course) == a && (Served(course) <==> a.err.None?) && Usages(course) == UsageOf(a)
      && Answer(req, course) ==
         if a.err.Some? && Written(req, a) == [] then [ErrorStatus(a.err.value)] else Written(req, a)
  {
    hide Written, UsageOf;
  }

  lemma NothingFromSync(opts: Options, open: nat, lines: seq<Line>, err: Option<Error>)
    ensures err.Some? ==> SyncOut(opts, open, lines, err) == []
  {
  }

  /** The attempts done and the cooldowns written so far begin the course of the request,
      which goes on with the given attempt. */
  ghost predicate Underway(req: Request, st: RouterState, done: seq<Attempt>, cooled: seq<(string, int)>,
                           n: nat, account: string, exclude: set<string>, open: nat, now: RouterState)
  {
    var (rest, end) := CourseFrom(req, n, account, exclude, open, now);
    && Course(req, st) == (done + rest, end)
    && cooled + Cooldowns(req, n, rest) == Cooldowns(req, 0, done + rest)
  }

  lemma Begins(req: Request, st: RouterState)
    ensures var (first, st') := Asked(req, 0, {}, st);
      if first.Some? then Underway(req, st, [], [], 0, first.value, {}, 0, st')
      else
        && Course(req, st) == ([], st') && !Served([])
        && Answer(req, []) == [NoRoute] && Usages([]) == [] && Cooldowns(req, 0, []) == []
  {
    hide Asked, HandsOver;
    var (first, st') := Asked(req, 0, {}, st);
    if first.Some? {
      var rest := CourseFrom(req, 0, first.value, {}, 0, st').0;
      assert [] + rest == rest && [] + Cooldowns(req, 0, rest) == Cooldowns(req, 0, rest);
    }
  }

  lemma CooldownsStep(req: Request, n: nat, a: Attempt, rest: seq<Attempt>)
    ensures Cooldowns(req, n, [a] + rest) ==
      (if HandsOver(req, n, a) then [Cooldown(req, n, a.account)] else []) + Cooldowns(req, n + 1, rest)
    ensures Cooldowns(req, n, [a]) == if HandsOver(req, n, a) then [Cooldown(req, n, a.account)] else []
  {
    hide HandsOver, Cooldown;
    assert ([a] + rest)[1..] == rest && [a][1..] == [];
  }

  /** After one more attempt the course goes on with the next account or ends. */
  lemma GoesOn(req: Request, st: RouterState, done: seq<Attempt>, cooled: seq<(string, int)>,
               n: nat, account: string, exclude: set<string>, open: nat, now: RouterState)
    requires Underway(req, st, done, cooled, n, account, exclude, open, now)
    ensures var a := AttemptOf(req, n, account, open);
      var (next, now') := AskedNext(req, n, exclude + {account}, now);
      var handsOver := a.err == Some(AuthError) && Written(req, a) == [] && n < MAX_FAILOVER_ATTEMPTS;
      var cooled' := cooled + if handsOver then [Cooldown(req, n, account)] else [];
      && a.account == account && (a.err.Some? ==> UsageOf(a) == [])
      && if handsOver && next.Some? then
           Underway(req, st, done + [a], cooled', n + 1, next.value, exclude + {account}, open + a.opens, now')
         else
           && Course(req, st) == (done + [a], if handsOver then now' else now)
           && cooled' == Cooldowns(req, 0, done + [a])
  {
    hide AttemptOf, Written, AskedNext, Asked, Course, Cooldowns, Cooldown;
    CourseStep(req, n, account, exclude, open, now);
    var a := AttemptOf(req, n, account, open);
    var (next, now') := AskedNext(req, n, exclude + {account}, now);
    var course := CourseFrom(req, n, account, exclude, open, now).0;
    CooldownsStep(req, n, a, course[1..]);
    hide HandsOver, CourseFrom;
    if HandsOver(req, n, a) && next.Some? {
      var rest := CourseFrom(req, n + 1, next.value, exclude + {account}, open + a.opens, now').0;
      assert course[1..] == rest && done + course == done + [a] + rest;
      assert cooled + ([Cooldown(req, n, account)] + Cooldowns(req, n + 1, rest))
          == cooled + [Cooldown(req, n, account)] + Cooldowns(req, n + 1, rest);
    } else {
      assert cooled + [] == cooled;
    }
  }

  /** What follows one attempt of a course. */
  lemma CourseStep(req: Request, n: nat, account: string, exclude: set<string>, open: nat, st: RouterState)
    ensures var a := AttemptOf(req, n, account, open);
      var (next, st') := AskedNext(req, n, exclude + {account}, st);
      var (course, end) := CourseFrom(req, n, account, exclude, open, st);
      && a.account == account && (a.err.Some? ==> UsageOf(a) == [])
      && (HandsOver(req, n, a) <==> a.err == Some(AuthError) && Written(req, a) == [] && n < MAX_FAILOVER_ATTEMPTS)
      && if HandsOver(req, n, a) && next.Some? then
           var (rest, rest') := CourseFrom(req, n + 1, next.value, exclude + {account}, open + a.opens, st');
           course == [a] + rest && end == rest'
         else course == [a] && end == if HandsOver(req, n, a) then st' else st
  {
    hide AttemptOf, Written, AskedNext, Asked;
    AttemptNames(req, n, account, open);
    var a := AttemptOf(req, n, account, open);
    var (next, st') := AskedNext(req, n, exclude + {account}, st);
    var course := CourseFrom(req, n, account, exclude, open, st);
    if !HandsOver(req, n, a) {
      assert course == ([a], st);
    } else if next.None? {
      assert course == ([a], st');
    }
  }
}
