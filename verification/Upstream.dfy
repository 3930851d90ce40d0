/** Opening the upstream stream: one open reads lines until the stream ends or must
    be given up; the bridge opens at most twice. The upstream is an arbitrary script. */
module Upstream {
  import opened Common
  import opened StreamAccumulator

  datatype Error =
    | AuthError
    | BusyError
    | UpstreamError(status: int)
    | InStreamError(status: int)
    | Canceled
    | Truncated
    | OtherError

  datatype Usage = Usage(promptTokens: int, completionTokens: int, credits: real, billable: bool)

  /** What a data line carries once parsed. */
  datatype Frame = Frame(delta: Delta, usage: Option<Usage>)

  /** One line of the response, with the verdicts of the line tests on it and
      whether the request was found canceled after it was handed on. */
  datatype Line = Line(blank: bool, data: bool, frame: Frame, done: bool, finish: bool, errorEvent: bool,
                       gatewayError: Option<Error>, busy: bool, auth: bool, canceled: bool)

  /** A refusal (a failed connection or a status other than 200), or a stream that
      ends, possibly by a read error (the idle cut is one). */
  datatype Response = Refused(error: Error) | Stream(lines: seq<Line>, readError: Option<Error>)

  /** A line after which the stream is not read on. */
  predicate Stops(line: Line) {
    !line.blank && (line.busy || line.auth || line.canceled)
  }

  predicate Terminal(line: Line) {
    !line.blank && (line.done || line.finish)
  }

  predicate NonBlank(line: Line) { !line.blank }

  /** The number of lines among the last n before the first that stops the reading, counted from the front. */
  function ReadUntil(lines: seq<Line>, n: nat): (k: nat)
    requires n <= |lines|
    ensures k <= n && (forall i :: 0 <= i < k ==> !Stops(lines[i])) && (k < n ==> Stops(lines[k]))
  {
    if n == 0 then 0
    else
      var k := ReadUntil(lines, n - 1);
      if k < n - 1 || Stops(lines[n - 1]) then k else n
  }

  /** What the gateway reported first, if it reported a failure. */
  function FirstGatewayError(lines: seq<Line>, n: nat): Option<Error>
    requires n <= |lines|
  {
    if n == 0 then None
    else
      var before := FirstGatewayError(lines, n - 1);
      var line := lines[n - 1];
      if before.Some? || line.blank then before
      else if line.errorEvent then Some(InStreamError(0))
      else line.gatewayError
  }

  ghost predicate Finished(lines: seq<Line>, n: nat)
    requires n <= |lines|
  {
    exists i :: 0 <= i < n && Terminal(lines[i])
  }

  /** The lines handed to the callback. */
  function Delivered(r: Response): seq<Line> {
    match r
    case Refused(_) => []
    case Stream(lines, _) =>
      var k := ReadUntil(lines, |lines|);
      Filter(lines[..k], NonBlank) + if k < |lines| && !lines[k].busy && !lines[k].auth then [lines[k]] else []
  }

  /** How the open ends. */
  ghost function Ending(r: Response): Option<Error> {
    match r
    case Refused(error) => Some(error)
    case Stream(lines, readError) =>
      var k := ReadUntil(lines, |lines|);
      if k < |lines| then
        if lines[k].busy then Some(BusyError) else if lines[k].auth then Some(AuthError) else Some(Canceled)
      else if readError.Some? then readError
      else if Finished(lines, |lines|) then None
      else if FirstGatewayError(lines, |lines|).Some? then FirstGatewayError(lines, |lines|)
      else Some(Truncated)
  }

  /** A stream counts as complete exactly when it was accepted, never gave a reason
      to stop, ended without a read error, and said somewhere that it was done. */
  lemma CompleteIff(r: Response)
    ensures Ending(r) == None <==>
            && r.Stream? && r.readError.None?
            && (forall i :: 0 <= i < |r.lines| ==> !Stops(r.lines[i]))
            && (exists i :: 0 <= i < |r.lines| && Terminal(r.lines[i]))
    ensures Ending(r) == None ==> Delivered(r) == Filter(r.lines, NonBlank)
  {
    if r.Stream? {
      assert r.lines[..|r.lines|] == r.lines;
      assert Filter(r.lines, NonBlank) + [] == Filter(r.lines, NonBlank);
    }
  }

  // ---- How an open ends, in terms of its lines ----

  /** Line k is the first that is not blank and is busy, an authentication failure, or
      followed by the cancellation of the request. */
  ghost predicate FirstStop(lines: seq<Line>, k: int) {
    && 0 <= k < |lines| && !lines[k].blank && (lines[k].busy || lines[k].auth || lines[k].canceled)
    && forall i :: 0 <= i < k ==> lines[i].blank || !(lines[i].busy || lines[i].auth || lines[i].canceled)
  }

  ghost predicate NoStop(lines: seq<Line>) {
    forall i :: 0 <= i < |lines| ==> lines[i].blank || !(lines[i].busy || lines[i].auth || lines[i].canceled)
  }

  /** Line k is the first by which the gateway reports a failure. */
  ghost predicate FirstReport(lines: seq<Line>, k: int) {
    0 <= k < |lines| && Reports(lines[k]) && forall i :: 0 <= i < k ==> !Reports(lines[i])
  }

  ghost predicate NoReport(lines: seq<Line>) {
    forall i :: 0 <= i < |lines| ==> !Reports(lines[i])
  }

  /** The gateway reports a failure. */
  predicate Reports(line: Line) {
    !line.blank && (line.errorEvent || line.gatewayError.Some?)
  }

  ghost predicate SaysDone(lines: seq<Line>) {
    exists i :: 0 <= i < |lines| && !lines[i].blank && (lines[i].done || lines[i].finish)
  }

  /** What a stopping line means: busy before authentication before cancellation. */
  function StopError(line: Line): Error {
    if line.busy then BusyError else if line.auth then AuthError else Canceled
  }

  function ReportOf(line: Line): Option<Error> {
    if line.errorEvent then Some(InStreamError(0)) else line.gatewayError
  }

  /** An open ends in an error exactly like this: by refusal; by its first stopping line;
      else by the read error; else, if nothing said it was done, by the first failure the
      gateway reported, or as truncated. */
  ghost predicate EndsIn(r: Response, e: Error) {
    match r
    case Refused(error) => e == error
    case Stream(lines, readError) =>
      || (exists k :: FirstStop(lines, k) && e == StopError(lines[k]))
      || (&& NoStop(lines)
          && if readError.Some? then readError == Some(e)
             else
               && !SaysDone(lines)
               && ((exists k :: FirstReport(lines, k) && Some(e) == ReportOf(lines[k]))
                   || (NoReport(lines) && e == Truncated)))
  }

  lemma {:induction false} FirstGatewayErrorMeaning(lines: seq<Line>, n: nat) returns (k: int)
    requires n <= |lines|
    ensures var found := FirstGatewayError(lines, n);
      if found.Some? then 0 <= k < n && FirstReport(lines, k) && found == ReportOf(lines[k])
      else forall i :: 0 <= i < n ==> !Reports(lines[i])
  {
    k := -1;
    if n > 0 {
      k := FirstGatewayErrorMeaning(lines, n - 1);
      if FirstGatewayError(lines, n - 1).None? {
        k := n - 1;
      }
    }
  }

  lemma StopIsFirst(lines: seq<Line>)
    ensures var k := ReadUntil(lines, |lines|);
      if k < |lines| then FirstStop(lines, k) && forall j :: FirstStop(lines, j) ==> j == k
      else NoStop(lines) && forall j :: !FirstStop(lines, j)
  {
  }

  lemma EndingIff(r: Response, e: Error)
    ensures Ending(r) == Some(e) <==> EndsIn(r, e)
  {
    if r.Stream? {
      var lines := r.lines;
      StopIsFirst(lines);
      DoneIff(lines);
      var j := FirstGatewayErrorMeaning(lines, |lines|);
      var k := ReadUntil(lines, |lines|);
      hide ReadUntil, FirstGatewayError, SaysDone, Finished;
      if k < |lines| {
        hide FirstStop;
        assert FirstStop(lines, k);
      } else if FirstGatewayError(lines, |lines|).Some? {
        assert !NoReport(lines);
        assert forall i :: FirstReport(lines, i) ==> i == j;
      } else {
        assert NoReport(lines) && forall i :: !FirstReport(lines, i);
      }
    }
  }

  lemma DoneIff(lines: seq<Line>)
    ensures SaysDone(lines) <==> Finished(lines, |lines|)
  {
    assert forall i :: 0 <= i < |lines| ==>
      (Terminal(lines[i]) <==> !lines[i].blank && (lines[i].done || lines[i].finish));
  }

  /** What is handed on: every non-blank line before the first that stops the reading, and
      that line too if only the cancellation stopped it. */
  lemma DeliveredMeaning(lines: seq<Line>, readError: Option<Error>, k: nat)
    requires FirstStop(lines, k) || (NoStop(lines) && k == |lines|)
    ensures Delivered(Stream(lines, readError)) ==
            Filter(lines[..k], NonBlank) +
            if k < |lines| && !lines[k].busy && !lines[k].auth then [lines[k]] else []
  {
    StopIsFirst(lines);
  }

  /** The open fails with the error before anything is handed on. */
  ghost predicate FailsEarly(r: Response, e: Error) {
    && EndsIn(r, e)
    && match r
       case Refused(_) => true
       case Stream(lines, _) =>
         || (forall i :: 0 <= i < |lines| ==> lines[i].blank)
         || exists k :: FirstStop(lines, k) && (lines[k].busy || lines[k].auth)
                        && forall i :: 0 <= i < k ==> lines[i].blank
  }

  lemma FailsEarlyIff(r: Response, e: Error)
    ensures FailsEarly(r, e) <==> Delivered(r) == [] && Ending(r) == Some(e)
  {
    EndingIff(r, e);
    if r.Stream? {
      NothingDeliveredIff(r.lines, r.readError);
      hide EndsIn, Ending, Delivered;
    }
  }

  lemma NothingDeliveredIff(lines: seq<Line>, readError: Option<Error>)
    ensures Delivered(Stream(lines, readError)) == [] <==>
            || (forall i :: 0 <= i < |lines| ==> lines[i].blank)
            || exists k :: FirstStop(lines, k) && (lines[k].busy || lines[k].auth)
                           && forall i :: 0 <= i < k ==> lines[i].blank
  {
    StopIsFirst(lines);
    var k := ReadUntil(lines, |lines|);
    DeliveredMeaning(lines, readError, k);
    hide ReadUntil, Delivered, Filter;
    FilterEmptyIff(lines[..k], NonBlank);
    assert forall i :: 0 <= i < k ==> lines[..k][i] == lines[i] && lines[i] in lines[..k];
    assert forall x :: x in lines[..k] ==> exists i :: 0 <= i < k && lines[i] == x;
    if k < |lines| {
      hide FirstStop;
      assert FirstStop(lines, k);
    }
  }

  /** Reads one response line by line. */
  method OpenStreamLines(r: Response) returns (delivered: seq<Line>, err: Option<Error>)
    ensures delivered == Delivered(r) && err == Ending(r)
  {
    hide Filter;
    delivered := [];
    if r.Refused? {
      return [], Some(r.error);
    }
    var lines := r.lines;
    var sawDone := false;
    var gwErr: Option<Error> := None;
    FilterMembers(lines[..0], NonBlank);
    for i := 0 to |lines|
      invariant ReadUntil(lines, i) == i
      invariant delivered == Filter(lines[..i], NonBlank)
      invariant sawDone <==> Finished(lines, i)
      invariant gwErr == FirstGatewayError(lines, i)
    {
      ReadUntilStays(lines, i + 1);
      FilterStep(lines, i, NonBlank);
      var line := lines[i];
      assert Finished(lines, i + 1) <==> Finished(lines, i) || Terminal(line);
      if line.blank {
        continue;
      }
      if line.done {
        sawDone := true;
      }
      if line.finish {
        sawDone := true;
      }
      if line.errorEvent && gwErr.None? {
        gwErr := Some(InStreamError(0));
      }
      if line.gatewayError.Some? && gwErr.None? {
        gwErr := line.gatewayError;
      }
      if line.busy {
        return delivered, Some(BusyError);
      }
      if line.auth {
        return delivered, Some(AuthError);
      }
      delivered := delivered + [line];
      if line.canceled {
        return delivered, Some(Canceled);
      }
    }
    assert lines[..|lines|] == lines && delivered + [] == delivered;
    if r.readError.Some? {
      return delivered, r.readError;
    }
    if !sawDone {
      if gwErr.Some? {
        return delivered, gwErr;
      }
      return delivered, Some(Truncated);
    }
    err := None;
  }

  lemma ReadUntilStays(lines: seq<Line>, n: nat)
    requires 0 < n <= |lines| && ReadUntil(lines, n - 1) == n - 1
    ensures Stops(lines[n - 1]) ==> ReadUntil(lines, |lines|) == n - 1
    ensures !Stops(lines[n - 1]) ==> ReadUntil(lines, n) == n
  {
    var k := ReadUntil(lines, |lines|);
    assert forall i :: 0 <= i < n - 1 ==> !Stops(lines[i]);
  }

  /** Everything outside the bridge, as one script: the response to each open of
      the upstream, counted over the whole request, and whether the token refresh
      after it fails or the back-off after it is canceled. */
  datatype Script = Script(response: nat -> Response, refreshFails: nat -> bool, backoffCanceled: nat -> bool)

  /** What the bridge's up to two opens, the first being number `first`, bring in:
      the lines handed on, the outcome, and how many opens it took. */
  ghost function BroughtIn(s: Script, first: nat): (res: (seq<Line>, Option<Error>, nat))
    ensures 1 <= res.2 <= 2
  {
    var r1, r2 := s.response(first), s.response(first + 1);
    var denied := Delivered(r1) == [] && Ending(r1) == Some(AuthError);
    var busy := Delivered(r1) == [] && Ending(r1) == Some(BusyError);
    if (denied && !s.refreshFails(first)) || (busy && !s.backoffCanceled(first)) then (Delivered(r2), Ending(r2), 2)
    else (Delivered(r1), if busy then Some(Canceled) else Ending(r1), 1)
  }

  /** A second open happens exactly after an authentication failure before any line, unless
      the refresh fails, or after a busy gateway before any line, unless the back-off is
      canceled; then it alone decides what comes of it. */
  lemma RetriedIff(s: Script, first: nat)
    ensures var (seen, err, opens) := BroughtIn(s, first);
      var r1, r2 := s.response(first), s.response(first + 1);
      && (opens == 2 <==> (FailsEarly(r1, AuthError) && !s.refreshFails(first))
                          || (FailsEarly(r1, BusyError) && !s.backoffCanceled(first)))
      && (opens == 2 ==> seen == Delivered(r2) && forall e :: err == Some(e) <==> EndsIn(r2, e))
      && (opens == 1 && FailsEarly(r1, BusyError) ==> seen == [] && err == Some(Canceled))
      && (opens == 1 && !FailsEarly(r1, BusyError) ==>
            seen == Delivered(r1) && forall e :: err == Some(e) <==> EndsIn(r1, e))
  {
    hide Delivered, Ending, FailsEarly, EndsIn;
    var r1, r2 := s.response(first), s.response(first + 1);
    FailsEarlyIff(r1, AuthError);
    FailsEarlyIff(r1, BusyError);
    forall e
      ensures Ending(r1) == Some(e) <==> EndsIn(r1, e)
      ensures Ending(r2) == Some(e) <==> EndsIn(r2, e)
    {
      EndingIff(r1, e);
      EndingIff(r2, e);
    }
  }

  /** Opens the stream, once more after an authentication or busy error that came
      before any line. */
  method OpenStreamAsync(s: Script, first: nat) returns (seen: seq<Line>, err: Option<Error>, opens: nat)
    ensures (seen, err, opens) == BroughtIn(s, first)
  {
    seen, opens := [], 0;
    var attempt := 1;
    while true
      invariant attempt == opens + 1 && opens <= 1 && seen == []
      invariant opens == 1 ==>
        var r1 := s.response(first);
        && Delivered(r1) == []
        && ((Ending(r1) == Some(AuthError) && !s.refreshFails(first)) ||
            (Ending(r1) == Some(BusyError) && !s.backoffCanceled(first)))
      decreases 2 - opens
    {
      var lines;
      lines, err := OpenStreamLines(s.response(first + opens));
      opens := opens + 1;
      var produced := |lines| > 0;
      assert [] + lines == lines;
      seen := seen + lines;
      if err.None? {
        return;
      }
      if err.value == AuthError {
        if produced || attempt >= 2 {
          return;
        }
        if s.refreshFails(first + opens - 1) {
          return;
        }
      } else if err.value == BusyError {
        if produced || attempt >= 2 {
          return;
        }
        if s.backoffCanceled(first + opens - 1) {
          err := Some(Canceled);
          return;
        }
      } else {
        return;
      }
      attempt := attempt + 1;
    }
  }
}
