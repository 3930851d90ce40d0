/** Recognising a tool call written out as text. */
module StreamText {
  import opened ToolCalls

  const MARKER := "Tool calls:"

  /** The four characters the streaming test strips on the left. */
  predicate IsBlank(c: char) { c == ' ' || c == '\t' || c == '\n' || c == '\r' }

  /** Unicode White_Space, which `strings.TrimSpace` strips. */
  predicate IsSpace(c: char) {
    || IsBlank(c) || c == '\U{0B}' || c == '\U{0C}' || c == '\U{85}' || c == '\U{A0}'
    || c == '\U{1680}' || '\U{2000}' <= c <= '\U{200A}' || c == '\U{2028}' || c == '\U{2029}'
    || c == '\U{202F}' || c == '\U{205F}' || c == '\U{3000}'
  }

  /** How much of the last n characters is left when the front is stripped. */
  function Kept(s: string, strip: char -> bool, n: nat): (k: nat)
    requires n <= |s|
    ensures k <= n && (k == 0 || !strip(s[|s| - k])) && forall i :: |s| - n <= i < |s| - k ==> strip(s[i])
  {
    if n > 0 && strip(s[|s| - n]) then Kept(s, strip, n - 1) else n
  }

  function TrimLeft(s: string, strip: char -> bool): (r: string)
    ensures r == "" || !strip(r[0])
  {
    s[Leading(s, strip)..]
  }

  /** The first index whose character is kept. */
  function Leading(s: string, strip: char -> bool): (n: nat)
    ensures n <= |s| && (n == |s| || !strip(s[n])) && forall i :: 0 <= i < n ==> strip(s[i])
  {
    |s| - Kept(s, strip, |s|)
  }

  lemma TrimLeftUnique(s: string, strip: char -> bool, n: nat)
    requires n <= |s| && (n == |s| || !strip(s[n])) && forall i :: 0 <= i < n ==> strip(s[i])
    ensures TrimLeft(s, strip) == s[n..]
  {
    var m := Leading(s, strip);
    assert m == n;
  }

  /** The last index up to `to` after which everything is stripped. */
  function Trailing(s: string, strip: char -> bool, to: nat): (n: nat)
    requires to <= |s|
    ensures n <= to && (n == 0 || !strip(s[n - 1])) && forall i :: n <= i < to ==> strip(s[i])
  {
    if to > 0 && strip(s[to - 1]) then Trailing(s, strip, to - 1) else to
  }

  function TrimRight(s: string, strip: char -> bool): (r: string)
    ensures r == "" || !strip(r[|r| - 1])
    ensures r <= s
  {
    s[..Trailing(s, strip, |s|)]
  }

  function TrimSpace(s: string): string {
    TrimRight(TrimLeft(s, IsSpace), IsSpace)
  }

  /** Whether the text so far may still turn out to be a written tool call. */
  predicate IsPotential(text: string) {
    var candidate := TrimLeft(text, IsBlank);
    candidate == "" || candidate <= MARKER || MARKER <= candidate
  }

  /** The first position of a character among the last n, or -1. */
  function IndexAmong(s: string, c: char, n: nat): (i: int)
    requires n <= |s|
    ensures -1 <= i < |s|
    ensures i >= 0 ==> s[i] == c && |s| - n <= i
    ensures forall j :: |s| - n <= j < (if i < 0 then |s| else i) ==> s[j] != c
  {
    if n == 0 then -1 else if s[|s| - n] == c then |s| - n else IndexAmong(s, c, n - 1)
  }

  predicate HasSuffix(s: string, suffix: string) {
    |s| >= |suffix| && s[|s| - |suffix|..] == suffix
  }

  lemma SuffixChars(s: string, suffix: string, j: nat)
    requires HasSuffix(s, suffix) && |s| - |suffix| <= j < |s|
    ensures s[j] == suffix[j - (|s| - |suffix|)]
  {
    assert s[j] == s[|s| - |suffix|..][j - (|s| - |suffix|)];
  }

  const FENCE := "```"

  /** A newline of a fenced payload lies before the closing fence. */
  lemma NewlineBeforeFence(payload: string, newline: nat)
    requires HasSuffix(payload, FENCE) && newline < |payload| && payload[newline] == '\n'
    ensures newline < |payload| - |FENCE|
  {
    if newline >= |payload| - |FENCE| {
      SuffixChars(payload, FENCE, newline);
    }
  }

  /** The body of a fenced payload; the slice is always in range. */
  function Unfenced(payload: string): string {
    if FENCE <= payload && HasSuffix(payload, FENCE) then
      var newline := IndexAmong(payload, '\n', |payload|);
      if newline >= 0 then
        NewlineBeforeFence(payload, newline);
        TrimSpace(payload[newline + 1..|payload| - |FENCE|])
      else payload
    else payload
  }

  /** JSON decoding and normalisation of the payload, not modelled further; the
      empty sequence stands for a failure or for no usable call. */
  type Decoder = string -> seq<ToolCall>

  /** `ParseToolCallsText`; the empty sequence stands for nil. */
  function ParsedCalls(decode: Decoder, text: string): seq<ToolCall> {
    if text == "" then []
    else
      var trimmed := TrimSpace(text);
      if !(MARKER <= trimmed) then []
      else
        var payload := Unfenced(TrimSpace(trimmed[|MARKER|..]));
        if !("[" <= payload) then [] else decode(payload)
  }

  lemma TrimRightUnique(s: string, strip: char -> bool, n: nat)
    requires n <= |s| && (n == 0 || !strip(s[n - 1])) && forall i :: n <= i < |s| ==> strip(s[i])
    ensures TrimRight(s, strip) == s[..n]
  {
    var m := Trailing(s, strip, |s|);
    assert m == n;
  }

  predicate AllSpace(s: string) {
    forall i :: 0 <= i < |s| ==> IsSpace(s[i])
  }

  predicate Trimmed(s: string) {
    s != "" && !IsSpace(s[0]) && !IsSpace(s[|s| - 1])
  }

  lemma TrimmedBetween(before: string, core: string, after: string)
    requires AllSpace(before) && Trimmed(core) && AllSpace(after)
    ensures TrimSpace(before + core + after) == core
  {
    hide IsSpace;
    var s := before + core + after;
    TrimLeftUnique(s, IsSpace, |before|);
    assert s[|before|..] == core + after;
    TrimRightUnique(core + after, IsSpace, |core|);
    assert (core + after)[..|core|] == core;
  }

  /** A written tool call is the marker and a payload that opens a list, with any white
      space around them; the payload is what gets decoded. */
  lemma WrittenCallParses(decode: Decoder, before: string, gap: string, payload: string, after: string)
    requires AllSpace(before) && AllSpace(gap) && AllSpace(after) && Trimmed(payload) && payload[0] == '['
    ensures ParsedCalls(decode, before + (MARKER + gap + payload) + after) == decode(payload)
  {
    hide IsSpace, TrimSpace, Unfenced;
    var core := MARKER + gap + payload;
    MarkerIsNoSpace();
    assert core[0] == 'T' && core[|core| - 1] == payload[|payload| - 1];
    TrimmedBetween(before, core, after);
    TrimmedBetween("", core, "");
    assert "" + core + "" == core;
    PayloadOf(gap, payload);
    NotFenced(payload);
  }

  lemma NotFenced(payload: string)
    requires payload != "" && payload[0] == '['
    ensures Unfenced(payload) == payload
  {
    assert FENCE[0] == '`';
  }

  lemma MarkerIsNoSpace()
    ensures !IsSpace('T') && !IsSpace('`')
  {
  }

  /** The payload may be fenced: what is decoded then lies between the end of the opening
      line and the closing fence, without the white space around it. */
  lemma FencedCallParses(decode: Decoder, gap: string, language: string, inner: string, payload: string, outer: string)
    requires AllSpace(gap) && '\n' !in language
    requires AllSpace(inner) && Trimmed(payload) && payload[0] == '[' && AllSpace(outer)
    ensures var fenced := FENCE + language + "\n" + (inner + payload + outer) + FENCE;
            ParsedCalls(decode, MARKER + gap + fenced) == decode(payload)
  {
    hide IsSpace, TrimSpace, Unfenced;
    var fenced := FENCE + language + "\n" + (inner + payload + outer) + FENCE;
    assert fenced[0] == '`' && fenced[|fenced| - 1] == '`';
    MarkerIsNoSpace();
    PayloadOf(gap, fenced);
    FenceOpens(language, inner + payload + outer);
    TrimmedBetween(inner, payload, outer);
  }

  /** What follows the marker, trimmed. */
  lemma PayloadOf(gap: string, payload: string)
    requires AllSpace(gap) && Trimmed(payload)
    ensures var trimmed := TrimSpace(MARKER + gap + payload);
            MARKER <= trimmed && TrimSpace(trimmed[|MARKER|..]) == payload
  {
    hide IsSpace, TrimSpace, Trimmed, AllSpace;
    var tail := gap + payload;
    TrimmedBetween(gap, payload, "") by {
      NoSpaceInNothing();
    }
    assert tail + "" == tail;
    TrimmedAfterMarker(tail, payload, gap);
    assert MARKER + gap + payload == MARKER + tail && (MARKER + tail)[|MARKER|..] == tail;
  }

  lemma NoSpaceInNothing()
    ensures AllSpace("")
  {
  }

  lemma TrimmedAfterMarker(tail: string, payload: string, gap: string)
    requires Trimmed(payload) && tail == gap + payload
    ensures TrimSpace(MARKER + tail) == MARKER + tail
  {
    hide IsSpace, TrimSpace;
    MarkerIsNoSpace();
    var text := MARKER + tail;
    assert text[0] == MARKER[0] && text[|text| - 1] == payload[|payload| - 1];
    TrimmedBetween("", text, "");
    assert "" + text + "" == text;
  }

  lemma FenceOpens(language: string, body: string)
    requires '\n' !in language
    ensures var fenced := FENCE + language + "\n" + body + FENCE;
            Unfenced(fenced) == TrimSpace(body)
  {
    hide TrimSpace;
    var fenced := FENCE + language + "\n" + body + FENCE;
    assert FENCE <= fenced && HasSuffix(fenced, FENCE);
    var n := |FENCE| + |language|;
    assert fenced[n] == '\n';
    forall i | 0 <= i < n
      ensures fenced[i] != '\n'
    {
      assert i >= |FENCE| ==> fenced[i] == language[i - |FENCE|];
    }
    var newline := IndexAmong(fenced, '\n', |fenced|);
    assert newline == n;
    assert fenced[n + 1..|fenced| - |FENCE|] == body;
  }

  /** The streaming test holds text back exactly while some continuation of it begins, after
      the blanks, with the marker. */
  lemma PotentialIff(text: string)
    ensures IsPotential(text) <==> exists more :: MARKER <= TrimLeft(text + more, IsBlank)
  {
    hide IsPotential, TrimLeft;
    if IsPotential(text) {
      var more := Continuation(text);
    }
    if more :| MARKER <= TrimLeft(text + more, IsBlank) {
      BeginsWithMarker(text + more);
      PotentialIsPrefixClosed(text, more);
    }
  }

  lemma BeginsWithMarker(text: string)
    requires MARKER <= TrimLeft(text, IsBlank)
    ensures IsPotential(text)
  {
  }

  lemma Continuation(text: string) returns (more: string)
    requires IsPotential(text)
    ensures MARKER <= TrimLeft(text + more, IsBlank)
  {
    var n := Leading(text, IsBlank);
    var rest := text[n..];
    more := if MARKER <= rest then "" else MARKER[|rest|..];
    assert MARKER <= rest + more;
    assert text + more == text[..n] + (rest + more);
    assert (text + more)[n] == MARKER[0] && (text + more)[n..] == rest + more;
    assert forall i :: 0 <= i < n ==> (text + more)[i] == text[i];
    TrimLeftUnique(text + more, IsBlank, n);
  }

  lemma TrimLeftPrefix(a: string, b: string, strip: char -> bool)
    ensures TrimLeft(a, strip) != "" ==> TrimLeft(a + b, strip) == TrimLeft(a, strip) + b
  {
    var n := Leading(a, strip);
    if n < |a| {
      TrimLeftUnique(a + b, strip, n);
      assert (a + b)[n..] == a[n..] + b;
    }
  }

  /** The test is closed under prefixes: a text that may still be a tool call never
      went through a state in which it could not be one. */
  lemma PotentialIsPrefixClosed(a: string, b: string)
    requires IsPotential(a + b)
    ensures IsPotential(a)
  {
    TrimLeftPrefix(a, b, IsBlank);
    var x := TrimLeft(a, IsBlank);
    if x != "" && MARKER <= x + b && |x| < |MARKER| {
      assert x == (x + b)[..|x|] && (x + b)[..|MARKER|] == MARKER;
      assert x == MARKER[..|x|];
    }
  }

  /** After the blanks the text goes on with some other kind of white space. */
  predicate OddlyIndented(text: string) {
    var rest := TrimLeft(text, IsBlank);
    rest != "" && IsSpace(rest[0])
  }

  lemma TrimTwice(s: string)
    ensures TrimLeft(TrimLeft(s, IsBlank), IsSpace) == TrimLeft(s, IsSpace)
  {
    var n := Leading(s, IsBlank);
    var m := Leading(s[n..], IsSpace);
    forall i | 0 <= i < n + m
      ensures IsSpace(s[i])
    {
      assert i >= n ==> s[i] == s[n..][i - n];
    }
    TrimLeftUnique(s, IsSpace, n + m);
    assert s[n..][m..] == s[n + m..];
  }

  /** On a text that reads as a tool call once trimmed, the streaming test fails
      exactly when the text is oddly indented. */
  lemma ParsedButNotPotentialIff(decode: Decoder, text: string)
    requires ParsedCalls(decode, text) != []
    ensures IsPotential(text) <==> !OddlyIndented(text)
  {
    TrimTwice(text);
    var rest := TrimLeft(text, IsBlank);
    var left := TrimLeft(text, IsSpace);
    assert MARKER <= TrimSpace(text) <= left;
    if OddlyIndented(text) {
      assert rest[0] != MARKER[0];
    } else {
      if rest != "" {
        TrimLeftUnique(rest, IsSpace, 0);
      }
      assert left == rest;
    }
  }
}
