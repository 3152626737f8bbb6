/** The status stream: the server prints frames, the page reads them back from arbitrarily cut chunks. */
module EventStream {
  import opened Seqs
  import opened Jobs

  const PREFIX := "data: "
  const BREAK := "\n\n"

  // ----- the server -----

  /** What one turn of the server's loop meets. */
  datatype Observation = Disconnected | Missing | Seen(status: Status, payload: string)

  function Frame(payload: string): string { PREFIX + payload + BREAK }

  predicate Terminal(status: Status) { status == Done || status == Failed }

  /** The observations that are turned into frames. */
  function Emitted(turns: seq<Observation>): seq<Observation> {
    if turns == [] || !turns[0].Seen? then []
    else if Terminal(turns[0].status) then [turns[0]]
    else [turns[0]] + Emitted(turns[1..])
  }

  function Printed(seen: seq<Observation>): (frames: seq<string>)
    requires forall k | 0 <= k < |seen| :: seen[k].Seen?
    ensures |frames| == |seen|
  {
    seq(|seen|, k requires 0 <= k < |seen| => Frame(seen[k].payload))
  }

  /** The generator loop over the turns it gets to take: one frame for each status it sees, in order, until the client is
      gone, the job is missing, or the job is done or failed. */
  method GenerateEvents(turns: seq<Observation>) returns (frames: seq<string>)
    ensures (forall k | 0 <= k < |Emitted(turns)| :: Emitted(turns)[k].Seen?) && frames == Printed(Emitted(turns))
    ensures |frames| <= |turns| && forall k | 0 <= k < |frames| :: turns[k].Seen? && frames[k] == Frame(turns[k].payload)
    ensures forall k | 0 <= k < |frames| - 1 :: turns[k].status != Done && turns[k].status != Failed
    ensures |frames| < |turns| ==>
              !turns[|frames|].Seen?
              || (frames != [] && (turns[|frames| - 1].status == Done || turns[|frames| - 1].status == Failed))
  {
    hide Emitted, Frame;
    frames := [];
    var turn := 0;
    while turn < |turns|
      invariant 0 <= turn == |frames| <= |turns|
      invariant forall k | 0 <= k < turn :: turns[k].Seen? && frames[k] == Frame(turns[k].payload)
      invariant forall k | 0 <= k < turn :: !Terminal(turns[k].status)
    {
      if turns[turn].Disconnected? {
        break;
      }
      if turns[turn].Missing? {
        break;
      }
      frames := frames + [Frame(turns[turn].payload)];
      if Terminal(turns[turn].status) {
        EmittedIs(turns, turn + 1);
        return;
      }
      turn := turn + 1;
    }
    EmittedIs(turns, turn);
  }

  /** The first `n` turns are printed if none before the last of them is terminal and there is a reason to stop then. */
  lemma {:induction false} EmittedIs(turns: seq<Observation>, n: nat)
    requires n <= |turns| && forall k | 0 <= k < n :: turns[k].Seen?
    requires forall k | 0 <= k < n - 1 :: !Terminal(turns[k].status)
    requires n == |turns| || !turns[n].Seen? || (n > 0 && Terminal(turns[n - 1].status))
    ensures Emitted(turns) == turns[..n]
  {
    if n == 0 {
    } else if n == 1 && Terminal(turns[0].status) {
    } else {
      EmittedIs(turns[1..], n - 1);
    }
  }

  /** After `done` or `failed` nothing more is printed, and printing stops before the turns run out only where the client
      is gone, the job is missing, or the frame just printed says `done` or `failed`. */
  lemma {:induction false} TerminalIsLast(turns: seq<Observation>)
    ensures var e := Emitted(turns);
            && e <= turns
            && (forall k | 0 <= k < |e| :: turns[k].Seen?)
            && (forall k | 0 <= k < |e| - 1 :: turns[k].status != Done && turns[k].status != Failed)
            && (|e| < |turns| ==>
                  !turns[|e|].Seen? || (e != [] && (turns[|e| - 1].status == Done || turns[|e| - 1].status == Failed)))
  {
    if turns == [] || !turns[0].Seen? || Terminal(turns[0].status) {
    } else {
      TerminalIsLast(turns[1..]);
    }
  }

  // ----- the page -----

  predicate BreakAt(s: string, i: nat) { i + 2 <= |s| && s[i] == '\n' && s[i + 1] == '\n' }

  /** Position of the first empty line, or the length of the text when there is none. */
  function FirstBreak(s: string): (i: nat)
    ensures i < |s| ==> BreakAt(s, i)
    ensures i <= |s| && forall k: nat | k < i :: !BreakAt(s, k)
  {
    if |s| < 2 then |s|
    else if BreakAt(s, 0) then 0
    else
      var i := FirstBreak(s[1..]);
      assert forall k: nat | k < i + 1 :: k == 0 || BreakAt(s, k) == BreakAt(s[1..], k - 1);
      i + 1
  }

  /** Position of the first newline, or the length of the text. */
  function FirstNewline(s: string): (i: nat)
    ensures i <= |s| && (i < |s| ==> s[i] == '\n') && forall k | 0 <= k < i :: s[k] != '\n'
  {
    if s == "" || s[0] == '\n' then 0 else FirstNewline(s[1..]) + 1
  }

  /** The payload of the first line of a frame that carries data. */
  function DataOf(frame: string): Option<string>
    decreases |frame|
  {
    var line := frame[..FirstNewline(frame)];
    if PREFIX <= line then Some(line[|PREFIX|..])
    else if FirstNewline(frame) < |frame| then DataOf(frame[FirstNewline(frame) + 1..])
    else None
  }

  function ListOf(payload: Option<string>): seq<string> {
    match payload
    case Some(p) => [p]
    case None => []
  }

  datatype Parsed = Parsed(payloads: seq<string>, rest: string)

  /** All complete frames of a buffer, and what is left of it. */
  function Drain(buffer: string): Parsed
    decreases |buffer|
  {
    var i := FirstBreak(buffer);
    if i == |buffer| then Parsed([], buffer)
    else
      var later := Drain(buffer[i + 2..]);
      Parsed(ListOf(DataOf(buffer[..i])) + later.payloads, later.rest)
  }

  function Joined(chunks: seq<string>): string {
    if chunks == [] then "" else Joined(chunks[..|chunks| - 1]) + chunks[|chunks| - 1]
  }

  /** The inner loop: cut complete frames off the buffer. */
  method CutFrames(text: string) returns (payloads: seq<string>, buffer: string)
    ensures Parsed(payloads, buffer) == Drain(text)
  {
    hide Drain, FirstBreak, DataOf;
    payloads, buffer := [], text;
    var sepIndex := FirstBreak(buffer);
    while sepIndex != |buffer|
      invariant sepIndex == FirstBreak(buffer)
      invariant Drain(text) == Parsed(payloads + Drain(buffer).payloads, Drain(buffer).rest)
      decreases |buffer|
    {
      DrainStep(buffer);
      ghost var before := payloads;
      var frame := buffer[..sepIndex];
      buffer := buffer[sepIndex + 2..];
      var dataLine := DataOf(frame);
      if dataLine.Some? {
        payloads := payloads + [dataLine.value];
      }
      assert payloads == before + ListOf(dataLine);
      Associate(before, ListOf(dataLine), Drain(buffer).payloads);
      sepIndex := FirstBreak(buffer);
    }
    NothingToCut(buffer);
  }

  /** The outer loop: append each chunk to the buffer and cut. */
  method ReadStream(chunks: seq<string>) returns (payloads: seq<string>, buffer: string)
    ensures Parsed(payloads, buffer) == Drain(Joined(chunks))
  {
    payloads, buffer := [], "";
    for k := 0 to |chunks|
      invariant Parsed(payloads, buffer) == Drain(Joined(chunks[..k]))
    {
      DrainInPieces(Joined(chunks[..k]), chunks[k]);
      assert chunks[..k + 1][..k] == chunks[..k];
      var more;
      more, buffer := CutFrames(buffer + chunks[k]);
      payloads := payloads + more;
    }
    FullPrefix(chunks);
  }

  // ----- which line of a frame is shown -----

  predicate LineStarts(s: string, i: nat) { i <= |s| && (i == 0 || s[i - 1] == '\n') }

  /** A line that carries data begins at position `i`. */
  predicate DataLineAt(s: string, i: nat) { LineStarts(s, i) && "data: " <= s[i..] }

  /** `payload` is the rest of the line after position `i`. */
  predicate RestOfLine(s: string, i: nat, payload: string) {
    var end := i + |payload|;
    end <= |s| && s[i..end] == payload && OneLine(payload) && (end == |s| || s[end] == '\n')
  }

  /** The first line that carries data begins at position `i`. */
  ghost predicate FirstDataLine(s: string, i: nat) {
    DataLineAt(s, i) && forall k: nat | k < i :: !DataLineAt(s, k)
  }

  /** Lines of the remainder after a newline are the later lines of the text. */
  lemma LaterLine(s: string, n: nat, j: nat)
    requires n < |s| && s[n] == '\n' && j <= |s| - n - 1
    ensures DataLineAt(s, n + 1 + j) <==> DataLineAt(s[n + 1..], j)
  {
    assert s[n + 1 + j..] == s[n + 1..][j..];
  }

  lemma PrefixOfLine(s: string, n: nat)
    requires n <= |s| && (n == |s| || s[n] == '\n')
    ensures "data: " <= s <==> "data: " <= s[..n]
  {
    if "data: " <= s {
      assert forall k | 0 <= k < 6 :: s[k] == "data: "[k] != '\n';
    }
  }

  /** `shown` is the rest of the first line that carries data, or nothing if there is no such line. */
  ghost predicate ShowsFirst(frame: string, shown: Option<string>) {
    match shown
    case Some(payload) => exists i: nat :: FirstDataLine(frame, i) && RestOfLine(frame, i + 6, payload)
    case None => forall i: nat :: !DataLineAt(frame, i)
  }

  lemma ShowsNow(frame: string, n: nat)
    requires n == FirstNewline(frame) && "data: " <= frame[..n]
    ensures ShowsFirst(frame, Some(frame[..n][6..]))
  {
    PrefixOfLine(frame, n);
    assert frame[0..] == frame;
    assert FirstDataLine(frame, 0);
    assert frame[..n][6..] == frame[6..n];
    assert RestOfLine(frame, 0 + 6, frame[..n][6..]);
  }

  /** The first line ends at `n` and carries no data. */
  predicate OtherFirst(frame: string, n: nat) { n == FirstNewline(frame) && !("data: " <= frame[..n]) }

  /** The lines of a text whose first line carries no data are those after the first. */
  lemma LinesLater(frame: string, n: nat, k: nat)
    requires OtherFirst(frame, n)
    ensures DataLineAt(frame, k) <==> n < k <= |frame| && DataLineAt(frame[n + 1..], k - n - 1)
  {
    PrefixOfLine(frame, n);
    assert frame[0..] == frame;
    if n < k <= |frame| {
      LaterLine(frame, n, k - n - 1);
    }
  }

  lemma FirstLater(frame: string, n: nat, i: nat)
    requires OtherFirst(frame, n) && n < |frame|
    requires FirstDataLine(frame[n + 1..], i)
    ensures FirstDataLine(frame, n + 1 + i)
  {
    hide OtherFirst, DataLineAt, FirstNewline;
    LineInside(frame[n + 1..], i);
    LinesLater(frame, n, n + 1 + i);
    forall k: nat | k < n + 1 + i
      ensures !DataLineAt(frame, k)
    {
      LinesLater(frame, n, k);
    }
  }

  lemma FoundLater(frame: string, n: nat, i: nat, payload: string)
    requires OtherFirst(frame, n) && n < |frame|
    requires FirstDataLine(frame[n + 1..], i) && RestOfLine(frame[n + 1..], i + 6, payload)
    ensures FirstDataLine(frame, n + 1 + i) && RestOfLine(frame, n + 1 + i + 6, payload)
  {
    hide OtherFirst, DataLineAt, FirstDataLine, RestOfLine, FirstNewline;
    FirstLater(frame, n, i);
    LaterRest(frame, n + 1, i + 6, payload);
  }

  lemma ShowsLater(frame: string, n: nat, shown: Option<string>)
    requires OtherFirst(frame, n) && n < |frame|
    requires ShowsFirst(frame[n + 1..], shown)
    ensures ShowsFirst(frame, shown)
  {
    hide OtherFirst, DataLineAt, FirstDataLine, RestOfLine, FirstNewline;
    match shown
    case Some(payload) =>
      var i: nat :| FirstDataLine(frame[n + 1..], i) && RestOfLine(frame[n + 1..], i + 6, payload);
      FoundLater(frame, n, i, payload);
    case None =>
      forall k: nat
        ensures !DataLineAt(frame, k)
      {
        LinesLater(frame, n, k);
      }
  }

  lemma LineInside(s: string, i: nat)
    requires DataLineAt(s, i)
    ensures i <= |s|
  {
  }

  lemma ShowsNothing(frame: string)
    requires FirstNewline(frame) == |frame| && !("data: " <= frame)
    ensures ShowsFirst(frame, None)
  {
    assert frame[..|frame|] == frame;
    forall k: nat
      ensures !DataLineAt(frame, k)
    {
      LinesLater(frame, |frame|, k);
    }
  }

  /** The page shows the rest of the first line of a frame that begins with "data: ", whatever other lines come before it,
      and nothing for a frame without such a line. */
  lemma {:induction false} DataOfIsFirst(frame: string)
    ensures ShowsFirst(frame, DataOf(frame))
    decreases |frame|
  {
    hide ShowsFirst, FirstNewline;
    var n := FirstNewline(frame);
    if PREFIX <= frame[..n] {
      ShowsNow(frame, n);
    } else if n < |frame| {
      DataOfIsFirst(frame[n + 1..]);
      ShowsLater(frame, n, DataOf(frame[n + 1..]));
    } else {
      assert frame[..n] == frame;
      ShowsNothing(frame);
    }
  }

  lemma LaterRest(s: string, m: nat, i: nat, payload: string)
    requires m <= |s| && RestOfLine(s[m..], i, payload)
    ensures RestOfLine(s, m + i, payload)
  {
    assert s[m..][i..i + |payload|] == s[m + i..m + i + |payload|];
  }

  /** A frame without data, such as a comment, leaves no trace. */
  lemma NoDataNoTrace(frame: string, later: string)
    requires FirstBreak(frame + BREAK + later) == |frame| && forall i: nat :: !DataLineAt(frame, i)
    ensures Drain(frame + BREAK + later) == Drain(later)
  {
    hide Drain, FirstBreak, DataOf, DataLineAt;
    var text := frame + BREAK + later;
    DataOfIsFirst(frame);
    DrainStep(text);
    assert text[..|frame|] == frame && text[|frame| + 2..] == later;
  }

  // ----- cutting does not matter -----

  lemma FirstBreakIs(s: string, i: nat)
    requires BreakAt(s, i) && forall k: nat | k < i :: !BreakAt(s, k)
    ensures FirstBreak(s) == i
  {
    assert !(FirstBreak(s) < i);
  }

  /** One frame off the buffer. */
  lemma DrainStep(buffer: string)
    requires FirstBreak(buffer) != |buffer|
    ensures FirstBreak(buffer) + 2 <= |buffer|
    ensures var i := FirstBreak(buffer);
            Drain(buffer) == Parsed(ListOf(DataOf(buffer[..i])) + Drain(buffer[i + 2..]).payloads, Drain(buffer[i + 2..]).rest)
  {
  }

  lemma NothingToCut(buffer: string)
    requires FirstBreak(buffer) == |buffer|
    ensures Drain(buffer) == Parsed([], buffer)
  {
  }

  lemma BreakStays(a: string, b: string)
    requires FirstBreak(a) != |a|
    ensures FirstBreak(a) + 2 <= |a| && FirstBreak(a + b) == FirstBreak(a)
  {
    var i := FirstBreak(a);
    forall k: nat | k <= i
      ensures BreakAt(a + b, k) == BreakAt(a, k)
    {
    }
    FirstBreakIs(a + b, i);
  }

  /** For every text and every place to cut it, also inside a separator: draining the first part, and then the
      remainder with the second part, gives what draining the whole gives. */
  lemma {:induction false} DrainInPieces(a: string, b: string)
    ensures Drain(a + b) == Parsed(Drain(a).payloads + Drain(Drain(a).rest + b).payloads, Drain(Drain(a).rest + b).rest)
    decreases |a|
  {
    hide Drain, FirstBreak, DataOf;
    var i := FirstBreak(a);
    if i == |a| {
      NothingToCut(a);
    } else {
      BreakStays(a, b);
      DrainStep(a);
      var tail := a[i + 2..];
      assert (a + b)[..i] == a[..i];
      assert (a + b)[i + 2..] == tail + b;
      DrainStep(a + b);
      DrainInPieces(tail, b);
      Associate(ListOf(DataOf(a[..i])), Drain(tail).payloads, Drain(Drain(tail).rest + b).payloads);
    }
  }

  // ----- round trip -----

  predicate OneLine(s: string) { forall k | 0 <= k < |s| :: s[k] != '\n' }

  lemma DataOfFrame(payload: string)
    requires OneLine(payload)
    ensures DataOf(PREFIX + payload) == Some(payload)
  {
    var line := PREFIX + payload;
    assert FirstNewline(line) == |line|;
    assert line[..|line|] == line;
    assert line[|PREFIX|..] == payload;
  }

  lemma FrameBreak(payload: string, later: string)
    requires OneLine(payload)
    ensures FirstBreak(Frame(payload) + later) == |PREFIX| + |payload|
  {
    var text, i := Frame(payload) + later, |PREFIX| + |payload|;
    assert text == PREFIX + payload + BREAK + later;
    assert forall k | 0 <= k < i :: text[k] == (PREFIX + payload)[k];
    FirstBreakIs(text, i);
  }

  lemma DrainFrame(payload: string, later: string)
    requires OneLine(payload)
    ensures Drain(Frame(payload) + later) == Parsed([payload] + Drain(later).payloads, Drain(later).rest)
  {
    hide Drain, FirstBreak, DataOf, OneLine;
    var text, i := Frame(payload) + later, |PREFIX| + |payload|;
    FrameBreak(payload, later);
    DrainStep(text);
    assert text[..i] == PREFIX + payload;
    assert text[i + 2..] == later;
    DataOfFrame(payload);
  }

  lemma {:induction false} DrainFrames(payloads: seq<string>, frames: seq<string>, later: string)
    requires |frames| == |payloads|
    requires forall k | 0 <= k < |payloads| :: OneLine(payloads[k]) && frames[k] == Frame(payloads[k])
    ensures Drain(Joined(frames) + later) == Parsed(payloads + Drain(later).payloads, Drain(later).rest)
  {
    hide Drain, Frame, OneLine;
    if payloads == [] {
      assert Joined(frames) + later == later;
    } else {
      var n := |payloads| - 1;
      Associate(Joined(frames[..n]), frames[n], later);
      DrainFrames(payloads[..n], frames[..n], frames[n] + later);
      DrainFrame(payloads[n], later);
      Associate(payloads[..n], [payloads[n]], Drain(later).payloads);
      assert payloads[..n] + [payloads[n]] == payloads;
    }
  }

  /** Whatever the server prints, cut anywhere into chunks, the page shows exactly the printed payloads in order and
      is left with an empty buffer. */
  lemma RoundTrip(turns: seq<Observation>, chunks: seq<string>)
    requires forall k | 0 <= k < |turns| && turns[k].Seen? :: OneLine(turns[k].payload)
    requires forall k | 0 <= k < |Emitted(turns)| :: Emitted(turns)[k].Seen?
    requires Joined(chunks) == Joined(Printed(Emitted(turns)))
    ensures Drain(Joined(chunks)).rest == ""
    ensures var shown := Drain(Joined(chunks)).payloads;
            |shown| == |Emitted(turns)| && forall k | 0 <= k < |shown| :: shown[k] == Emitted(turns)[k].payload
  {
    TerminalIsLast(turns);
    var seen := Emitted(turns);
    var payloads := seq(|seen|, k requires 0 <= k < |seen| => seen[k].payload);
    DrainFrames(payloads, Printed(seen), "");
    assert Joined(chunks) + "" == Joined(chunks);
  }
}
