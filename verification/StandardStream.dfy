/** The event stream as browsers read it (sections 9.2.5 and 9.2.6 of the WHATWG HTML Standard), next to the page's
    own loop: on what the server prints the two agree, as long as no payload holds a carriage return. */
module StandardStream {
  import opened Seqs
  import opened EventStream

  const BYTE_ORDER_MARK := '\U{FEFF}'

  predicate EndsLine(c: char) { c == '\n' || c == '\r' }

  /** Position of the first character that ends a line, or the length of the text. */
  function LineEnd(s: string): (i: nat)
    ensures i <= |s| && (i < |s| ==> EndsLine(s[i])) && forall k | 0 <= k < i :: !EndsLine(s[k])
  {
    if s == "" || EndsLine(s[0]) then 0 else LineEnd(s[1..]) + 1
  }

  /** Where the next line begins: a carriage return and a newline together end one line. */
  function NextLine(s: string, i: nat): (n: nat)
    requires i < |s|
    ensures i < n <= |s|
  {
    if s[i] == '\r' && i + 1 < |s| && s[i + 1] == '\n' then i + 2 else i + 1
  }

  /** Position of the first colon, or the length of the line. */
  function Colon(s: string): (i: nat)
    ensures i <= |s| && (i < |s| ==> s[i] == ':') && forall k | 0 <= k < i :: s[k] != ':'
  {
    if s == "" || s[0] == ':' then 0 else Colon(s[1..]) + 1
  }

  /** The data buffer after a line that is not empty: a data field adds its value and a newline. */
  function WithLine(data: string, line: string): string {
    var i := Colon(line);
    if line[..i] != "data" then data
    else
      var value := if i == |line| then "" else line[i + 1..];
      data + (if value != "" && value[0] == ' ' then value[1..] else value) + "\n"
  }

  /** An empty line dispatches the data, without its last newline, if a data field came before. */
  function Dispatched(data: string): seq<string> { if data == "" then [] else [data[..|data| - 1]] }

  /** The events that a text dispatches; an incomplete one at the end is discarded. */
  function Read(data: string, text: string): seq<string>
    decreases |text|
  {
    var i := LineEnd(text);
    if i == |text| then []
    else if i == 0 then Dispatched(data) + Read("", text[NextLine(text, i)..])
    else Read(WithLine(data, text[..i]), text[NextLine(text, i)..])
  }

  function StandardRead(text: string): seq<string> {
    Read("", if text != "" && text[0] == BYTE_ORDER_MARK then text[1..] else text)
  }

  // ----- printed frames -----

  predicate Plain(s: string) { forall k | 0 <= k < |s| :: !EndsLine(s[k]) }

  lemma LineEndIs(s: string, i: nat)
    requires i < |s| && EndsLine(s[i]) && forall k | 0 <= k < i :: !EndsLine(s[k])
    ensures LineEnd(s) == i
  {
  }

  lemma DataLine(payload: string)
    ensures WithLine("", PREFIX + payload) == payload + "\n"
  {
    var line := PREFIX + payload;
    assert line[4] == ':' && forall k | 0 <= k < 4 :: line[k] != ':';
    assert Colon(line) == 4;
    assert line[..4] == "data" && line[5..] == " " + payload && (" " + payload)[1..] == payload;
  }

  /** One frame dispatches its payload, the empty one included. */
  lemma ReadFrame(payload: string, later: string)
    requires Plain(payload)
    ensures Read("", Frame(payload) + later) == [payload] + Read("", later)
  {
    hide LineEnd, WithLine;
    var text, i := Frame(payload) + later, |PREFIX| + |payload|;
    assert text == PREFIX + payload + BREAK + later;
    assert forall k | 0 <= k < i :: text[k] == (PREFIX + payload)[k];
    LineEndIs(text, i);
    assert text[..i] == PREFIX + payload;
    DataLine(payload);
    var rest := text[i + 1..];
    assert rest == "\n" + later;
    LineEndIs(rest, 0);
    assert rest[1..] == later;
    assert (payload + "\n")[..|payload|] == payload;
    assert Read(payload + "\n", rest) == Dispatched(payload + "\n") + Read("", later);
  }

  lemma {:induction false} ReadFrames(payloads: seq<string>, frames: seq<string>, later: string)
    requires |frames| == |payloads|
    requires forall k | 0 <= k < |payloads| :: Plain(payloads[k]) && frames[k] == Frame(payloads[k])
    ensures Read("", Joined(frames) + later) == payloads + Read("", later)
  {
    hide Read, Frame, Plain;
    if payloads == [] {
      assert Joined(frames) + later == later;
    } else {
      var n := |payloads| - 1;
      Associate(Joined(frames[..n]), frames[n], later);
      ReadFrames(payloads[..n], frames[..n], frames[n] + later);
      ReadFrame(payloads[n], later);
      Associate(payloads[..n], [payloads[n]], Read("", later));
      assert payloads[..n] + [payloads[n]] == payloads;
    }
  }

  predicate NoReturn(s: string) { '\r' !in s }

  /** What is dispatched never holds a carriage return. */
  lemma {:induction false} DispatchedNoReturn(data: string, text: string)
    requires NoReturn(data)
    ensures forall k | 0 <= k < |Read(data, text)| :: NoReturn(Read(data, text)[k])
    decreases |text|
  {
    hide LineEnd, WithLine;
    var i := LineEnd(text);
    if i == |text| {
    } else if i == 0 {
      DispatchedNoReturn("", text[NextLine(text, i)..]);
    } else {
      LineNoReturn(data, text[..i]);
      DispatchedNoReturn(WithLine(data, text[..i]), text[NextLine(text, i)..]);
    }
  }

  lemma LineNoReturn(data: string, line: string)
    requires NoReturn(data) && Plain(line)
    ensures NoReturn(WithLine(data, line))
  {
  }

  function Payloads(seen: seq<Observation>): (r: seq<string>)
    requires forall k | 0 <= k < |seen| :: seen[k].Seen?
    ensures |r| == |seen|
  {
    seq(|seen|, k requires 0 <= k < |seen| => seen[k].payload)
  }

  /** On what the server prints, a standard reader shows what the page shows exactly when no payload holds a carriage
      return; the payloads of the server are JSON texts, which hold none. */
  lemma StandardAgreesIff(turns: seq<Observation>)
    requires forall k | 0 <= k < |turns| && turns[k].Seen? :: OneLine(turns[k].payload)
    requires forall k | 0 <= k < |Emitted(turns)| :: Emitted(turns)[k].Seen?
    ensures var text := Joined(Printed(Emitted(turns)));
            StandardRead(text) == Drain(text).payloads
            <==> forall k | 0 <= k < |Emitted(turns)| :: NoReturn(Emitted(turns)[k].payload)
  {
    hide Emitted, Drain, Read, Printed, NoReturn;
    var payloads, text := Payloads(Emitted(turns)), Joined(Printed(Emitted(turns)));
    PageShows(turns);
    FramesPrinted(turns);
    NoMark(Printed(Emitted(turns)));
    PlainIff("");
    DispatchedNoReturn("", text);
    if StandardRead(text) == payloads {
      forall k | 0 <= k < |payloads|
        ensures NoReturn(Emitted(turns)[k].payload)
      {
        assert NoReturn(Read("", text)[k]);
      }
    }
    if forall k | 0 <= k < |Emitted(turns)| :: NoReturn(Emitted(turns)[k].payload) {
      forall k | 0 <= k < |payloads|
        ensures Plain(payloads[k])
      {
        PlainIff(payloads[k]);
      }
      ReadFrames(payloads, Printed(Emitted(turns)), "");
      assert text + "" == text;
      NothingRead();
    }
  }

  lemma PlainIff(s: string)
    ensures Plain(s) <==> OneLine(s) && NoReturn(s)
  {
  }

  /** What is printed: one frame for each payload, and each payload is one line. */
  lemma FramesPrinted(turns: seq<Observation>)
    requires forall k | 0 <= k < |turns| && turns[k].Seen? :: OneLine(turns[k].payload)
    requires forall k | 0 <= k < |Emitted(turns)| :: Emitted(turns)[k].Seen?
    ensures var frames := Printed(Emitted(turns));
            forall k | 0 <= k < |frames| ::
              OneLine(Emitted(turns)[k].payload) && frames[k] == Frame(Emitted(turns)[k].payload) && PREFIX <= frames[k]
  {
    hide Emitted, OneLine;
    TerminalIsLast(turns);
  }

  lemma PageShows(turns: seq<Observation>)
    requires forall k | 0 <= k < |turns| && turns[k].Seen? :: OneLine(turns[k].payload)
    requires forall k | 0 <= k < |Emitted(turns)| :: Emitted(turns)[k].Seen?
    ensures Drain(Joined(Printed(Emitted(turns)))).payloads == Payloads(Emitted(turns))
  {
    hide Emitted, Drain, Printed;
    var text := Joined(Printed(Emitted(turns)));
    assert Joined([text]) == text by { assert [text][..0] == []; }
    RoundTrip(turns, [text]);
  }

  lemma NothingRead()
    ensures Read("", "") == []
  {
  }

  /** A printed text does not begin with a byte order mark. */
  lemma {:induction false} NoMark(frames: seq<string>)
    requires forall k | 0 <= k < |frames| :: PREFIX <= frames[k]
    ensures Joined(frames) == "" || Joined(frames)[0] == 'd'
  {
    if frames == [] {
    } else {
      NoMark(frames[..|frames| - 1]);
    }
  }
}
