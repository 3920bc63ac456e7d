/** The server-sent events printer and the parser on the client. */
module Sse {
  import opened Outcomes
  import PyText

  datatype Event<P> = Event(name: string, payload: P)

  datatype DecodeError = NotJson | NotAnObject

  datatype SseError = Incomplete | BadData(error: DecodeError)

  /** How payloads are written and read. */
  datatype Codec<!P> = Codec(encode: P -> string, decode: string -> Result<P, DecodeError>)

  // ---- the printer ----

  const EVENT := "event"
  const DATA := "data"

  function Field(key: string, value: string): string {
    key + ": " + value
  }

  /** `_sse` */
  function Print<P>(c: Codec<P>, e: Event<P>): string {
    Field(EVENT, e.name) + "\n" + Field(DATA, c.encode(e.payload)) + "\n" + "\n"
  }

  function Stream<P>(c: Codec<P>, events: seq<Event<P>>): string {
    if events == [] then "" else Print(c, events[0]) + Stream(c, events[1..])
  }

  // ---- the parser ----

  /** The lines that a response yields: cut after every line feed. */
  function Feed(s: string): seq<string> {
    if s == "" then []
    else
      var n := FeedLength(s);
      [s[..n]] + Feed(s[n..])
  }

  function FeedLength(s: string): (n: nat)
    requires s != ""
    ensures 0 < n <= |s| && (forall i | 0 <= i < n - 1 :: s[i] != '\n') && (n < |s| ==> s[n - 1] == '\n')
  {
    if s[0] == '\n' || |s| == 1 then 1 else 1 + FeedLength(s[1..])
  }

  /** Where the first colon is, or the length. */
  function Colon(s: string): (n: nat)
    ensures n <= |s| && (forall i | 0 <= i < n :: s[i] != ':') && (n < |s| ==> s[n] == ':')
  {
    if s == "" || s[0] == ':' then 0 else 1 + Colon(s[1..])
  }

  function FieldName(line: string): string {
    line[..Colon(line)]
  }

  /** What follows the colon, without one leading blank; nothing if there is no colon. */
  function FieldValue(line: string): string {
    var n := Colon(line);
    if n == |line| then ""
    else if n + 1 < |line| && line[n + 1] == ' ' then line[n + 2..]
    else line[n + 1..]
  }

  /** The fields of the event that is being read. */
  datatype Pending = Pending(name: Option<string>, data: seq<string>)

  const NOTHING := Pending(None, [])

  /** The event the pending fields make up, if there are any. */
  function Emit<P>(c: Codec<P>, p: Pending): Result<Option<Event<P>>, SseError> {
    if p.name.None? && p.data == [] then Ok(None)
    else if p.name.None? || p.name.value == "" || p.data == [] then Err(Incomplete)
    else
      var payload := c.decode(PyText.JoinLines(p.data));
      if payload.Err? then Err(BadData(payload.error)) else Ok(Some(Event(p.name.value, payload.value)))
  }

  function Take(p: Pending, line: string): Pending {
    if line != "" && line[0] == ':' then p
    else if FieldName(line) == EVENT then p.(name := Some(FieldValue(line)))
    else if FieldName(line) == DATA then p.(data := p.data + [FieldValue(line)])
    else p
  }

  /** All events from some lines on, and the error that stopped the parser, if one did. */
  function ParseFrom<P>(c: Codec<P>, p: Pending, lines: seq<string>): (seq<Event<P>>, Option<SseError>)
    decreases |lines|
  {
    if lines == [] then
      var last := Emit(c, p);
      if last.Err? then ([], Some(last.error)) else (Optional(last.value), None)
    else
      var line := PyText.Chomp(lines[0]);
      if line != "" then ParseFrom(c, Take(p, line), lines[1..])
      else
        var next := Emit(c, p);
        if next.Err? then ([], Some(next.error))
        else
          var rest := ParseFrom(c, NOTHING, lines[1..]);
          (Optional(next.value) + rest.0, rest.1)
  }

  function Optional<T>(x: Option<T>): seq<T> {
    if x.Some? then [x.value] else []
  }

  /** `_parse_sse` */
  method Parse<P>(c: Codec<P>, lines: seq<string>) returns (events: seq<Event<P>>, error: Option<SseError>)
    ensures (events, error) == ParseFrom(c, NOTHING, lines)
  {
    events, error := [], None;
    var name: Option<string>, data: seq<string> := None, [];
    assert lines[0..] == lines && Pending(name, data) == NOTHING;
    for i := 0 to |lines|
      invariant var rest := ParseFrom(c, Pending(name, data), lines[i..]);
                var all := ParseFrom(c, NOTHING, lines);
                all.0 == events + rest.0 && all.1 == rest.1
    {
      assert lines[i..][0] == lines[i] && lines[i..][1..] == lines[i + 1..];
      var line := PyText.Chomp(lines[i]);
      if line == "" {
        var event := Emit(c, Pending(name, data));
        if event.Err? {
          assert events + [] == events;
          return events, Some(event.error);
        }
        events, name, data := events + Optional(event.value), None, [];
        assert Pending(name, data) == NOTHING;
        continue;
      }
      if line[0] == ':' {
        continue;
      }
      var field, value := FieldName(line), FieldValue(line);
      if field == EVENT {
        name := Some(value);
      } else if field == DATA {
        data := data + [value];
      }
    }
    var event := Emit(c, Pending(name, data));
    if event.Err? {
      assert events + [] == events;
      return events, Some(event.error);
    }
    events := events + Optional(event.value);
  }

  // ---- the round trip ----

  /** A text that a field can carry. */
  predicate OneLine(s: string) {
    (forall i | 0 <= i < |s| :: s[i] != '\n') && (s != "" ==> s[|s| - 1] != '\r')
  }

  lemma FeedCons(line: string, rest: string)
    requires forall i | 0 <= i < |line| :: line[i] != '\n'
    ensures Feed(line + "\n" + rest) == [line + "\n"] + Feed(rest)
  {
    var s := line + "\n" + rest;
    assert s[|line|] == '\n' && forall i | 0 <= i < |line| :: s[i] == line[i];
    FeedLengthOf(s, |line| + 1);
    assert s[..|line| + 1] == line + "\n" && s[|line| + 1..] == rest;
  }

  lemma {:induction false} FeedLengthOf(s: string, n: nat)
    requires 0 < n <= |s| && s[n - 1] == '\n' && forall i | 0 <= i < n - 1 :: s[i] != '\n'
    ensures FeedLength(s) == n
  {
  }

  lemma ChompEnded(line: string)
    requires OneLine(line)
    ensures PyText.Chomp(line + "\n") == line
  {
    assert (line + "\n")[..|line|] == line;
  }

  lemma FieldSplits(key: string, value: string)
    requires forall i | 0 <= i < |key| :: key[i] != ':'
    ensures FieldName(Field(key, value)) == key && FieldValue(Field(key, value)) == value
  {
    var line := Field(key, value);
    assert forall i | 0 <= i < |key| :: line[i] == key[i];
    assert line[|key|] == ':' && line[|key| + 1] == ' ';
    ColonOf(line, |key|);
    assert line[..|key|] == key && line[|key| + 2..] == value;
  }

  lemma {:induction false} ColonOf(s: string, n: nat)
    requires n < |s| && s[n] == ':' && forall i | 0 <= i < n :: s[i] != ':'
    ensures Colon(s) == n
  {
  }

  lemma TakeFields(p: Pending, name: string, text: string)
    ensures Take(p, Field(EVENT, name)) == p.(name := Some(name))
    ensures Take(p, Field(DATA, text)) == p.(data := p.data + [text])
  {
    FieldSplits(EVENT, name);
    FieldSplits(DATA, text);
    assert Field(EVENT, name)[0] == 'e' && Field(DATA, text)[0] == 'd';
    assert EVENT != DATA;
  }

  /** One printed field, read back. */
  lemma ReadField<P>(c: Codec<P>, p: Pending, key: string, value: string, rest: string)
    requires OneLine(key) && OneLine(value)
    ensures ParseFrom(c, p, Feed(Field(key, value) + "\n" + rest)) == ParseFrom(c, Take(p, Field(key, value)), Feed(rest))
  {
    var line := Field(key, value);
    FeedCons(line, rest);
    ChompEnded(line);
  }

  lemma ReadBlank<P>(c: Codec<P>, p: Pending, rest: string, e: Event<P>)
    requires Emit(c, p) == Ok(Some(e))
    ensures ParseFrom(c, p, Feed("\n" + rest)) ==
            ([e] + ParseFrom(c, NOTHING, Feed(rest)).0, ParseFrom(c, NOTHING, Feed(rest)).1)
  {
    assert "" + "\n" + rest == "\n" + rest;
    FeedCons("", rest);
    ChompEnded("");
  }

  /** The payload is written on one line and read back. */
  predicate Carries<P(==)>(c: Codec<P>, payload: P) {
    OneLine(c.encode(payload)) && c.decode(c.encode(payload)) == Ok(payload)
  }

  predicate GoodName(name: string) {
    name != "" && OneLine(name)
  }

  /** A printed event in front of a stream is read back, and the rest of the stream is read as it would be alone. */
  lemma ReadEvent<P>(c: Codec<P>, e: Event<P>, rest: string)
    requires GoodName(e.name) && Carries(c, e.payload)
    ensures ParseFrom(c, NOTHING, Feed(Print(c, e) + rest)) ==
            ([e] + ParseFrom(c, NOTHING, Feed(rest)).0, ParseFrom(c, NOTHING, Feed(rest)).1)
  {
    var text := c.encode(e.payload);
    Arranged(Field(EVENT, e.name), Field(DATA, text), rest);
    ReadFields(c, e.name, text, "\n" + rest);
    ReadBlank(c, Pending(Some(e.name), [text]), rest, e);
  }

  lemma Arranged(first: string, second: string, rest: string)
    ensures first + "\n" + second + "\n" + "\n" + rest == first + "\n" + (second + "\n" + ("\n" + rest))
  {
  }

  lemma ReadFields<P>(c: Codec<P>, name: string, text: string, rest: string)
    requires OneLine(name) && OneLine(text)
    ensures ParseFrom(c, NOTHING, Feed(Field(EVENT, name) + "\n" + (Field(DATA, text) + "\n" + rest))) ==
            ParseFrom(c, Pending(Some(name), [text]), Feed(rest))
  {
    ReadField(c, NOTHING, EVENT, name, Field(DATA, text) + "\n" + rest);
    TakeFields(NOTHING, name, text);
    var named := NOTHING.(name := Some(name));
    ReadField(c, named, DATA, text, rest);
    TakeFields(named, name, text);
    assert named.(data := named.data + [text]) == Pending(Some(name), [text]);
  }

  /** Parsing a stream of printed events gives exactly those events. */
  lemma {:induction false} RoundTrip<P>(c: Codec<P>, events: seq<Event<P>>)
    requires forall e | e in events :: GoodName(e.name) && Carries(c, e.payload)
    ensures ParseFrom(c, NOTHING, Feed(Stream(c, events))) == (events, None)
  {
    if events != [] {
      assert events[0] in events;
      ReadEvent(c, events[0], Stream(c, events[1..]));
      RoundTrip(c, events[1..]);
      assert [events[0]] + events[1..] == events;
    }
  }

  // ---- and only for such names ----

  /** Whatever the parser reads, the names it reports are non-empty and hold no line end. */
  lemma {:induction false} ReadNamesAreGood<P>(c: Codec<P>, p: Pending, lines: seq<string>)
    requires forall line | line in lines :: forall i | 0 <= i < |line| - 1 :: line[i] != '\n'
    requires p.name.Some? ==> OneLine(p.name.value)
    ensures forall e | e in ParseFrom(c, p, lines).0 :: GoodName(e.name)
    decreases |lines|
  {
    if lines != [] {
      assert lines[0] in lines;
      var line := PyText.Chomp(lines[0]);
      ChompIsOneLine(lines[0]);
      if line != "" {
        ReadNamesAreGood(c, Take(p, line), lines[1..]);
      } else {
        ReadNamesAreGood(c, NOTHING, lines[1..]);
      }
    }
  }

  lemma {:induction false} ChompIsOneLine(s: string)
    requires forall i | 0 <= i < |s| - 1 :: s[i] != '\n'
    ensures OneLine(PyText.Chomp(s))
  {
    if s != "" && (s[|s| - 1] == '\n' || s[|s| - 1] == '\r') {
      ChompIsOneLine(s[..|s| - 1]);
    }
  }

  lemma {:induction false} FedLines(s: string)
    ensures forall line | line in Feed(s) :: forall i | 0 <= i < |line| - 1 :: line[i] != '\n'
    decreases |s|
  {
    if s != "" {
      FedLines(s[FeedLength(s)..]);
    }
  }

  /** The round trip succeeds exactly when every event name is non-empty, without a line feed, and does not end in a
      carriage return. */
  lemma RoundTripIsExact<P>(c: Codec<P>, events: seq<Event<P>>)
    requires forall e | e in events :: Carries(c, e.payload)
    ensures ParseFrom(c, NOTHING, Feed(Stream(c, events))) == (events, None) <==> forall e | e in events :: GoodName(e.name)
  {
    FedLines(Stream(c, events));
    ReadNamesAreGood(c, NOTHING, Feed(Stream(c, events)));
    if forall e | e in events :: GoodName(e.name) {
      RoundTrip(c, events);
    }
  }
}
