/** The texts of server-sent events: what is printed, and what any lines up to a blank one are read as. */
module SseTexts {
  import opened Outcomes
  import PyText
  import opened Sse

  /** An event is printed as its name, its payload and a blank line. */
  lemma PrintedText<P>(c: Codec<P>, e: Event<P>)
    ensures Print(c, e) == "event: " + e.name + "\n" + ("data: " + c.encode(e.payload) + "\n" + "\n")
  {
    assert EVENT + ": " == "event: " && DATA + ": " == "data: ";
    Arranged(Field(EVENT, e.name), Field(DATA, c.encode(e.payload)), "");
    var first, second := Field(EVENT, e.name), Field(DATA, c.encode(e.payload));
    assert first + "\n" + second + "\n" + "\n" == first + "\n" + (second + "\n" + "\n");
  }

  /** A field is what stands before the first colon; its value is what stands behind, without one blank. */
  lemma FieldRead(key: string, value: string)
    requires ':' !in key
    ensures FieldName(key + ":" + value) == key
    ensures FieldValue(key + ":" + value) == if value != "" && value[0] == ' ' then value[1..] else value
    ensures FieldName(key) == key && FieldValue(key) == ""
  {
    var line := key + ":" + value;
    assert forall i | 0 <= i < |key| :: line[i] == key[i] != ':';
    ColonOf(line, |key|);
    assert line[..|key|] == key && line[|key| + 1..] == value;
    if value != "" && value[0] == ' ' {
      assert line[|key| + 2..] == value[1..];
    }
    assert forall i | 0 <= i < |key| :: key[i] != ':';
    assert key[..|key|] == key;
  }

  /** The values of a field in some lines, in order; lines that start with a colon are comments. */
  function Values(lines: seq<string>, key: string): seq<string> {
    if lines == [] then []
    else
      var line := PyText.Chomp(lines[0]);
      (if line != "" && line[0] != ':' && FieldName(line) == key then [FieldValue(line)] else []) + Values(lines[1..], key)
  }

  function TakeAll(p: Pending, lines: seq<string>): Pending
    decreases |lines|
  {
    if lines == [] then p else TakeAll(Take(p, PyText.Chomp(lines[0])), lines[1..])
  }

  predicate NoBlank(lines: seq<string>) {
    forall line | line in lines :: PyText.Chomp(line) != ""
  }

  lemma {:induction false} TakenAre(p: Pending, lines: seq<string>)
    requires NoBlank(lines)
    ensures var names := Values(lines, "event");
            TakeAll(p, lines).name == if names == [] then p.name else Some(names[|names| - 1])
    ensures TakeAll(p, lines).data == p.data + Values(lines, "data")
    decreases |lines|
  {
    if lines != [] {
      assert lines[0] in lines;
      TakenAre(Take(p, PyText.Chomp(lines[0])), lines[1..]);
      assert "event"[0] != "data"[0];
    }
  }

  lemma {:induction false} TakesLines<P>(c: Codec<P>, p: Pending, lines: seq<string>, more: seq<string>)
    requires NoBlank(lines)
    ensures ParseFrom(c, p, lines + more) == ParseFrom(c, TakeAll(p, lines), more)
    decreases |lines|
  {
    if lines == [] {
      assert lines + more == more;
    } else {
      assert lines[0] in lines;
      assert (lines + more)[0] == lines[0] && (lines + more)[1..] == lines[1..] + more;
      TakesLines(c, Take(p, PyText.Chomp(lines[0])), lines[1..], more);
    }
  }

  /** The event that some lines make up: the last value of the name field, and the values of the data field, joined by
      line feeds and decoded. */
  function EventIn<P>(c: Codec<P>, lines: seq<string>): Result<Option<Event<P>>, SseError> {
    var names, data := Values(lines, "event"), Values(lines, "data");
    if names == [] && data == [] then Ok(None)
    else if names == [] || data == [] || names[|names| - 1] == "" then Err(Incomplete)
    else
      match c.decode(PyText.JoinLines(data))
      case Ok(payload) => Ok(Some(Event(names[|names| - 1], payload)))
      case Err(e) => Err(BadData(e))
  }

  lemma EmitsEvent<P>(c: Codec<P>, lines: seq<string>)
    requires NoBlank(lines)
    ensures Emit(c, TakeAll(NOTHING, lines)) == EventIn(c, lines)
  {
    TakenAre(NOTHING, lines);
    assert [] + Values(lines, "data") == Values(lines, "data");
  }

  /** Lines up to a blank one are one event, if they name or carry anything; the lines behind are read as they would be
      alone, unless the event is refused, which stops the parser. */
  lemma BlockIsOneEvent<P>(c: Codec<P>, lines: seq<string>, blank: string, more: seq<string>)
    requires NoBlank(lines) && PyText.Chomp(blank) == ""
    ensures ParseFrom(c, NOTHING, lines + ([blank] + more)) ==
            match EventIn(c, lines)
            case Err(e) => ([], Some(e))
            case Ok(None) => ParseFrom(c, NOTHING, more)
            case Ok(Some(event)) => ([event] + ParseFrom(c, NOTHING, more).0, ParseFrom(c, NOTHING, more).1)
  {
    TakesLines(c, NOTHING, lines, [blank] + more);
    EmitsEvent(c, lines);
    var rest := ParseFrom(c, NOTHING, more);
    assert ([blank] + more)[0] == blank && ([blank] + more)[1..] == more;
    assert [] + rest.0 == rest.0 && (rest.0, rest.1) == rest;
  }

  /** The last lines need no blank one behind them. */
  lemma LastBlock<P>(c: Codec<P>, lines: seq<string>)
    requires NoBlank(lines)
    ensures ParseFrom(c, NOTHING, lines) ==
            match EventIn(c, lines)
            case Err(e) => ([], Some(e))
            case Ok(None) => ([], None)
            case Ok(Some(event)) => ([event], None)
  {
    assert lines + [] == lines;
    TakesLines(c, NOTHING, lines, []);
    EmitsEvent(c, lines);
  }
}
