/** The incremental line parser for provider streams, against the meaning of the whole text. */
module Ndjson {
  import opened Delimited
  import opened Options

  /** What was yielded, and whether a line that is no JSON ended the stream with an error. */
  datatype Outcome<E> = Outcome(events: seq<E>, failed: bool)

  // ---------- Trimming ----------

  predicate Space(c: char) {
    var u := c as int;
    || 9 <= u <= 13 || u == 0x20 || u == 0xA0 || u == 0x1680 || 0x2000 <= u <= 0x200A
    || u == 0x2028 || u == 0x2029 || u == 0x202F || u == 0x205F || u == 0x3000 || u == 0xFEFF
  }

  /** The line ends and white space of the language, JSON's among them. */
  lemma SpaceIff(c: char)
    ensures Space(c) <==>
            || c in "\t\n\r " || c in "\U{B}\U{C}\U{A0}\U{FEFF}\U{2028}\U{2029}"
            || c in "\U{1680}\U{202F}\U{205F}\U{3000}" || '\U{2000}' <= c <= '\U{200A}'
  {
  }

  function TrimStart(s: string): string {
    if s != "" && Space(s[0]) then TrimStart(s[1..]) else s
  }

  function TrimEnd(s: string): string {
    if s != "" && Space(s[|s| - 1]) then TrimEnd(s[..|s| - 1]) else s
  }

  function Trim(s: string): string {
    TrimEnd(TrimStart(s))
  }

  predicate AllSpace(s: string) {
    forall i :: 0 <= i < |s| ==> Space(s[i])
  }

  lemma {:induction false} StartTrimmed(s: string) returns (front: string)
    ensures s == front + TrimStart(s) && AllSpace(front)
    ensures TrimStart(s) != "" ==> !Space(TrimStart(s)[0])
  {
    front := "";
    if s != "" && Space(s[0]) {
      front := StartTrimmed(s[1..]);
      front := [s[0]] + front;
      assert s == [s[0]] + s[1..];
    }
  }

  lemma {:induction false} EndTrimmed(s: string) returns (back: string)
    ensures s == TrimEnd(s) + back && AllSpace(back)
    ensures TrimEnd(s) != "" ==> !Space(TrimEnd(s)[|TrimEnd(s)| - 1])
  {
    back := "";
    if s != "" && Space(s[|s| - 1]) {
      back := EndTrimmed(s[..|s| - 1]);
      back := back + [s[|s| - 1]];
      assert s == s[..|s| - 1] + [s[|s| - 1]];
    }
  }

  /** Trimming takes the spaces off both ends and nothing else. */
  lemma TrimTakesSpaces(s: string) returns (front: string, back: string)
    ensures s == front + Trim(s) + back && AllSpace(front) && AllSpace(back)
    ensures Trim(s) != "" ==> !Space(Trim(s)[0]) && !Space(Trim(s)[|Trim(s)| - 1])
  {
    front := StartTrimmed(s);
    back := EndTrimmed(TrimStart(s));
    assert s == front + (Trim(s) + back);
    assert Trim(s) != "" ==> TrimStart(s)[0] == Trim(s)[0];
  }

  /** A carriage return before the newline makes no difference to a line, and alone makes a blank one. */
  lemma CarriageReturnIsTrimmed(line: string)
    ensures Trim(line + "\r") == Trim(line) && Trim("\r") == ""
  {
    TrimEndOnly(line);
    TrimEndOnly("");
    assert "" + "\r" == "\r";
  }

  lemma {:induction false} TrimEndOnly(line: string)
    ensures Trim(line + "\r") == Trim(line)
  {
    if line == "" {
      assert "\r"[1..] == "";
      assert TrimStart("\r") == "";
      assert "" + "\r" == "\r";
    } else if Space(line[0]) {
      TrimEndOnly(line[1..]);
      assert (line + "\r")[1..] == line[1..] + "\r";
    } else {
      assert (line + "\r")[0] == line[0];
      assert (line + "\r")[..|line|] == line;
    }
  }

  // ---------- The meaning of a text ----------

  function AddLine<E>(parse: string -> Option<E>, o: Outcome<E>, line: string): Outcome<E> {
    if o.failed || Trim(line) == "" then o
    else if parse(Trim(line)).None? then o.(failed := true)
    else o.(events := o.events + [parse(Trim(line)).value])
  }

  /** The lines in order, each trimmed, blank ones dropped, up to the first that does not parse. */
  function Lines<E>(parse: string -> Option<E>, lines: seq<string>): Outcome<E> {
    if lines == [] then Outcome([], false)
    else AddLine(parse, Lines(parse, lines[..|lines| - 1]), lines[|lines| - 1])
  }

  /** A text that does not end in a newline leaves a tail, which is parsed as it stands. */
  function AddTail<E>(parse: string -> Option<E>, o: Outcome<E>, tail: string): Outcome<E> {
    if o.failed || Trim(tail) == "" then o
    else if parse(tail).None? then o.(failed := true)
    else o.(events := o.events + [parse(tail).value])
  }

  function CompleteLines(text: string): seq<string> {
    var parts := Split(text, '\n');
    parts[..|parts| - 1]
  }

  function Tail(text: string): string {
    var parts := Split(text, '\n');
    parts[|parts| - 1]
  }

  function Meaning<E>(parse: string -> Option<E>, text: string): Outcome<E> {
    AddTail(parse, Lines(parse, CompleteLines(text)), Tail(text))
  }

  function Concat(chunks: seq<string>): string {
    if chunks == [] then "" else Concat(chunks[..|chunks| - 1]) + chunks[|chunks| - 1]
  }

  // ---------- The parser ----------

  function IndexOf(s: string, c: char): (i: int)
    ensures i == -1 ==> Free(s, c)
    ensures i != -1 ==> 0 <= i < |s| && s[i] == c && Free(s[..i], c)
  {
    if s == "" then -1
    else if s[0] == c then 0
    else
      var i := IndexOf(s[1..], c);
      assert i != -1 ==> s[..i + 1] == [s[0]] + s[1..][..i];
      assert s == [s[0]] + s[1..];
      if i == -1 then -1 else i + 1
  }

  lemma LinesAppend<E>(parse: string -> Option<E>, lines: seq<string>, line: string)
    ensures Lines(parse, lines + [line]) == AddLine(parse, Lines(parse, lines), line)
  {
    assert (lines + [line])[..|lines|] == lines;
  }

  /** The text so far is complete lines, all of which have been dealt with, and a rest. */
  ghost predicate Reading<E>(parse: string -> Option<E>, text: string, done: seq<string>, rest: seq<string>,
                             events: seq<E>)
  {
    Split(text, '\n') == done + rest && Lines(parse, done) == Outcome(events, false)
  }

  /** Cutting the buffer at its first newline cuts off one complete line. */
  lemma CutLine<E>(parse: string -> Option<E>, text: string, done: seq<string>, buffer: string,
                   newline: nat, events: seq<E>)
    requires Reading(parse, text, done, Split(buffer, '\n'), events)
    requires newline < |buffer| && buffer[newline] == '\n' && Free(buffer[..newline], '\n')
    ensures Split(text, '\n') == (done + [buffer[..newline]]) + Split(buffer[newline + 1..], '\n')
    ensures Lines(parse, done + [buffer[..newline]]) == AddLine(parse, Outcome(events, false), buffer[..newline])
  {
    hide Split, Lines, AddLine;
    var line, rest := buffer[..newline], buffer[newline + 1..];
    SplitFirst(line, rest, '\n');
    assert buffer == line + ['\n'] + rest;
    LinesAppend(parse, done, line);
    assert Split(text, '\n') == done + ([line] + Split(rest, '\n'));
  }

  /** A further chunk prolongs only the unfinished line. */
  lemma ReceiveChunk<E>(parse: string -> Option<E>, chunks: seq<string>, i: nat, done: seq<string>,
                        buffer: string, events: seq<E>)
    requires i < |chunks| && Reading(parse, Concat(chunks[..i]), done, [buffer], events)
    ensures Reading(parse, Concat(chunks[..i + 1]), done, Split(buffer + chunks[i], '\n'), events)
  {
    assert chunks[..i + 1][..i] == chunks[..i];
    SplitAppend(Concat(chunks[..i]), chunks[i], '\n');
  }

  /** A buffer without a newline is the unfinished line. */
  lemma Drained<E>(parse: string -> Option<E>, text: string, done: seq<string>, buffer: string, events: seq<E>)
    requires Reading(parse, text, done, Split(buffer, '\n'), events) && Free(buffer, '\n')
    ensures Reading(parse, text, done, [buffer], events)
    ensures CompleteLines(text) == done && Tail(text) == buffer
  {
    SplitFree(buffer, '\n');
  }

  /** How many events had been yielded after each chunk. */
  ghost predicate Yielded<E>(parse: string -> Option<E>, chunks: seq<string>, marks: seq<nat>, events: seq<E>)
    requires |marks| <= |chunks|
  {
    forall k :: 0 <= k < |marks| ==>
      marks[k] <= |events| && Outcome(events[..marks[k]], false) == Lines(parse, CompleteLines(Concat(chunks[..k + 1])))
  }

  lemma YieldedMore<E>(parse: string -> Option<E>, chunks: seq<string>, marks: seq<nat>, before: seq<E>, events: seq<E>)
    requires |marks| <= |chunks| && Yielded(parse, chunks, marks, before) && before <= events
    ensures Yielded(parse, chunks, marks, events)
  {
    forall k | 0 <= k < |marks|
      ensures events[..marks[k]] == before[..marks[k]]
    {
    }
  }

  lemma YieldedNow<E>(parse: string -> Option<E>, chunks: seq<string>, marks: seq<nat>, events: seq<E>)
    requires |marks| < |chunks| && Yielded(parse, chunks, marks, events)
    requires Lines(parse, CompleteLines(Concat(chunks[..|marks| + 1]))) == Outcome(events, false)
    ensures Yielded(parse, chunks, marks + [|events|], events)
  {
    assert events[..|events|] == events;
  }

  /** The whole stream of chunks means what its text means, and after each chunk exactly the lines
      complete by then have been yielded: `marks` says how many events that was. */
  method ParseNdjson<E>(parse: string -> Option<E>, chunks: seq<string>)
    returns (events: seq<E>, failed: bool, ghost marks: seq<nat>)
    ensures Outcome(events, failed) == Meaning(parse, Concat(chunks))
    ensures |marks| <= |chunks| && (!failed ==> |marks| == |chunks|) && Yielded(parse, chunks, marks, events)
  {
    hide Split, Lines, Concat, CompleteLines, Tail, Reading, Yielded, IndexOf, Trim;
    events, failed, marks := [], false, [];
    var buffer := "";
    var i := 0;
    ghost var done := [];
    StartsEmpty(parse, chunks);
    while i < |chunks|
      invariant 0 <= i == |marks| <= |chunks|
      invariant Reading(parse, Concat(chunks[..i]), done, [buffer], events)
      invariant Yielded(parse, chunks, marks, events)
    {
      ReceiveChunk(parse, chunks, i, done, buffer, events);
      buffer := buffer + chunks[i];
      ghost var text, before := Concat(chunks[..i + 1]), events;
      var newline := IndexOf(buffer, '\n');
      while newline >= 0
        invariant newline == IndexOf(buffer, '\n')
        invariant Reading(parse, text, done, Split(buffer, '\n'), events)
        invariant before <= events
        decreases |buffer|
      {
        var line := Trim(buffer[..newline]);
        CutLine(parse, text, done, buffer, newline, events);
        done := done + [buffer[..newline]];
        buffer := buffer[newline + 1..];
        if line != "" {
          var event := parse(line);
          if event.None? {
            LaterFails(parse, chunks, i + 1, done, Split(buffer, '\n'));
            YieldedMore(parse, chunks, marks, before, events);
            return events, true, marks;
          }
          events := events + [event.value];
        }
        StillReading(parse, text, done, Split(buffer, '\n'), events);
        newline := IndexOf(buffer, '\n');
      }
      Drained(parse, text, done, buffer, events);
      StillReading(parse, text, done, [buffer], events);
      YieldedMore(parse, chunks, marks, before, events);
      YieldedNow(parse, chunks, marks, events);
      marks := marks + [|events|];
      i := i + 1;
    }
    assert chunks[..i] == chunks;
    EndsDrained(parse, Concat(chunks), done, buffer, events);
    ghost var before := events;
    if Trim(buffer) != "" {
      var event := parse(buffer);
      if event.None? {
        return events, true, marks;
      }
      events := events + [event.value];
    }
    YieldedMore(parse, chunks, marks, before, events);
  }

  lemma StartsEmpty<E>(parse: string -> Option<E>, chunks: seq<string>)
    ensures Reading(parse, Concat(chunks[..0]), [], [""], []) && Yielded(parse, chunks, [], [])
  {
  }

  lemma StillReading<E>(parse: string -> Option<E>, text: string, done: seq<string>, rest: seq<string>, events: seq<E>)
    ensures Split(text, '\n') == done + rest && Lines(parse, done) == Outcome(events, false) <==>
            Reading(parse, text, done, rest, events)
  {
  }

  lemma EndsDrained<E>(parse: string -> Option<E>, text: string, done: seq<string>, buffer: string, events: seq<E>)
    requires Reading(parse, text, done, [buffer], events)
    ensures Lines(parse, CompleteLines(text)) == Outcome(events, false) && Tail(text) == buffer
  {
    assert (done + [buffer])[..|done|] == done;
  }

  // ---------- What lines mean ----------

  /** Lines that are no blank and parse give their events, one each, in order. */
  lemma {:induction false} LinesInOrder<E>(parse: string -> Option<E>, lines: seq<string>)
    requires forall i :: 0 <= i < |lines| ==> Trim(lines[i]) != "" && parse(Trim(lines[i])).Some?
    ensures !Lines(parse, lines).failed && |Lines(parse, lines).events| == |lines|
    ensures forall i :: 0 <= i < |lines| ==> Lines(parse, lines).events[i] == parse(Trim(lines[i])).value
  {
    if lines != [] {
      LinesInOrder(parse, lines[..|lines| - 1]);
    }
  }

  /** A blank line makes no difference wherever it stands. */
  lemma {:induction false} BlankLineIsNothing<E>(parse: string -> Option<E>, a: seq<string>, blank: string,
                                                 b: seq<string>)
    requires AllSpace(blank)
    ensures Lines(parse, a + [blank] + b) == Lines(parse, a + b)
  {
    if b == [] {
      SpacesAreBlank(blank);
      LinesAppend(parse, a, blank);
      assert a + [blank] + b == a + [blank] && a + b == a;
    } else {
      var rest, last := b[..|b| - 1], b[|b| - 1];
      BlankLineIsNothing(parse, a, blank, rest);
      LinesAppend(parse, a + [blank] + rest, last);
      LinesAppend(parse, a + rest, last);
      assert a + [blank] + b == (a + [blank] + rest) + [last] && a + b == (a + rest) + [last];
    }
  }

  lemma {:induction false} SpacesAreBlank(s: string)
    requires AllSpace(s)
    ensures Trim(s) == ""
  {
    if s != "" {
      SpacesAreBlank(s[1..]);
    }
  }

  /** The first line that is no blank and does not parse ends the events, and fails. */
  lemma BadLineFails<E>(parse: string -> Option<E>, a: seq<string>, bad: string, b: seq<string>)
    requires !Lines(parse, a).failed && Trim(bad) != "" && parse(Trim(bad)).None?
    ensures Lines(parse, a + [bad] + b) == Outcome(Lines(parse, a).events, true)
  {
    LinesAppend(parse, a, bad);
    FailedStays(parse, a + [bad], b);
  }

  // ---------- After a failure nothing changes ----------

  lemma {:induction false} FailedStays<E>(parse: string -> Option<E>, lines: seq<string>, more: seq<string>)
    requires Lines(parse, lines).failed
    ensures Lines(parse, lines + more) == Lines(parse, lines)
  {
    if more == [] {
      assert lines + more == lines;
    } else {
      FailedStays(parse, lines, more[..|more| - 1]);
      LinesAppend(parse, lines + more[..|more| - 1], more[|more| - 1]);
      assert lines + more == lines + more[..|more| - 1] + [more[|more| - 1]];
    }
  }

  lemma CompleteAppend(text: string, chunk: string)
    ensures CompleteLines(text + chunk) == CompleteLines(text) + CompleteLines(Tail(text) + chunk)
  {
    SplitAppend(text, chunk, '\n');
    hide Split;
    var front, parts := CompleteLines(text), Split(Tail(text) + chunk, '\n');
    assert (front + parts)[..|front + parts| - 1] == front + parts[..|parts| - 1];
  }

  lemma {:induction false} CompleteGrows(chunks: seq<string>, i: nat) returns (more: seq<string>)
    requires i <= |chunks|
    ensures CompleteLines(Concat(chunks)) == CompleteLines(Concat(chunks[..i])) + more
  {
    hide CompleteLines, Tail;
    more := [];
    if i < |chunks| {
      var rest := chunks[..|chunks| - 1];
      more := CompleteGrows(rest, i);
      assert rest[..i] == chunks[..i];
      CompleteAppend(Concat(rest), chunks[|chunks| - 1]);
      more := more + CompleteLines(Tail(Concat(rest)) + chunks[|chunks| - 1]);
    } else {
      assert chunks[..i] == chunks;
    }
  }

  lemma CompleteOf(text: string, done: seq<string>, rest: seq<string>)
    requires rest != [] && Split(text, '\n') == done + rest
    ensures CompleteLines(text) == done + rest[..|rest| - 1]
  {
  }

  /** A complete line that fails settles what the whole text means. */
  lemma LaterFails<E>(parse: string -> Option<E>, chunks: seq<string>, i: nat, done: seq<string>, rest: seq<string>)
    requires i <= |chunks| && rest != []
    requires Split(Concat(chunks[..i]), '\n') == done + rest && Lines(parse, done).failed
    ensures Meaning(parse, Concat(chunks)) == Lines(parse, done)
  {
    hide Split, Concat, CompleteLines, Tail, Lines, Trim;
    var more := CompleteGrows(chunks, i);
    CompleteOf(Concat(chunks[..i]), done, rest);
    FailedStays(parse, done, rest[..|rest| - 1] + more);
    assert CompleteLines(Concat(chunks)) == done + (rest[..|rest| - 1] + more);
  }

  // ---------- The last line ----------

  /** Ending the text with a newline changes nothing exactly when an earlier line failed, the tail
      is blank, or the tail parses as it would trimmed. */
  lemma FinalNewlineIff<E>(parse: string -> Option<E>, text: string)
    ensures Meaning(parse, text + "\n") == Meaning(parse, text) <==>
            || Lines(parse, CompleteLines(text)).failed
            || Trim(Tail(text)) == ""
            || parse(Tail(text)) == parse(Trim(Tail(text)))
  {
    var lines, tail := CompleteLines(text), Tail(text);
    SplitAppend(text, "\n", '\n');
    TailFree(text);
    SplitFirst(tail, "", '\n');
    assert tail + ['\n'] + "" == tail + "\n";
    assert Split("", '\n') == [""];
    assert Split(text + "\n", '\n') == lines + [tail] + [""];
    assert CompleteLines(text + "\n") == lines + [tail] && Tail(text + "\n") == "";
    LinesAppend(parse, lines, tail);
    var before := Lines(parse, lines).events;
    if parse(tail).Some? && parse(Trim(tail)).Some? {
      assert (before + [parse(tail).value])[|before|] == parse(tail).value;
      assert (before + [parse(Trim(tail)).value])[|before|] == parse(Trim(tail)).value;
    }
  }

  /** What JSON.parse makes of `{}`: the space is not JSON's, though trimming takes it off. */
  function ParseEmptyObject(s: string): Option<nat> {
    if s == "{}" then Some(0) else None
  }

  lemma TrimmedTail()
    ensures Trim("{}\U{A0}") == "{}"
  {
    var text := "{}" + "\U{A0}";
    assert text[..|text| - 1] == "{}" && text == "{}\U{A0}";
    assert TrimStart(text) == text;
  }

  lemma OneTail(text: string)
    requires Free(text, '\n')
    ensures CompleteLines(text) == [] && Tail(text) == text
    ensures CompleteLines(text + "\n") == [text] && Tail(text + "\n") == ""
  {
    SplitFree(text, '\n');
    SplitFirst(text, "", '\n');
    assert text + ['\n'] + "" == text + "\n";
    assert Split("", '\n') == [""];
  }

  /** A tail that ends in a no-break space fails as it stands and parses with a newline after it. */
  lemma NewlineMatters()
    ensures var text := "{}\U{A0}";
            && Meaning(ParseEmptyObject, text) == Outcome([], true)
            && Meaning(ParseEmptyObject, text + "\n") == Outcome([0], false)
  {
    var text := "{}\U{A0}";
    TrimmedTail();
    OneTail(text);
    hide Trim, CompleteLines, Tail;
    assert [] + [text] == [text];
    LinesAppend(ParseEmptyObject, [], text);
    BlankTail(ParseEmptyObject, Lines(ParseEmptyObject, [text]));
  }

  lemma BlankTail<E>(parse: string -> Option<E>, o: Outcome<E>)
    ensures AddTail(parse, o, "") == o
  {
  }

  lemma {:induction false} PartsFree(s: string, sep: char)
    ensures forall i :: 0 <= i < |Split(s, sep)| ==> Free(Split(s, sep)[i], sep)
  {
    if s != "" {
      PartsFree(s[1..], sep);
    }
  }

  lemma TailFree(text: string)
    ensures Free(Tail(text), '\n')
  {
    PartsFree(text, '\n');
  }
}
