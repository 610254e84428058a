/** Streaming a response to a client while accumulating it for the cache, and replaying a cached
    response as a stream. */
module Replay {
  import opened Options

  datatype ToolCall = ToolCall(id: string, name: string, arguments: string)

  datatype Usage = Usage(inputTokens: Option<nat>, outputTokens: Option<nat>)

  datatype Response = Response(id: string, model: string, created: int, content: string, reasoning: Option<string>,
                               toolCalls: Option<seq<ToolCall>>, finishReason: string, usage: Usage)

  datatype Event = Event(id: string, model: string, created: int, content: Option<string>, reasoning: Option<string>,
                         toolCalls: Option<seq<ToolCall>>, finishReason: Option<string>, usage: Option<Usage>)

  /** What one server-sent chunk tells the client; `assistant` is the role, on a delta that has it. */
  datatype Chunk = Chunk(id: string, model: string, created: int, assistant: bool, content: Option<string>,
                         reasoning: Option<string>, toolCalls: Option<seq<ToolCall>>, finishReason: Option<string>,
                         usage: Option<Usage>)

  function Text(t: Option<string>): string {
    if t.Some? then t.value else ""
  }

  /** A text counts as given when it is not empty. */
  function Given(t: Option<string>): Option<string> {
    if Text(t) == "" then None else t
  }

  predicate AnyCalls(calls: Option<seq<ToolCall>>) {
    calls.Some? && calls.value != []
  }

  // ---------- What is sent ----------

  function StreamChunk(e: Event, first: bool, includeUsage: bool): Chunk {
    Chunk(e.id, e.model, e.created, first, e.content, e.reasoning, e.toolCalls,
          if Given(e.finishReason).None? then None
          else if AnyCalls(e.toolCalls) then Some("tool_calls") else e.finishReason,
          if includeUsage then e.usage else None)
  }

  /** The finish reason of the response when it is not streamed. */
  function OpenAiFinishReason(r: Response): string {
    if AnyCalls(r.toolCalls) then "tool_calls" else r.finishReason
  }

  function CachedEvents(r: Response): seq<Event> {
    [Event(r.id, r.model, r.created, Some(r.content), Given(r.reasoning), r.toolCalls, None, None),
     Event(r.id, r.model, r.created, None, None, None, Some(r.finishReason), Some(r.usage))]
  }

  // ---------- What the events amount to ----------

  function Contents(events: seq<Event>): string {
    if events == [] then "" else Contents(events[..|events| - 1]) + Text(events[|events| - 1].content)
  }

  function Reasonings(events: seq<Event>): string {
    if events == [] then "" else Reasonings(events[..|events| - 1]) + Text(events[|events| - 1].reasoning)
  }

  /** Nothing if no event had a list of calls. */
  function Calls(events: seq<Event>): Option<seq<ToolCall>> {
    if events == [] then None
    else
      var before, last := Calls(events[..|events| - 1]), events[|events| - 1].toolCalls;
      if last.None? then before else Some((if before.Some? then before.value else []) + last.value)
  }

  predicate Finishes(e: Event) {
    Given(e.finishReason).Some? && e.usage.Some?
  }

  function Assembled(events: seq<Event>): Response
    requires events != [] && Finishes(events[|events| - 1])
  {
    var e := events[|events| - 1];
    Response(e.id, e.model, e.created, Contents(events), Given(Some(Reasonings(events))), Calls(events),
             e.finishReason.value, e.usage.value)
  }

  /** The response as of the last finishing event. */
  function Final(events: seq<Event>): Option<Response> {
    if events == [] then None
    else if Finishes(events[|events| - 1]) then Some(Assembled(events))
    else Final(events[..|events| - 1])
  }

  lemma AppendEvent(events: seq<Event>, e: Event)
    ensures Contents(events + [e]) == Contents(events) + Text(e.content)
    ensures Reasonings(events + [e]) == Reasonings(events) + Text(e.reasoning)
    ensures e.toolCalls.None? ==> Calls(events + [e]) == Calls(events)
    ensures e.toolCalls.Some? ==>
      Calls(events + [e]) == Some((if Calls(events).Some? then Calls(events).value else []) + e.toolCalls.value)
    ensures Final(events + [e]) == if Finishes(e) then Some(Assembled(events + [e])) else Final(events)
  {
    assert (events + [e])[..|events|] == events;
  }

  /** What a client reads from the deltas. */
  function ClientContent(chunks: seq<Chunk>): string {
    if chunks == [] then "" else ClientContent(chunks[..|chunks| - 1]) + Text(chunks[|chunks| - 1].content)
  }

  function ClientReasoning(chunks: seq<Chunk>): string {
    if chunks == [] then "" else ClientReasoning(chunks[..|chunks| - 1]) + Text(chunks[|chunks| - 1].reasoning)
  }

  lemma AppendChunk(chunks: seq<Chunk>, c: Chunk)
    ensures ClientContent(chunks + [c]) == ClientContent(chunks) + Text(c.content)
    ensures ClientReasoning(chunks + [c]) == ClientReasoning(chunks) + Text(c.reasoning)
  {
    assert (chunks + [c])[..|chunks|] == chunks;
  }

  lemma StartsEmpty()
    ensures Contents([]) == Reasonings([]) == ClientContent([]) == ClientReasoning([]) == ""
    ensures Calls([]) == None && Final([]) == None
  {
  }

  /** What a chunk tells of its event: its delta as it is, the role on the first alone, the usage exactly
      if asked for, and how the stream ends where it does, tool calls going before any other reason. */
  predicate Conveys(c: Chunk, e: Event, first: bool, includeUsage: bool) {
    && c.id == e.id && c.model == e.model && c.created == e.created
    && c.content == e.content && c.reasoning == e.reasoning && c.toolCalls == e.toolCalls
    && (c.assistant <==> first)
    && (if includeUsage then c.usage == e.usage else c.usage.None?)
    && (c.finishReason.Some? <==> e.finishReason.Some? && e.finishReason.value != "")
    && (c.finishReason.Some? ==>
          c.finishReason.value ==
          if e.toolCalls.Some? && |e.toolCalls.value| > 0 then "tool_calls" else e.finishReason.value)
  }

  /** The streaming loop: one chunk for each event, and at the end the response handed on, which
      is nothing if the events broke off with an error. */
  method StreamResponse(events: seq<Event>, broken: bool, includeUsage: bool)
    returns (chunks: seq<Chunk>, completed: Option<Response>)
    ensures |chunks| == |events|
    ensures forall i :: 0 <= i < |events| ==> Conveys(chunks[i], events[i], i == 0, includeUsage)
    ensures completed == if broken then None else Final(events)
    ensures ClientContent(chunks) == Contents(events) && ClientReasoning(chunks) == Reasonings(events)
  {
    hide Contents, Reasonings, Calls, Final, ClientContent, ClientReasoning;
    chunks := [];
    StartsEmpty();
    var first, content, reasoning := true, "", "";
    var toolCalls: Option<seq<ToolCall>> := None;
    var final: Option<Response> := None;
    var i := 0;
    while i < |events|
      invariant 0 <= i == |chunks| <= |events|
      invariant first <==> i == 0
      invariant content == Contents(events[..i]) && reasoning == Reasonings(events[..i])
      invariant toolCalls == Calls(events[..i]) && final == Final(events[..i])
      invariant ClientContent(chunks) == content && ClientReasoning(chunks) == reasoning
      invariant forall j :: 0 <= j < i ==> Conveys(chunks[j], events[j], j == 0, includeUsage)
    {
      var event := events[i];
      assert events[..i + 1] == events[..i] + [event];
      AppendEvent(events[..i], event);
      AppendChunk(chunks, StreamChunk(event, first, includeUsage));
      content := content + Text(event.content);
      reasoning := reasoning + Text(event.reasoning);
      if event.toolCalls.Some? {
        toolCalls := Some((if toolCalls.Some? then toolCalls.value else []) + event.toolCalls.value);
      }
      chunks := chunks + [StreamChunk(event, first, includeUsage)];
      first := false;
      if Given(event.finishReason).Some? && event.usage.Some? {
        final := Some(Response(event.id, event.model, event.created, content, Given(Some(reasoning)), toolCalls,
                               event.finishReason.value, event.usage.value));
      }
      i := i + 1;
    }
    assert events[..|events|] == events;
    completed := if broken then None else final;
  }

  // ---------- Replaying and accumulating ----------

  /** Accumulating a replay rebuilds the response exactly when it has a finish reason and no empty
      reasoning text; without a finish reason nothing is rebuilt, and an empty reasoning is dropped. */
  lemma ReplayIff(r: Response)
    ensures Final(CachedEvents(r)) == Some(r) <==> r.finishReason != "" && r.reasoning != Some("")
    ensures r.finishReason == "" ==> Final(CachedEvents(r)) == None
    ensures r.finishReason != "" ==> Final(CachedEvents(r)) == Some(r.(reasoning := Given(r.reasoning)))
  {
    var a, b := CachedEvents(r)[0], CachedEvents(r)[1];
    StartsEmpty();
    AppendEvent([], a);
    AppendEvent([a], b);
    assert [] + [a] == [a] && [a] + [b] == [a, b];
    assert Contents([a, b]) == r.content && Reasonings([a, b]) == Text(r.reasoning);
    if r.toolCalls.Some? {
      assert [] + r.toolCalls.value == r.toolCalls.value;
    }
    assert Calls([a, b]) == r.toolCalls;
  }

  lemma {:induction false} LastFinish(events: seq<Event>) returns (i: int)
    ensures Final(events).None? ==> forall j :: 0 <= j < |events| ==> !Finishes(events[j])
    ensures Final(events).Some? ==>
      && 0 <= i < |events| && Finishes(events[i]) && Final(events).value == Assembled(events[..i + 1])
      && forall j :: i < j < |events| ==> !Finishes(events[j])
  {
    i := |events| - 1;
    if events != [] && !Finishes(events[i]) {
      var rest := events[..|events| - 1];
      i := LastFinish(rest);
      assert forall j :: 0 <= j < |rest| ==> rest[j] == events[j];
      if Final(rest).Some? {
        assert rest[..i + 1] == events[..i + 1];
      }
    } else if events != [] {
      assert events[..i + 1] == events;
    }
  }

  lemma Associative(a: string, b: string, c: string)
    ensures (a + b) + c == a + (b + c)
  {
  }

  lemma JoinEvent(a: seq<Event>, rest: seq<Event>, e: Event)
    requires Contents(a + rest) == Contents(a) + Contents(rest)
    requires Reasonings(a + rest) == Reasonings(a) + Reasonings(rest)
    ensures Contents(a + (rest + [e])) == Contents(a) + Contents(rest + [e])
    ensures Reasonings(a + (rest + [e])) == Reasonings(a) + Reasonings(rest + [e])
  {
    hide Contents, Reasonings, Text;
    AppendEvent(a + rest, e);
    AppendEvent(rest, e);
    assert a + (rest + [e]) == (a + rest) + [e];
    Associative(Contents(a), Contents(rest), Text(e.content));
    Associative(Reasonings(a), Reasonings(rest), Text(e.reasoning));
  }

  lemma {:induction false} ContentsJoin(a: seq<Event>, b: seq<Event>)
    ensures Contents(a + b) == Contents(a) + Contents(b)
    ensures Reasonings(a + b) == Reasonings(a) + Reasonings(b)
  {
    StartsEmpty();
    hide Contents, Reasonings;
    if b == [] {
      assert a + b == a;
    } else {
      var rest, e := b[..|b| - 1], b[|b| - 1];
      ContentsJoin(a, rest);
      JoinEvent(a, rest, e);
      assert b == rest + [e];
    }
  }

  /** The response has its finishing event's identity, reason and usage. */
  predicate Closes(r: Response, e: Event) {
    && r.id == e.id && r.model == e.model && r.created == e.created
    && e.finishReason == Some(r.finishReason) && e.usage == Some(r.usage)
  }

  function CallsOf(calls: Option<seq<ToolCall>>): seq<ToolCall> {
    if calls.Some? then calls.value else []
  }

  lemma CallsLast(events: seq<Event>, e: Event)
    ensures CallsOf(Calls(events + [e])) == CallsOf(Calls(events)) + CallsOf(e.toolCalls)
    ensures Calls(events + [e]).Some? <==> Calls(events).Some? || e.toolCalls.Some?
  {
    assert (events + [e])[..|events|] == events;
  }

  lemma CallsAssociative(a: seq<ToolCall>, b: seq<ToolCall>, c: seq<ToolCall>)
    ensures (a + b) + c == a + (b + c)
  {
  }

  /** The calls of events joined are their calls joined, and there are some lists exactly if any was. */
  lemma {:induction false} CallsJoin(a: seq<Event>, b: seq<Event>)
    ensures CallsOf(Calls(a + b)) == CallsOf(Calls(a)) + CallsOf(Calls(b))
    ensures Calls(a + b).Some? <==> Calls(a).Some? || Calls(b).Some?
  {
    StartsEmpty();
    hide Calls, CallsOf;
    if b == [] {
      assert a + b == a;
      NoCalls(CallsOf(Calls(a)));
    } else {
      var rest, e := b[..|b| - 1], b[|b| - 1];
      CallsJoin(a, rest);
      CallsLast(a + rest, e);
      CallsLast(rest, e);
      assert b == rest + [e] && a + b == (a + rest) + [e];
      CallsAssociative(CallsOf(Calls(a)), CallsOf(Calls(rest)), CallsOf(e.toolCalls));
    }
  }

  lemma NoCalls(calls: seq<ToolCall>)
    ensures CallsOf(None) == [] && calls + CallsOf(None) == calls
  {
  }

  /** What the cache is handed is what the client was sent up to the finishing event: all of it,
      exactly when nothing was sent after, and so when that event is the last. */
  lemma CacheMatchesClient(events: seq<Event>) returns (i: int)
    ensures Final(events).Some? ==>
      && 0 <= i < |events| && Finishes(events[i]) && Closes(Final(events).value, events[i])
      && Final(events).value.toolCalls == Calls(events[..i + 1])
      && (forall j :: i < j < |events| ==> !Finishes(events[j]))
      && Contents(events) == Final(events).value.content + Contents(events[i + 1..])
      && Reasonings(events) == Text(Final(events).value.reasoning) + Reasonings(events[i + 1..])
      && (Contents(events) == Final(events).value.content <==> Contents(events[i + 1..]) == "")
    ensures events != [] && Finishes(events[|events| - 1]) ==>
      && Final(events).Some? && i == |events| - 1
      && Contents(events) == Final(events).value.content
      && Reasonings(events) == Text(Final(events).value.reasoning)
  {
    assert events != [] && Finishes(events[|events| - 1]) ==> Final(events) == Some(Assembled(events));
    i := LastFinish(events);
    assert Final(events).Some? ==> events[..i + 1][i] == events[i];
    assert Final(events).Some? ==> Closes(Final(events).value, events[i]);
    assert Final(events).Some? ==> Final(events).value.toolCalls == Calls(events[..i + 1]);
    hide Contents, Reasonings, Calls, Final;
    if Final(events).Some? {
      ContentsJoin(events[..i + 1], events[i + 1..]);
      assert events == events[..i + 1] + events[i + 1..];
      var a, b := Final(events).value.content, Contents(events[i + 1..]);
      assert |a + b| == |a| + |b|;
    }
  }

  // ---------- Streamed and unstreamed answers ----------

  /** The finish reasons a client reads from a stream, in order. */
  function FinishReasons(chunks: seq<Chunk>): seq<string> {
    if chunks == [] then []
    else FinishReasons(chunks[..|chunks| - 1]) +
         (if chunks[|chunks| - 1].finishReason.Some? then [chunks[|chunks| - 1].finishReason.value] else [])
  }

  lemma ReplayedFinish(r: Response, includeUsage: bool)
    requires r.finishReason != ""
    ensures FinishReasons(Replayed(r, includeUsage)) == [r.finishReason]
  {
    var chunks := Replayed(r, includeUsage);
    assert chunks[..1] == [chunks[0]] && [chunks[0]][..0] == [];
    assert FinishReasons([chunks[0]]) == [];
  }

  function Replayed(r: Response, includeUsage: bool): seq<Chunk> {
    [StreamChunk(CachedEvents(r)[0], true, includeUsage), StreamChunk(CachedEvents(r)[1], false, includeUsage)]
  }

  /** Taken by itself, replaying ends the stream with the finish reason the response has unstreamed
      exactly when it makes no tool calls or already says so: the last event carries no calls. */
  lemma FinishReasonsAgreeIff(r: Response, includeUsage: bool)
    requires r.finishReason != ""
    ensures FinishReasons(Replayed(r, includeUsage)) == [OpenAiFinishReason(r)] <==>
            !AnyCalls(r.toolCalls) || r.finishReason == "tool_calls"
  {
    ReplayedFinish(r, includeUsage);
    assert [r.finishReason][0] == r.finishReason && [OpenAiFinishReason(r)][0] == OpenAiFinishReason(r);
  }

  // ---------- What the caches hold ----------

  /** What may be stored; `length` measures a response's JSON text. */
  predicate ResponseEligible(r: Response, length: Response -> nat, maxBytes: nat) {
    !AnyCalls(r.toolCalls) && (r.finishReason == "stop" || r.finishReason == "length") && length(r) <= maxBytes
  }

  /** A response may be stored exactly if a client that does not stream sees it stop, or run to its length,
      and it is not too long: a response with tool calls ends otherwise. */
  lemma EligibleIff(r: Response, length: Response -> nat, maxBytes: nat)
    ensures ResponseEligible(r, length, maxBytes) <==>
            OpenAiFinishReason(r) in {"stop", "length"} && length(r) <= maxBytes
  {
  }

  /** Every response that may be stored, streamed or not, replays to the client view it has: its
      content and reasoning, and one finish reason, the one it has unstreamed. Accumulating the
      replay gives it back unless it has an empty reasoning text. */
  lemma StorableReplays(r: Response, length: Response -> nat, maxBytes: nat, includeUsage: bool)
    requires ResponseEligible(r, length, maxBytes)
    ensures FinishReasons(Replayed(r, includeUsage)) == [OpenAiFinishReason(r)]
    ensures ClientContent(Replayed(r, includeUsage)) == r.content
    ensures ClientReasoning(Replayed(r, includeUsage)) == Text(r.reasoning)
    ensures Final(CachedEvents(r)) == Some(r) <==> r.reasoning != Some("")
  {
    ReplayIff(r);
    ReplayedFinish(r, includeUsage);
    var chunks := Replayed(r, includeUsage);
    assert chunks == [chunks[0]] + [chunks[1]] && [] + [chunks[0]] == [chunks[0]];
    StartsEmpty();
    AppendChunk([], chunks[0]);
    AppendChunk([chunks[0]], chunks[1]);
  }

  /** What a stream hands to the cache, if it may be stored, is what its replay gives back. */
  lemma StreamedReplays(events: seq<Event>, length: Response -> nat, maxBytes: nat)
    requires Final(events).Some? && ResponseEligible(Final(events).value, length, maxBytes)
    ensures Final(CachedEvents(Final(events).value)) == Final(events)
  {
    var i := LastFinish(events);
    StorableReplays(Final(events).value, length, maxBytes, false);
  }
}
