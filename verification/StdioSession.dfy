/**
 The line-framed session transport (src/runtime/codexStdioSessionClient.ts): stdout chunks become lines, lines become
 numbered output, and readers are handed over from replay to live delivery.

 `FeedChar` reads stdout one character at a time; it is the reference the chunked reader is proved against. Parsing
 a line is a parameter. A line that parses to `null` makes the reader raise inside an event handler, which ends the
 process: `crashed`.
 */
module StdioTransport {
  import opened Wrappers
  import Decimal

  datatype Json =
    Null | Bool(b: bool) | Num(n: real) | Str(s: string) | Arr(items: seq<Json>) | Obj(fields: map<string, Json>)

  type Parser = string -> Option<Json>

  function Field(j: Json, name: string): Option<Json> {
    if j.Obj? && name in j.fields then Some(j.fields[name]) else None
  }

  function FieldOf(j: Option<Json>, name: string): Option<Json> {
    if j.Some? then Field(j.value, name) else None
  }

  predicate IsText(entry: Json) {
    Field(entry, "type") == Some(Str("text")) && Field(entry, "text").Some? && Field(entry, "text").value.Str?
  }

  function JoinText(content: seq<Json>): string {
    if content == [] then ""
    else (if IsText(content[0]) then Field(content[0], "text").value.s else "") + JoinText(content[1..])
  }

  /** The text of an assistant message. */
  function TextOf(payload: Json): string {
    var content := FieldOf(Field(payload, "message"), "content");
    if content.Some? && content.value.Arr? then JoinText(content.value.items) else ""
  }

  function Trim(s: string): string
    decreases |s|
  {
    if s == "" then s
    else if Decimal.IsSpace(s[0]) then Trim(s[1..])
    else if Decimal.IsSpace(s[|s| - 1]) then Trim(s[..|s| - 1])
    else s
  }

  /** Trimming takes white space off both ends and stops at the first other character. */
  lemma {:induction false} TrimMeans(s: string) returns (front: string, back: string)
    ensures s == front + Trim(s) + back
    ensures forall c :: c in front || c in back ==> Decimal.IsSpace(c)
    ensures Trim(s) != "" ==> !Decimal.IsSpace(Trim(s)[0]) && !Decimal.IsSpace(Trim(s)[|Trim(s)| - 1])
    decreases |s|
  {
    front, back := "", "";
    if s == "" {
    } else if Decimal.IsSpace(s[0]) {
      front, back := TrimMeans(s[1..]);
      assert s == [s[0]] + s[1..];
      front := [s[0]] + front;
    } else if Decimal.IsSpace(s[|s| - 1]) {
      front, back := TrimMeans(s[..|s| - 1]);
      assert s == s[..|s| - 1] + [s[|s| - 1]];
      back := back + [s[|s| - 1]];
    }
  }

  datatype Cursor = Cursor(outputSequence: int, acknowledgedSequence: Option<int>, lastEventId: Option<int>)

  datatype Chunk = Chunk(sessionId: string, sequence: int, data: string)

  /** A reader replays the history, waiting for its callback after each chunk; then it is told of new output. */
  datatype Phase = Replaying | Live | Closed

  /** `position` is how much of the history the reader has gone past. */
  datatype Subscriber = Subscriber(afterSequence: int, phase: Phase, position: nat, received: seq<Chunk>)

  datatype Session = Session(
    buffer: string, runtimeSessionId: Option<string>, attachedSessionId: Option<string>, cursor: Cursor,
    pendingInputCount: Option<int>, history: seq<Chunk>, subscribers: seq<Subscriber>, crashed: bool)

  function Max(a: int, b: int): int {
    if a > b then a else b
  }

  function OrZero(n: Option<int>): int {
    if n.Some? then n.value else 0
  }

  function Notify(sub: Subscriber, chunk: Chunk): Subscriber {
    if sub.phase != Live then sub
    else sub.(position := sub.position + 1,
              received := if chunk.sequence > sub.afterSequence then sub.received + [chunk] else sub.received)
  }

  function NotifyAll(subs: seq<Subscriber>, chunk: Chunk): seq<Subscriber> {
    seq(|subs|, i requires 0 <= i < |subs| => Notify(subs[i], chunk))
  }

  function NextChunk(s: Session, text: string): Chunk {
    Chunk(if s.attachedSessionId.Some? then s.attachedSessionId.value
          else if s.runtimeSessionId.Some? then s.runtimeSessionId.value else "codex-session",
          s.cursor.outputSequence + 1, text)
  }

  function Output(s: Session, text: string): Session {
    var chunk := NextChunk(s, text);
    s.(cursor := s.cursor.(outputSequence := chunk.sequence, lastEventId := Some(chunk.sequence)),
       pendingInputCount := Some(Max(0, OrZero(s.pendingInputCount) - 1)),
       history := s.history + [chunk], subscribers := NotifyAll(s.subscribers, chunk))
  }

  function PayloadStep(s: Session, payload: Json): Session {
    if Field(payload, "type") == Some(Str("system")) && Field(payload, "subtype") == Some(Str("init")) then
      match Field(payload, "session_id")
      case Some(Str(id)) => s.(runtimeSessionId := Some(id))
      case _ => s
    else if Field(payload, "type") != Some(Str("assistant")) || Trim(TextOf(payload)) == "" then s
    else Output(s, TextOf(payload))
  }

  /** One complete line. */
  function LineStep(s: Session, raw: string, parse: Parser): Session {
    var line := Trim(raw);
    if line == "" then s
    else
      match parse(line)
      case None => s
      case Some(payload) => if payload == Null then s.(crashed := true) else PayloadStep(s, payload)
  }

  /** One character of stdout. */
  function FeedChar(s: Session, c: char, parse: Parser): Session {
    if s.crashed then s
    else if c == '\n' then LineStep(s.(buffer := ""), s.buffer, parse)
    else s.(buffer := s.buffer + [c])
  }

  /** Stdout read character by character. */
  function FeedText(s: Session, text: string, parse: Parser): Session
    decreases |text|
  {
    if text == "" then s else FeedText(FeedChar(s, text[0], parse), text[1..], parse)
  }

  /** `split('\n')`. */
  function Split(text: string): (pieces: seq<string>)
    ensures |pieces| > 0
    decreases |text|
  {
    if text == "" then [""]
    else
      var rest := Split(text[1..]);
      if text[0] == '\n' then [""] + rest else [[text[0]] + rest[0]] + rest[1..]
  }

  /** The lines of one chunk, up to one that raises. */
  function RunLines(s: Session, lines: seq<string>, parse: Parser): Session
    decreases |lines|
  {
    if lines == [] || s.crashed then s else RunLines(LineStep(s, lines[0], parse), lines[1..], parse)
  }

  function WithRest(s: Session, rest: string): Session {
    if s.crashed then s else s.(buffer := rest)
  }

  /** `split` undone: the pieces with a newline between them. */
  function Join(pieces: seq<string>): string
    requires |pieces| > 0
  {
    if |pieces| == 1 then pieces[0] else pieces[0] + "\n" + Join(pieces[1..])
  }

  lemma {:induction false} SplitJoin(text: string)
    ensures Join(Split(text)) == text && forall p :: p in Split(text) ==> '\n' !in p
    decreases |text|
  {
    if text != "" {
      SplitJoin(text[1..]);
      var rest, pieces := Split(text[1..]), Split(text);
      assert text == [text[0]] + text[1..];
      if text[0] == '\n' {
        assert pieces[1..] == rest;
        assert Join(pieces) == "" + "\n" + Join(rest);
      } else {
        assert pieces[1..] == rest[1..];
        forall p | p in pieces ensures '\n' !in p {
          assert p == pieces[0] || p in rest[1..];
          assert rest[0] in rest;
        }
      }
    }
  }

  lemma {:induction false} SplitAfterPrefix(prefix: string, text: string)
    requires '\n' !in prefix
    ensures Split(prefix + text) == [prefix + Split(text)[0]] + Split(text)[1..]
    decreases |prefix|
  {
    if prefix == "" {
      assert prefix + text == text && prefix + Split(text)[0] == Split(text)[0];
      assert Split(text) == [Split(text)[0]] + Split(text)[1..];
    } else {
      SplitAfterPrefix(prefix[1..], text);
      assert (prefix + text)[1..] == prefix[1..] + text;
      assert [prefix[0]] + (prefix[1..] + Split(text)[0]) == prefix + Split(text)[0];
    }
  }

  lemma {:induction false} CrashedStays(s: Session, text: string, parse: Parser)
    requires s.crashed
    ensures FeedText(s, text, parse) == s
    decreases |text|
  {
    if text != "" {
      CrashedStays(s, text[1..], parse);
    }
  }

  /** What the chunked reader does with a text: its lines, then the unfinished piece into the buffer. */
  function FeedPieces(s: Session, pieces: seq<string>, parse: Parser): Session
    requires |pieces| > 0
  {
    WithRest(RunLines(s.(buffer := ""), pieces[..|pieces| - 1], parse), pieces[|pieces| - 1])
  }

  lemma FeedPiecesStep(s: Session, first: string, rest: seq<string>, parse: Parser)
    requires !s.crashed && |rest| > 0
    ensures var next := LineStep(s.(buffer := ""), first, parse);
      FeedPieces(s, [first] + rest, parse) == if next.crashed then next else FeedPieces(next, rest, parse)
  {
    var pieces := [first] + rest;
    assert pieces[..|pieces| - 1] == [first] + rest[..|rest| - 1];
    assert pieces[..|pieces| - 1][1..] == rest[..|rest| - 1];
    var next := LineStep(s.(buffer := ""), first, parse);
    assert next.(buffer := "") == next;
    assert RunLines(s.(buffer := ""), pieces[..|pieces| - 1], parse) == RunLines(next, rest[..|rest| - 1], parse);
    assert next.crashed ==> RunLines(next, rest[..|rest| - 1], parse) == next;
  }

  /**
   Framing: splitting the buffer plus the chunk into lines does what reading the chunk character by character does.
   */
  lemma {:induction false} SplitFeeds(s: Session, text: string, parse: Parser)
    requires !s.crashed && '\n' !in s.buffer
    ensures FeedText(s, text, parse) == FeedPieces(s, Split(s.buffer + text), parse)
    decreases |text|
  {
    SplitAfterPrefix(s.buffer, text);
    if text == "" {
      assert s.buffer + "" == s.buffer;
      assert Split(s.buffer + text) == [s.buffer];
    } else if text[0] == '\n' {
      NewlineFeeds(s, text, parse);
      var next := LineStep(s.(buffer := ""), s.buffer, parse);
      if next.crashed {
        CrashedStays(next, text[1..], parse);
      } else {
        assert "" + text[1..] == text[1..];
        SplitFeeds(next, text[1..], parse);
      }
    } else {
      assert s.buffer + text == (s.buffer + [text[0]]) + text[1..];
      SplitFeeds(s.(buffer := s.buffer + [text[0]]), text[1..], parse);
    }
  }

  lemma NewlineFeeds(s: Session, text: string, parse: Parser)
    requires !s.crashed && '\n' !in s.buffer && text != "" && text[0] == '\n'
    ensures var next := LineStep(s.(buffer := ""), s.buffer, parse);
      FeedPieces(s, Split(s.buffer + text), parse) == if next.crashed then next
          else FeedPieces(next, Split(text[1..]), parse)
  {
    SplitAfterPrefix(s.buffer, text);
    assert Split(text) == [""] + Split(text[1..]);
    assert s.buffer + "" == s.buffer;
    assert Split(s.buffer + text) == [s.buffer] + Split(text[1..]);
    FeedPiecesStep(s, s.buffer, Split(text[1..]), parse);
  }

  lemma {:induction false} FeedConcat(s: Session, a: string, b: string, parse: Parser)
    ensures FeedText(s, a + b, parse) == FeedText(FeedText(s, a, parse), b, parse)
    decreases |a|
  {
    if a == "" {
      assert a + b == b;
    } else {
      assert (a + b)[1..] == a[1..] + b;
      FeedConcat(FeedChar(s, a[0], parse), a[1..], b, parse);
    }
  }

  function FeedChunks(s: Session, chunks: seq<string>, parse: Parser): Session
    decreases |chunks|
  {
    if chunks == [] then s else FeedChunks(FeedText(s, chunks[0], parse), chunks[1..], parse)
  }

  function Concat(chunks: seq<string>): string {
    if chunks == [] then "" else chunks[0] + Concat(chunks[1..])
  }

  lemma {:induction false} ChunksFeedConcat(s: Session, chunks: seq<string>, parse: Parser)
    ensures FeedChunks(s, chunks, parse) == FeedText(s, Concat(chunks), parse)
    decreases |chunks|
  {
    if chunks != [] {
      FeedConcat(s, chunks[0], Concat(chunks[1..]), parse);
      ChunksFeedConcat(FeedText(s, chunks[0], parse), chunks[1..], parse);
    }
  }

  /**
   Chunking independence: two ways of cutting the same stdout into chunks leave the same buffer, history, numbering,
   deliveries and backpressure, and raise alike.
   */
  lemma ChunkingIndependent(s: Session, a: seq<string>, b: seq<string>, parse: Parser)
    requires Concat(a) == Concat(b)
    ensures FeedChunks(s, a, parse) == FeedChunks(s, b, parse)
  {
    ChunksFeedConcat(s, a, parse);
    ChunksFeedConcat(s, b, parse);
  }

  // ---- Readers ----

  /** The first entry from `from` on that the reader wants. */
  function NextWanted(history: seq<Chunk>, from: nat, afterSequence: int): (k: nat)
    requires from <= |history|
    ensures from <= k <= |history|
    ensures forall j :: from <= j < k ==> history[j].sequence <= afterSequence
    ensures k < |history| ==> history[k].sequence > afterSequence
    decreases |history| - from
  {
    if from == |history| || history[from].sequence > afterSequence then from
    else NextWanted(history, from + 1, afterSequence)
  }

  /** The replay loop from one `await` to the next, or to its end. */
  function Resume(sub: Subscriber, history: seq<Chunk>): Subscriber {
    if sub.phase != Replaying || sub.position > |history| then sub
    else
      var k := NextWanted(history, sub.position, sub.afterSequence);
      if k == |history| then sub.(phase := Live, position := k)
      else sub.(position := k + 1, received := sub.received + [history[k]])
  }

  function NewReader(afterSequence: Option<int>): Subscriber {
    Subscriber(OrZero(afterSequence), Replaying, 0, [])
  }

  function CloseLive(subs: seq<Subscriber>): seq<Subscriber> {
    seq(|subs|, i requires 0 <= i < |subs| => if subs[i].phase == Live then subs[i].(phase := Closed) else subs[i])
  }

  datatype Op =
    | Stdout(text: string)
    | SendInput(sessionId: string, stdinOpen: bool)
    | Attach(sessionId: string, cursor: Option<Cursor>)
    | Detach
    | ReadOutput(afterSequence: Option<int>)
    | CallbackDone(reader: nat)
    | CloseReader(reader: nat)
    | ProcessClosed

  function Step(s: Session, op: Op, parse: Parser): Session {
    if s.crashed then s
    else
      match op
      case Stdout(text) => FeedText(s, text, parse)
      case SendInput(id, stdinOpen) =>
        if stdinOpen then s.(attachedSessionId := Some(id),
                             pendingInputCount := Some(OrZero(s.pendingInputCount) + 1))
        else s
      case Attach(id, cursor) =>
        s.(attachedSessionId := Some(id), cursor := if cursor.Some? then cursor.value else s.cursor)
      case Detach => s.(attachedSessionId := None)
      case ReadOutput(afterSequence) => s.(subscribers := s.subscribers + [Resume(NewReader(afterSequence), s.history)])
      case CallbackDone(i) =>
        if i < |s.subscribers| then s.(subscribers := s.subscribers[i := Resume(s.subscribers[i], s.history)]) else s
      case CloseReader(i) =>
        if i < |s.subscribers| && s.subscribers[i].phase == Live
        then s.(subscribers := s.subscribers[i := s.subscribers[i].(phase := Closed)]) else s
      case ProcessClosed => s.(subscribers := CloseLive(s.subscribers))
  }

  class CodexStdioSession {
    const parse: Parser
    var lineBuffer: string
    var runtimeSessionId: Option<string>
    var attachedSessionId: Option<string>
    var cursor: Cursor
    var pendingInputCount: Option<int>
    var history: seq<Chunk>
    var subscribers: seq<Subscriber>
    var crashed: bool

    /** What is left in the buffer after a crash does not matter. */
    function View(): Session
      reads this
    {
      Session(if crashed then "" else lineBuffer, runtimeSessionId, attachedSessionId, cursor, pendingInputCount,
          history,
              subscribers, crashed)
    }

    ghost predicate Valid()
      reads this
    {
      '\n' !in lineBuffer
    }

    constructor (parse: Parser, runtimeSessionId: Option<string>, cursor: Option<Cursor>,
        pendingInputCount: Option<int>)
      ensures Valid() && this.parse == parse
      ensures View() == Session("", runtimeSessionId, None, if cursor.Some? then cursor.value
              else Cursor(0, None, None),
                                pendingInputCount, [], [], false)
    {
      this.parse, this.runtimeSessionId, this.pendingInputCount := parse, runtimeSessionId, pendingInputCount;
      this.cursor := if cursor.Some? then cursor.value else Cursor(0, None, None);
      lineBuffer, attachedSessionId, history, subscribers, crashed := "", None, [], [], false;
    }

    /** `#consumeStdoutChunk`. */
    method ConsumeStdoutChunk(rawChunk: string)
      requires Valid() && !crashed
      modifies this
      ensures Valid() && View() == Step(old(View()), Stdout(rawChunk), parse)
    {
      SplitFeeds(View(), rawChunk, parse);
      SplitJoin(lineBuffer + rawChunk);
      var lines := Split(lineBuffer + rawChunk);
      lineBuffer := lines[|lines| - 1];
      lines := lines[..|lines| - 1];
      ghost var start := old(View()).(buffer := "");
      var index := 0;
      while index < |lines|
        invariant 0 <= index <= |lines| && Valid() && lineBuffer == Split(old(lineBuffer) + rawChunk)[|lines|]
        invariant !crashed && RunLines(start, lines, parse) == RunLines(View().(buffer := ""), lines[index..], parse)
      {
        ghost var before := View();
        ConsumeLine(lines[index]);
        assert lines[index..][1..] == lines[index + 1..];
        if crashed {
          return;
        }
        index := index + 1;
      }
    }

    method ConsumeLine(rawLine: string)
      requires Valid() && !crashed
      modifies this
      ensures Valid() && lineBuffer == old(lineBuffer)
      ensures View().(buffer := "") == LineStep(old(View()).(buffer := ""), rawLine, parse)
    {
      var line := Trim(rawLine);
      if line == "" {
        return;
      }
      var payload := parse(line);
      if payload.None? {
        return;
      }
      if payload.value == Null {
        crashed := true;
        return;
      }
      if Field(payload.value, "type") == Some(Str("system")) && Field(payload.value, "subtype") == Some(Str("init")) {
        var id := Field(payload.value, "session_id");
        if id.Some? && id.value.Str? {
          runtimeSessionId := Some(id.value.s);
        }
        return;
      }
      if Field(payload.value, "type") != Some(Str("assistant")) {
        return;
      }
      var text := TextOf(payload.value);
      if Trim(text) == "" {
        return;
      }
      PublishOutput(text);
    }

    method PublishOutput(text: string)
      requires Valid() && !crashed
      modifies this`cursor, this`pendingInputCount, this`history, this`subscribers
      ensures View() == Output(old(View()), text)
    {
      var chunk := NextChunk(View(), text);
      cursor := cursor.(outputSequence := chunk.sequence, lastEventId := Some(chunk.sequence));
      pendingInputCount := Some(Max(0, OrZero(pendingInputCount) - 1));
      history := history + [chunk];
      var index := 0;
      while index < |subscribers|
        invariant 0 <= index <= |subscribers| == |old(subscribers)|
        invariant forall i :: 0 <= i < index ==> subscribers[i] == Notify(old(subscribers)[i], chunk)
        invariant forall i :: index <= i < |subscribers| ==> subscribers[i] == old(subscribers)[i]
        modifies this`subscribers
      {
        var sub := subscribers[index];
        if sub.phase == Live {
          var received := if chunk.sequence > sub.afterSequence then sub.received + [chunk] else sub.received;
          subscribers := subscribers[index := sub.(position := sub.position + 1, received := received)];
        }
        index := index + 1;
      }
      assert subscribers == NotifyAll(old(subscribers), chunk);
    }

    /** `sendInput`: without a stdin to write to it raises before anything changes. */
    method SendUserInput(sessionId: string, stdinOpen: bool) returns (raised: bool)
      requires Valid() && !crashed
      modifies this`attachedSessionId, this`pendingInputCount
      ensures Valid() && View() == Step(old(View()), SendInput(sessionId, stdinOpen), parse)
      ensures raised == !stdinOpen
    {
      if !stdinOpen {
        return true;
      }
      raised := false;
      attachedSessionId := Some(sessionId);
      pendingInputCount := Some(OrZero(pendingInputCount) + 1);
    }

    method AttachSession(sessionId: string, requestCursor: Option<Cursor>)
      requires Valid() && !crashed
      modifies this`attachedSessionId, this`cursor
      ensures Valid() && View() == Step(old(View()), Attach(sessionId, requestCursor), parse)
    {
      attachedSessionId := Some(sessionId);
      if requestCursor.Some? {
        cursor := requestCursor.value;
      }
    }

    method DetachSession()
      requires Valid() && !crashed
      modifies this`attachedSessionId
      ensures Valid() && View() == Step(old(View()), Detach, parse)
    {
      attachedSessionId := None;
    }

    /** The loop of `readOutput` until it waits for a callback, or ends and subscribes. */
    method Replay(sub: Subscriber) returns (next: Subscriber)
      requires sub.phase == Replaying && sub.position <= |history|
      ensures next == Resume(sub, history)
    {
      var k := sub.position;
      while k < |history|
        invariant sub.position <= k <= |history|
        invariant NextWanted(history, sub.position, sub.afterSequence) == NextWanted(history, k, sub.afterSequence)
      {
        if history[k].sequence > sub.afterSequence {
          return sub.(position := k + 1, received := sub.received + [history[k]]);
        }
        k := k + 1;
      }
      next := sub.(phase := Live, position := k);
    }

    method BeginReadOutput(afterSequence: Option<int>)
      requires Valid() && !crashed
      modifies this`subscribers
      ensures Valid() && View() == Step(old(View()), ReadOutput(afterSequence), parse)
    {
      var sub := Replay(NewReader(afterSequence));
      subscribers := subscribers + [sub];
    }

    method ResumeReadOutput(reader: nat)
      requires Valid() && !crashed && reader < |subscribers|
      requires subscribers[reader].phase == Replaying && subscribers[reader].position <= |history|
      modifies this`subscribers
      ensures Valid() && View() == Step(old(View()), CallbackDone(reader), parse)
    {
      var sub := Replay(subscribers[reader]);
      subscribers := subscribers[reader := sub];
    }

    /** The `close` of a subscription; only a reader that has been subscribed has one. */
    method CloseSubscription(reader: nat)
      requires Valid() && !crashed && reader < |subscribers| && subscribers[reader].phase != Replaying
      modifies this`subscribers
      ensures Valid() && View() == Step(old(View()), CloseReader(reader), parse)
    {
      subscribers := subscribers[reader := subscribers[reader].(phase := Closed)];
      assert old(subscribers)[reader].phase == Closed ==> subscribers == old(subscribers);
    }

    /** The handler of the process's `close` event. */
    method OnProcessClosed()
      requires Valid() && !crashed
      modifies this`subscribers
      ensures Valid() && View() == Step(old(View()), ProcessClosed, parse)
    {
      var index := 0;
      while index < |subscribers|
        invariant 0 <= index <= |subscribers| == |old(subscribers)|
        invariant forall i :: 0 <= i < index ==> subscribers[i] == CloseLive(old(subscribers))[i]
        invariant forall i :: index <= i < |subscribers| ==> subscribers[i] == old(subscribers)[i]
      {
        if subscribers[index].phase == Live {
          subscribers := subscribers[index := subscribers[index].(phase := Closed)];
        }
        index := index + 1;
      }
      assert subscribers == CloseLive(old(subscribers));
    }
  }

  // ---- Whole runs ----

  function Run(s: Session, ops: seq<Op>, parse: Parser): Session
    decreases |ops|
  {
    if ops == [] then s else Run(Step(s, ops[0], parse), ops[1..], parse)
  }

  /** The entries a reader asked for. */
  function Wanted(history: seq<Chunk>, afterSequence: int): seq<Chunk>
    decreases |history|
  {
    if history == [] then []
    else
      var last := history[|history| - 1];
      Wanted(history[..|history| - 1], afterSequence) + if last.sequence > afterSequence then [last] else []
  }

  /** A reader has received what it asked for of the history it has gone past; a live one has gone past all of it. */
  ghost predicate Caught(sub: Subscriber, history: seq<Chunk>) {
    && sub.position <= |history| && sub.received == Wanted(history[..sub.position], sub.afterSequence)
    && (sub.phase == Live ==> sub.position == |history|)
  }

  ghost predicate AllCaught(s: Session) {
    forall i :: 0 <= i < |s.subscribers| ==> Caught(s.subscribers[i], s.history)
  }

  lemma NotifyKeepsCaught(sub: Subscriber, history: seq<Chunk>, chunk: Chunk)
    requires Caught(sub, history)
    ensures Caught(Notify(sub, chunk), history + [chunk])
  {
    var history' := history + [chunk];
    if sub.phase == Live {
      assert history'[..sub.position + 1] == history';
      assert history'[..|history'| - 1] == history == history[..sub.position];
    } else {
      assert history'[..sub.position] == history[..sub.position];
    }
  }

  lemma {:induction false} NothingWanted(history: seq<Chunk>, from: nat, end: nat, afterSequence: int)
    requires from <= end <= |history| && forall j :: from <= j < end ==> history[j].sequence <= afterSequence
    ensures Wanted(history[..end], afterSequence) == Wanted(history[..from], afterSequence)
    decreases end
  {
    if from < end {
      NothingWanted(history, from, end - 1, afterSequence);
      assert history[..end][..end - 1] == history[..end - 1];
    }
  }

  lemma ResumeKeepsCaught(sub: Subscriber, history: seq<Chunk>)
    requires Caught(sub, history)
    ensures Caught(Resume(sub, history), history)
  {
    if sub.phase == Replaying {
      var k := NextWanted(history, sub.position, sub.afterSequence);
      NothingWanted(history, sub.position, k, sub.afterSequence);
      if k < |history| {
        assert history[..k + 1][..k] == history[..k];
      }
    }
  }

  lemma {:induction false} FeedKeepsCaught(s: Session, text: string, parse: Parser)
    requires AllCaught(s)
    ensures AllCaught(FeedText(s, text, parse))
    decreases |text|
  {
    if text != "" {
      CharKeepsCaught(s, text[0], parse);
      FeedKeepsCaught(FeedChar(s, text[0], parse), text[1..], parse);
    }
  }

  lemma OutputKeepsCaught(s: Session, text: string)
    requires AllCaught(s)
    ensures AllCaught(Output(s, text))
  {
    forall i | 0 <= i < |s.subscribers| ensures Caught(Output(s, text).subscribers[i], Output(s, text).history) {
      NotifyKeepsCaught(s.subscribers[i], s.history, NextChunk(s, text));
    }
  }

  lemma CharKeepsCaught(s: Session, c: char, parse: Parser)
    requires AllCaught(s)
    ensures AllCaught(FeedChar(s, c, parse))
  {
    if !s.crashed && c == '\n' {
      var payload := parse(Trim(s.buffer));
      if payload.Some? {
        OutputKeepsCaught(s.(buffer := ""), TextOf(payload.value));
      }
    }
  }

  lemma StepKeepsCaught(s: Session, op: Op, parse: Parser)
    requires AllCaught(s)
    ensures AllCaught(Step(s, op, parse))
  {
    match op {
      case Stdout(text) => FeedKeepsCaught(s, text, parse);
      case ReadOutput(afterSequence) => ResumeKeepsCaught(NewReader(afterSequence), s.history);
      case CallbackDone(i) =>
        if i < |s.subscribers| {
          ResumeKeepsCaught(s.subscribers[i], s.history);
        }
      case _ =>
    }
  }

  /**
   Gap-free handoff: whatever output arrives while readers replay, every reader has received exactly the entries it
   asked for among those it has gone past, once each and in order, and a live reader has gone past them all.
   */
  lemma {:induction false} HandoffIsGapFree(s: Session, ops: seq<Op>, parse: Parser)
    requires AllCaught(s)
    ensures AllCaught(Run(s, ops, parse))
    decreases |ops|
  {
    if ops != [] {
      StepKeepsCaught(s, ops[0], parse);
      HandoffIsGapFree(Step(s, ops[0], parse), ops[1..], parse);
    }
  }

  /** A replaying reader gets on with every callback, so it goes live as soon as its callbacks outrun the output. */
  lemma ReplayProgresses(sub: Subscriber, history: seq<Chunk>)
    requires sub.phase == Replaying && sub.position <= |history|
    ensures Resume(sub, history).phase == Live || sub.position < Resume(sub, history).position <= |history|
  {
  }

  // ---- Numbering and backpressure ----

  /** Output is numbered on from the cursor. */
  ghost predicate Numbered(history: seq<Chunk>, from: nat, base: int) {
    from <= |history| && forall k :: from <= k < |history| ==> history[k].sequence == base + (k - from) + 1
  }

  /** The session has numbered its output from `base` on since the history was `from` long. */
  ghost predicate NumberedSince(s: Session, from: nat, base: int) {
    Numbered(s.history, from, base) && s.cursor.outputSequence == base + |s.history| - from
  }

  lemma {:induction false} FeedNumbers(s: Session, text: string, parse: Parser, from: nat, base: int)
    requires NumberedSince(s, from, base)
    ensures NumberedSince(FeedText(s, text, parse), from, base)
    decreases |text|
  {
    if text != "" {
      FeedNumbers(FeedChar(s, text[0], parse), text[1..], parse, from, base);
    }
  }

  /** Between attaches that bring a cursor, output numbers are contiguous. */
  lemma {:induction false} RunNumbers(s: Session, ops: seq<Op>, parse: Parser, from: nat, base: int)
    requires NumberedSince(s, from, base)
    requires forall op :: op in ops ==> !(op.Attach? && op.cursor.Some?)
    ensures NumberedSince(Run(s, ops, parse), from, base)
    decreases |ops|
  {
    if ops != [] {
      assert ops[0] in ops;
      if ops[0].Stdout? {
        FeedNumbers(s, ops[0].text, parse, from, base);
      }
      RunNumbers(Step(s, ops[0], parse), ops[1..], parse, from, base);
    }
  }

  /** The numbers of a history are contiguous, or merely strictly rising. */
  ghost predicate InSequence(history: seq<Chunk>, gapless: bool) {
    forall k {:trigger history[k]} :: 0 < k < |history| ==>
      Follows(history[k - 1].sequence, history[k].sequence, gapless)
  }

  predicate Follows(n: int, next: int, gapless: bool) {
    if gapless then next == n + 1 else next > n
  }

  /** The next output will be numbered to follow the last one. */
  predicate CursorFits(s: Session, gapless: bool) {
    s.history == [] || Follows(s.history[|s.history| - 1].sequence, s.cursor.outputSequence + 1, gapless)
  }

  /** Whenever there is output in a run, the cursor fits at that moment. */
  ghost predicate FitsAtOutput(s: Session, ops: seq<Op>, parse: Parser, gapless: bool)
    decreases |ops|
  {
    ops != [] ==>
      var s' := Step(s, ops[0], parse);
      (s'.history == s.history || CursorFits(s, gapless)) && FitsAtOutput(s', ops[1..], parse, gapless)
  }

  lemma OutputFollows(s: Session, text: string, gapless: bool)
    ensures InSequence(Output(s, text).history, gapless) <==> InSequence(s.history, gapless) && CursorFits(s, gapless)
    ensures CursorFits(Output(s, text), gapless)
  {
    var history := Output(s, text).history;
    if InSequence(history, gapless) {
      forall k | 0 < k < |s.history| ensures Follows(s.history[k - 1].sequence, s.history[k].sequence, gapless) {
        assert history[k] == s.history[k] && history[k - 1] == s.history[k - 1];
      }
      assert s.history != [] ==> history[|s.history|] == NextChunk(s, text);
    }
  }

  /** A character ends a line with output, or leaves history and cursor alone. */
  lemma CharOutputs(s: Session, c: char, parse: Parser) returns (text: Option<string>)
    ensures var s' := FeedChar(s, c, parse);
      if text.Some? then s' == Output(s.(buffer := ""), text.value)
          else s'.history == s.history && s'.cursor == s.cursor
  {
    text := None;
    if FeedChar(s, c, parse).history != s.history {
      text := Some(TextOf(parse(Trim(s.buffer)).value));
    }
  }

  lemma CharFollows(s: Session, c: char, parse: Parser, gapless: bool)
    ensures var s' := FeedChar(s, c, parse);
      && |s.history| <= |s'.history|
      && (|s'.history| == |s.history| ==> s'.history == s.history && s'.cursor == s.cursor)
      && (InSequence(s'.history, gapless) <==>
           InSequence(s.history, gapless) && (s'.history == s.history || CursorFits(s, gapless)))
      && (s'.history != s.history ==> CursorFits(s', gapless))
  {
    var text := CharOutputs(s, c, parse);
    if text.Some? {
      OutputFollows(s.(buffer := ""), text.value, gapless);
    }
  }

  lemma {:induction false} FeedFollows(s: Session, text: string, parse: Parser, gapless: bool)
    ensures var s' := FeedText(s, text, parse);
      && |s.history| <= |s'.history|
      && (|s'.history| == |s.history| ==> s'.history == s.history && s'.cursor == s.cursor)
      && (InSequence(s'.history, gapless) <==>
           InSequence(s.history, gapless) && (s'.history == s.history || CursorFits(s, gapless)))
      && (s'.history != s.history ==> CursorFits(s', gapless))
    decreases |text|
  {
    if text != "" {
      CharFollows(s, text[0], parse, gapless);
      FeedFollows(FeedChar(s, text[0], parse), text[1..], parse, gapless);
    }
  }

  /** Output numbers stay in sequence exactly in the runs where the cursor fits whenever there is output. */
  lemma {:induction false} NumbersFollowIff(s: Session, ops: seq<Op>, parse: Parser, gapless: bool)
    ensures InSequence(Run(s, ops, parse).history, gapless) <==>
            InSequence(s.history, gapless) && FitsAtOutput(s, ops, parse, gapless)
    decreases |ops|
  {
    if ops != [] {
      if ops[0].Stdout? {
        FeedFollows(s, ops[0].text, parse, gapless);
      }
      NumbersFollowIff(Step(s, ops[0], parse), ops[1..], parse, gapless);
    }
  }

  /** Every cursor that an attach brings is the session's own at that moment, or, where gaps may be, not below it. */
  ghost predicate CursorsKept(s: Session, ops: seq<Op>, parse: Parser, gapless: bool)
    decreases |ops|
  {
    ops != [] ==>
      && (ops[0].Attach? && ops[0].cursor.Some? ==>
            Follows(s.cursor.outputSequence, ops[0].cursor.value.outputSequence + 1, gapless))
      && CursorsKept(Step(s, ops[0], parse), ops[1..], parse, gapless)
  }

  /** Then numbers stay in sequence over the whole run, and the cursor fits at its end. */
  lemma {:induction false} RunKeepsNumbers(s: Session, ops: seq<Op>, parse: Parser, gapless: bool)
    requires InSequence(s.history, gapless) && CursorFits(s, gapless) && CursorsKept(s, ops, parse, gapless)
    ensures InSequence(Run(s, ops, parse).history, gapless) && CursorFits(Run(s, ops, parse), gapless)
    decreases |ops|
  {
    if ops != [] {
      if ops[0].Stdout? {
        FeedFollows(s, ops[0].text, parse, gapless);
      }
      RunKeepsNumbers(Step(s, ops[0], parse), ops[1..], parse, gapless);
    }
  }

  /** Without further cursors it depends on the cursor at the start alone, if there is any output. */
  lemma {:induction false} FitsFromTheStart(s: Session, ops: seq<Op>, parse: Parser, gapless: bool)
    requires forall op :: op in ops ==> !(op.Attach? && op.cursor.Some?)
    ensures var s' := Run(s, ops, parse);
      && |s.history| <= |s'.history| && (|s'.history| == |s.history| ==> s'.history == s.history)
      && (FitsAtOutput(s, ops, parse, gapless) <==> CursorFits(s, gapless) || s'.history == s.history)
    decreases |ops|
  {
    if ops != [] {
      assert ops[0] in ops;
      if ops[0].Stdout? {
        FeedFollows(s, ops[0].text, parse, gapless);
      }
      FitsFromTheStart(Step(s, ops[0], parse), ops[1..], parse, gapless);
    }
  }

  /**
   Across an attach that brings a cursor, and output after it, numbers stay contiguous exactly if the cursor counts as
   many outputs as the session's own, and strictly rising exactly if it does not count fewer.
   */
  lemma AttachKeepsNumbersIff(s: Session, id: string, cursor: Cursor, ops: seq<Op>, parse: Parser, gapless: bool)
    requires !s.crashed && s.history != [] && InSequence(s.history, gapless)
    requires s.cursor.outputSequence == s.history[|s.history| - 1].sequence
    requires forall op :: op in ops ==> !(op.Attach? && op.cursor.Some?)
    requires Run(Step(s, Attach(id, Some(cursor)), parse), ops, parse).history != s.history
    ensures InSequence(Run(Step(s, Attach(id, Some(cursor)), parse), ops, parse).history, gapless) <==>
            if gapless then cursor.outputSequence == s.cursor.outputSequence
            else cursor.outputSequence >= s.cursor.outputSequence
  {
    var s' := Step(s, Attach(id, Some(cursor)), parse);
    NumbersFollowIff(s', ops, parse, gapless);
    FitsFromTheStart(s', ops, parse, gapless);
  }

  lemma {:induction false} WantedIsAllIff(history: seq<Chunk>, afterSequence: int)
    ensures |Wanted(history, afterSequence)| <= |history|
    ensures Wanted(history, afterSequence) == history <==>
            forall k :: 0 <= k < |history| ==> history[k].sequence > afterSequence
    decreases |history|
  {
    if history != [] {
      var front, last := history[..|history| - 1], history[|history| - 1];
      assert history == front + [last];
      WantedIsAllIff(front, afterSequence);
      if last.sequence <= afterSequence {
        assert |Wanted(history, afterSequence)| < |history|;
      }
      assert forall k :: 0 <= k < |front| ==> front[k] == history[k];
    }
  }

  /** A reader that has seen all numbers so far and asks for those after them is given all later output likewise. */
  lemma ResumedReaderGetsAllIff(s: Session, id: string, cursor: Cursor, ops: seq<Op>, parse: Parser)
    requires !s.crashed && forall op :: op in ops ==> !(op.Attach? && op.cursor.Some?)
    requires Run(Step(s, Attach(id, Some(cursor)), parse), ops, parse).history != s.history
    ensures var history := Run(Step(s, Attach(id, Some(cursor)), parse), ops, parse).history;
      && |s.history| <= |history|
      && (Wanted(history[|s.history|..], s.cursor.outputSequence) == history[|s.history|..] <==>
           cursor.outputSequence >= s.cursor.outputSequence)
  {
    var s' := Step(s, Attach(id, Some(cursor)), parse);
    RunNumbers(s', ops, parse, |s.history|, cursor.outputSequence);
    FitsFromTheStart(s', ops, parse, true);
    var history := Run(s', ops, parse).history;
    WantedIsAllIff(history[|s.history|..], s.cursor.outputSequence);
    assert history[|s.history|..][0] == history[|s.history|];
  }

  /**
   An attach with an old cursor makes numbers repeat, and a reader that resumes from one it has seen misses output.
   */
  lemma AttachRepeatsNumbers(s: Session, stale: Cursor, id: string, text: string)
    requires s.history != [] && stale.outputSequence + 1 == s.history[|s.history| - 1].sequence
    ensures var s' := Output(s.(attachedSessionId := Some(id), cursor := stale), text);
      && s'.history[|s'.history| - 1].sequence == s'.history[|s'.history| - 2].sequence
      && Wanted(s'.history[|s.history|..], s.history[|s.history| - 1].sequence) == []
  {
    var s' := Output(s.(attachedSessionId := Some(id), cursor := stale), text);
    assert s'.history[|s.history|..] == [NextChunk(s.(attachedSessionId := Some(id), cursor := stale), text)];
  }

  function Inputs(ops: seq<Op>): nat {
    if ops == [] then 0 else (if ops[0].SendInput? && ops[0].stdinOpen then 1 else 0) + Inputs(ops[1..])
  }

  /** Every output takes one input off the count, as long as there is one. */
  lemma {:induction false} FeedDrains(s: Session, text: string, parse: Parser)
    requires OrZero(s.pendingInputCount) >= 0
    ensures var s' := FeedText(s, text, parse);
      var outputs := |s'.history| - |s.history|;
      && outputs >= 0
      && OrZero(s'.pendingInputCount) ==
           if OrZero(s.pendingInputCount) > outputs then OrZero(s.pendingInputCount) - outputs else 0
    decreases |text|
  {
    if text != "" {
      FeedDrains(FeedChar(s, text[0], parse), text[1..], parse);
    }
  }

  /** The backpressure counter is never negative, and never counts less than the inputs that no output has answered. */
  lemma {:induction false} PendingInputs(s: Session, ops: seq<Op>, parse: Parser)
    requires OrZero(s.pendingInputCount) >= 0 && !Run(s, ops, parse).crashed
    ensures var s' := Run(s, ops, parse);
      && OrZero(s'.pendingInputCount) >= 0
      && OrZero(s'.pendingInputCount) >= OrZero(s.pendingInputCount) + Inputs(ops) - (|s'.history| - |s.history|)
      && OrZero(s'.pendingInputCount) <= OrZero(s.pendingInputCount) + Inputs(ops)
    decreases |ops|
  {
    if ops != [] {
      if s.crashed {
        RunOfCrashed(s, ops, parse);
      } else {
        if ops[0].Stdout? {
          FeedDrains(s, ops[0].text, parse);
        }
        PendingInputs(Step(s, ops[0], parse), ops[1..], parse);
      }
    }
  }

  lemma {:induction false} RunOfCrashed(s: Session, ops: seq<Op>, parse: Parser)
    requires s.crashed
    ensures Run(s, ops, parse) == s
    decreases |ops|
  {
    if ops != [] {
      RunOfCrashed(s, ops[1..], parse);
    }
  }

  /** The reader raises exactly when one of the lines completed so far is `null`. */
  lemma {:induction false} CrashesIffNullLine(s: Session, lines: seq<string>, parse: Parser)
    requires !s.crashed
    ensures RunLines(s, lines, parse).crashed <==>
            exists k :: 0 <= k < |lines| && Trim(lines[k]) != "" && parse(Trim(lines[k])) == Some(Null)
    decreases |lines|
  {
    if lines != [] {
      var next := LineStep(s, lines[0], parse);
      if !next.crashed {
        CrashesIffNullLine(next, lines[1..], parse);
        if k :| 0 <= k < |lines| && Trim(lines[k]) != "" && parse(Trim(lines[k])) == Some(Null) {
          assert lines[1..][k - 1] == lines[k];
        }
      }
    }
  }
}
