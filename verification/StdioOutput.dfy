/**
 What comes out of the line-framed transport (src/runtime/codexStdioSessionClient.ts): which lines become output and
 with which text, to which session the output belongs, what it does to the count of pending inputs, and what readers
 get once they have been closed.
 */
module StdioOutput {
  import opened Wrappers
  import opened StdioTransport
  import Decimal

  predicate Blank(text: string) {
    forall c :: c in text ==> Decimal.IsSpace(c)
  }

  lemma BlankIffTrimmed(text: string)
    ensures Trim(text) == "" <==> Blank(text)
  {
    var front, back := TrimMeans(text);
    if Trim(text) != "" {
      assert Trim(text)[0] in text;
    }
  }

  // ---- Lines ----

  /** An entry of a message that is text, and which. */
  predicate IsTextEntry(entry: Json, text: string) {
    && entry.Obj? && "type" in entry.fields && entry.fields["type"] == Str("text")
    && "text" in entry.fields && entry.fields["text"] == Str(text)
  }

  /** The text of a message is that of its entries, in their order. */
  lemma {:induction false} TextIsJoined(a: seq<Json>, b: seq<Json>)
    ensures JoinText(a + b) == JoinText(a) + JoinText(b)
    decreases |a|
  {
    if a == [] {
      assert a + b == b;
    } else {
      TextIsJoined(a[1..], b);
      var head := if IsText(a[0]) then Field(a[0], "text").value.s else "";
      assert (a + b)[0] == a[0] && (a + b)[1..] == a[1..] + b;
      assert JoinText(a + b) == head + (JoinText(a[1..]) + JoinText(b));
      assert JoinText(a) == head + JoinText(a[1..]);
    }
  }

  /** A text entry gives its text. */
  lemma TextEntryGives(entry: Json, text: string)
    requires IsTextEntry(entry, text)
    ensures JoinText([entry]) == text
  {
    assert [entry][1..] == [] && JoinText([]) == "";
  }

  /** No other entry gives any. */
  lemma OtherEntryGives(entry: Json)
    requires forall text :: !IsTextEntry(entry, text)
    ensures JoinText([entry]) == ""
  {
    if IsText(entry) {
      assert IsTextEntry(entry, entry.fields["text"].s);
    }
    assert [entry][1..] == [] && JoinText([]) == "";
  }

  /** An assistant message with this content. */
  predicate IsMessage(payload: Json, content: seq<Json>) {
    && payload.Obj? && "type" in payload.fields && payload.fields["type"] == Str("assistant")
    && "message" in payload.fields && payload.fields["message"].Obj?
    && "content" in payload.fields["message"].fields && payload.fields["message"].fields["content"] == Arr(content)
  }

  /** The line tells the session's own id. */
  predicate IsInit(payload: Json, id: string) {
    && payload.Obj? && "type" in payload.fields && payload.fields["type"] == Str("system")
    && "subtype" in payload.fields && payload.fields["subtype"] == Str("init")
    && "session_id" in payload.fields && payload.fields["session_id"] == Str(id)
  }

  /** The line, without the white space around it, says this. */
  predicate Says(raw: string, parse: Parser, payload: Json) {
    !Blank(raw) && parse(Trim(raw)) == Some(payload)
  }

  lemma LineSays(s: Session, raw: string, parse: Parser, payload: Json)
    requires Says(raw, parse, payload) && payload != Null
    ensures LineStep(s, raw, parse) == PayloadStep(s, payload)
  {
    BlankIffTrimmed(raw);
  }

  lemma MessageSays(s: Session, payload: Json, content: seq<Json>)
    requires IsMessage(payload, content)
    ensures PayloadStep(s, payload) == if Blank(JoinText(content)) then s else Output(s, JoinText(content))
  {
    assert TextOf(payload) == JoinText(content);
    BlankIffTrimmed(JoinText(content));
  }

  /** An output carries this text, numbered on, in the name of the session attached, or else of the runtime's. */
  predicate Adds(history: seq<Chunk>, s: Session, text: string) {
    var owner := if s.attachedSessionId.Some? then s.attachedSessionId.value
        else if s.runtimeSessionId.Some? then s.runtimeSessionId.value else "codex-session";
    history == s.history + [Chunk(owner, s.cursor.outputSequence + 1, text)]
  }

  /** A message that is not blank becomes one output with its text; a blank one is passed over. */
  lemma MessageIsOutput(s: Session, raw: string, parse: Parser, payload: Json, content: seq<Json>)
    requires Says(raw, parse, payload) && IsMessage(payload, content)
    ensures Blank(JoinText(content)) ==> LineStep(s, raw, parse) == s
    ensures !Blank(JoinText(content)) ==> Adds(LineStep(s, raw, parse).history, s, JoinText(content))
  {
    LineSays(s, raw, parse, payload);
    MessageSays(s, payload, content);
    OutputAdds(s, JoinText(content));
  }

  lemma OutputAdds(s: Session, text: string)
    ensures Adds(Output(s, text).history, s, text)
  {
  }

  /** Any other line gives no output: at most it tells the session's id, or ends the reader. */
  lemma OtherLines(s: Session, raw: string, parse: Parser)
    requires forall payload, content :: Says(raw, parse, payload) ==> !IsMessage(payload, content)
    ensures var s' := LineStep(s, raw, parse);
      && s' == s.(runtimeSessionId := s'.runtimeSessionId, crashed := s'.crashed)
      && (s'.crashed <==> s.crashed || Says(raw, parse, Null))
      && (forall payload, id :: Says(raw, parse, payload) && IsInit(payload, id) ==> s'.runtimeSessionId == Some(id))
      && ((forall payload, id :: Says(raw, parse, payload) ==> !IsInit(payload, id)) ==>
            s'.runtimeSessionId == s.runtimeSessionId)
  {
    BlankIffTrimmed(raw);
    if !Blank(raw) && parse(Trim(raw)).Some? {
      var payload := parse(Trim(raw)).value;
      assert Says(raw, parse, payload);
      var content := FieldOf(Field(payload, "message"), "content");
      if content.Some? && content.value.Arr? {
        assert !IsMessage(payload, content.value.items);
      }
      BlankIffTrimmed("");
      var id := Field(payload, "session_id");
      if id.Some? && id.value.Str? {
        assert IsInit(payload, id.value.s) || !(Field(payload, "type") == Some(Str("system"))
            && Field(payload, "subtype") == Some(Str("init")));
      }
    }
  }

  // ---- Readers ----

  /** A reader asks for what comes after the number given, or after 0, and the readers before it go on as they were. */
  lemma ReaderAsks(s: Session, afterSequence: Option<int>, parse: Parser, i: nat)
    requires !s.crashed && i < |s.subscribers|
    ensures
      var s' := Step(s, ReadOutput(afterSequence), parse);
      && |s'.subscribers| == |s.subscribers| + 1 && s'.subscribers[i] == s.subscribers[i]
      && s'.subscribers[|s.subscribers|].afterSequence ==
           (if afterSequence.Some? then afterSequence.value else 0)
      && s' == s.(subscribers := s'.subscribers)
  {
  }

  /** When the process closes, the readers that are live are closed with it, and those that replay go on. */
  lemma CloseEndsLive(s: Session, parse: Parser, i: nat)
    requires !s.crashed && i < |s.subscribers|
    ensures var s' := Step(s, ProcessClosed, parse);
      && |s'.subscribers| == |s.subscribers|
      && s'.subscribers[i] == s.subscribers[i].(phase :=
           if s.subscribers[i].phase == Live then Closed else s.subscribers[i].phase)
      && s' == s.(subscribers := s'.subscribers)
  {
  }

  /** Closing one reader is closing it alone, once it is live. */
  lemma CloseEndsReader(s: Session, parse: Parser, reader: nat, i: nat)
    requires !s.crashed && i < |s.subscribers|
    ensures var s' := Step(s, CloseReader(reader), parse);
      && |s'.subscribers| == |s.subscribers|
      && s'.subscribers[i] == s.subscribers[i].(phase :=
           if i == reader && s.subscribers[i].phase == Live then Closed else s.subscribers[i].phase)
      && s' == s.(subscribers := s'.subscribers)
  {
  }

  ghost predicate ClosedAs(s: Session, i: nat, sub: Subscriber) {
    i < |s.subscribers| && s.subscribers[i] == sub && sub.phase == Closed
  }

  lemma {:induction false} FeedLeavesClosed(s: Session, text: string, parse: Parser, i: nat, sub: Subscriber)
    requires ClosedAs(s, i, sub)
    ensures ClosedAs(FeedText(s, text, parse), i, sub)
    decreases |text|
  {
    if text != "" {
      FeedLeavesClosed(FeedChar(s, text[0], parse), text[1..], parse, i, sub);
    }
  }

  /** A closed reader is given nothing more, whatever happens. */
  lemma {:induction false} ClosedGetsNothing(s: Session, ops: seq<Op>, parse: Parser, i: nat, sub: Subscriber)
    requires ClosedAs(s, i, sub)
    ensures ClosedAs(Run(s, ops, parse), i, sub)
    decreases |ops|
  {
    if ops != [] {
      if ops[0].Stdout? {
        FeedLeavesClosed(s, ops[0].text, parse, i, sub);
      }
      ClosedGetsNothing(Step(s, ops[0], parse), ops[1..], parse, i, sub);
    }
  }

  // ---- Whose output it is ----

  /** Everything a reader's history gained since belongs to this session. */
  ghost predicate Owned(history: seq<Chunk>, from: nat, id: string) {
    from <= |history| && forall k :: from <= k < |history| ==> history[k].sessionId == id
  }

  lemma {:induction false} FeedOwns(s: Session, text: string, parse: Parser, from: nat, id: string)
    requires s.attachedSessionId == Some(id) && Owned(s.history, from, id)
    ensures var s' := FeedText(s, text, parse);
      s'.attachedSessionId == Some(id) && Owned(s'.history, from, id)
    decreases |text|
  {
    if text != "" {
      FeedOwns(FeedChar(s, text[0], parse), text[1..], parse, from, id);
    }
  }

  /** After an attach, and until another session attaches, sends input, or this one detaches, all output is its own. */
  lemma {:induction false} AttachedOwnsOutput(s: Session, ops: seq<Op>, parse: Parser, from: nat, id: string)
    requires s.attachedSessionId == Some(id) && Owned(s.history, from, id)
    requires forall op :: op in ops ==>
      op != Detach && (op.Attach? || op.SendInput? ==> op.sessionId == id)
    ensures var s' := Run(s, ops, parse);
      s'.attachedSessionId == Some(id) && Owned(s'.history, from, id)
    decreases |ops|
  {
    if ops != [] {
      assert ops[0] in ops;
      if ops[0].Stdout? {
        FeedOwns(s, ops[0].text, parse, from, id);
      }
      AttachedOwnsOutput(Step(s, ops[0], parse), ops[1..], parse, from, id);
    }
  }

  /** A detach takes back an attach that brought no cursor. */
  lemma DetachUndoesAttach(s: Session, id: string, parse: Parser)
    requires !s.crashed && s.attachedSessionId == None
    ensures
      var attached := Step(s, Attach(id, None), parse);
      attached.attachedSessionId == Some(id) && Step(attached, Detach, parse) == s
  {
  }
}
