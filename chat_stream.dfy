/** The agent chat page's turn handling: sending a user message, reading the streamed reply
    line by line, and keeping the message list and the two busy flags consistent. */
module ChatStream {
  import opened Wrappers
  import opened Strings
  import Seqs

  datatype Role = User | Assistant

  /** One chat bubble; the request's history entries have the same two fields. */
  datatype Message = Message(role: Role, content: string)

  /** The request body: the new message and the history before it. */
  datatype ChatRequest = ChatRequest(message: string, history: seq<Message>)

  /** A parsed `data:` payload, seen through the one field the reader uses: `content` is the text
      `assistantMessage += data.content` appends when the field is truthy, and "" when it is absent
      or falsy. */
  datatype Record = Record(content: string)

  /** What the network delivers for one request. */
  datatype Transport =
    | NetworkFailure                                // `fetch` rejects
    | HttpFailure                                   // `response.ok` is false
    | NoBody                                        // `response.body` is null: there is no reader
    | Body(chunks: seq<string>, readFails: bool)    // the decoded chunks in order; `readFails`: the read after them rejects instead of reporting the end

  const DataPrefix: string := "data: "
  const ApologyText: string := "Sorry, I encountered an error. Please try again."

  /** What one line adds to the reply. Only lines that begin with `data: ` are read; the payload is
      the rest of the line; a payload that does not parse (`parse` gives None) adds nothing. */
  function LineText(line: string, parse: string -> Option<Record>): (r: string)
    ensures !StartsWith(line, DataPrefix) ==> r == ""
    ensures StartsWith(line, DataPrefix) && parse(line[|DataPrefix|..]).None? ==> r == ""
  {
    if StartsWith(line, DataPrefix) then
      match parse(line[|DataPrefix|..])
      case Some(rec) => rec.content
      case None => ""
    else ""
  }

  /** What a run of lines adds, in order. */
  function LinesText(lines: seq<string>, parse: string -> Option<Record>): string
    decreases |lines|
  {
    if lines == [] then "" else LineText(lines[0], parse) + LinesText(lines[1..], parse)
  }

  /** What one chunk adds: the chunk is split on line feeds on its own, with nothing carried over
      from the chunk before. */
  function ChunkText(chunk: string, parse: string -> Option<Record>): string {
    LinesText(Split(chunk, '\n'), parse)
  }

  /** The reply text after reading `chunks`: what each chunk adds, chunk after chunk. */
  function StreamText(chunks: seq<string>, parse: string -> Option<Record>): string
    decreases |chunks|
  {
    if chunks == [] then "" else ChunkText(chunks[0], parse) + StreamText(chunks[1..], parse)
  }

  lemma {:induction false} LinesTextAppend(a: seq<string>, b: seq<string>, parse: string -> Option<Record>)
    ensures LinesText(a + b, parse) == LinesText(a, parse) + LinesText(b, parse)
    decreases |a|
  {
    if a == [] {
      assert a + b == b;
    } else {
      assert (a + b)[1..] == a[1..] + b;
      LinesTextAppend(a[1..], b, parse);
    }
  }

  /** Reading more chunks only appends to the reply: the text of a stream is the text of its
      first part followed by the text of the rest. */
  lemma {:induction false} StreamTextAppend(a: seq<string>, b: seq<string>, parse: string -> Option<Record>)
    ensures StreamText(a + b, parse) == StreamText(a, parse) + StreamText(b, parse)
    decreases |a|
  {
    if a == [] {
      assert a + b == b;
    } else {
      assert (a + b)[1..] == a[1..] + b;
      StreamTextAppend(a[1..], b, parse);
    }
  }

  lemma LineStep(lines: seq<string>, j: nat, parse: string -> Option<Record>)
    requires j < |lines|
    ensures LinesText(lines[..j + 1], parse) == LinesText(lines[..j], parse) + LineText(lines[j], parse)
  {
    LinesTextAppend(lines[..j], [lines[j]], parse);
    assert lines[..j + 1] == lines[..j] + [lines[j]];
    assert LinesText([lines[j]], parse) == LineText(lines[j], parse) + LinesText([], parse);
  }

  lemma ChunkStep(chunks: seq<string>, i: nat, parse: string -> Option<Record>)
    requires i < |chunks|
    ensures StreamText(chunks[..i + 1], parse) == StreamText(chunks[..i], parse) + ChunkText(chunks[i], parse)
  {
    var c := chunks[i];
    assert [c][1..] == [];
    assert StreamText([c], parse) == ChunkText(c, parse);
    assert chunks[..i + 1] == chunks[..i] + [c];
    StreamTextAppend(chunks[..i], [c], parse);
  }

  /** A stream that arrives in one read is read line by line without loss. */
  lemma SingleChunkText(lines: seq<string>, parse: string -> Option<Record>)
    requires |lines| >= 1 && forall i :: 0 <= i < |lines| ==> '\n' !in lines[i]
    ensures StreamText([Join(lines, "\n")], parse) == LinesText(lines, parse)
  {
    SplitJoin(lines, '\n');
    assert StreamText([Join(lines, "\n")], parse) == ChunkText(Join(lines, "\n"), parse) + StreamText([], parse);
  }

  /** A record split across two reads is lost: the first read holds `data: ` and the start of the
      payload, which does not parse alone; the second read holds the rest, which is not a `data: `
      line. Neither read contributes, although the whole line would. */
  lemma SplitRecordLost(head: string, tail: string, parse: string -> Option<Record>)
    requires StartsWith(head, DataPrefix) && '\n' !in head && '\n' !in tail
    requires parse(head[|DataPrefix|..]).None?
    requires !StartsWith(tail, DataPrefix)
    ensures StreamText([head, tail], parse) == ""
    ensures StreamText([head + tail], parse) == LineText(head + tail, parse)
  {
    SplitNoSeparator(head, '\n');
    SplitNoSeparator(tail, '\n');
    SplitNoSeparator(head + tail, '\n');
    assert StreamText([head, tail], parse) == ChunkText(head, parse) + StreamText([tail], parse);
    assert [head, tail][1..] == [tail];
  }

  /** Any transport failure ends the turn with this assistant message. */
  function Apology(): (m: Message)
    ensures m.role == Assistant && m.content != ""
  {
    Message(Assistant, ApologyText)
  }

  /** The messages one call of `FetchResponse` appends. A failure before a readable response
      appends only the apology; otherwise one assistant message holds the reply read so far,
      followed by the apology if a read fails. */
  function TurnMessages(transport: Transport, parse: string -> Option<Record>): (r: seq<Message>)
    ensures 1 <= |r| <= 2
    ensures |r| == 2 <==> transport.Body? && transport.readFails
    ensures r[|r| - 1] == Apology() || transport.NoBody? || (transport.Body? && !transport.readFails)
    ensures forall i :: 0 <= i < |r| ==> r[i].role == Assistant
  {
    match transport
    case NetworkFailure => [Apology()]
    case HttpFailure => [Apology()]
    case NoBody => [Message(Assistant, "")]
    case Body(chunks, readFails) =>
      [Message(Assistant, StreamText(chunks, parse))] + (if readFails then [Apology()] else [])
  }

  /** `conversationText`: every message's content, joined by single spaces; the studio matcher's input. */
  function ConversationText(messages: seq<Message>): (r: string)
    ensures messages == [] ==> r == ""
  {
    Join(seq(|messages|, i requires 0 <= i < |messages| => messages[i].content), " ")
  }

  /** Every message's content occurs in the conversation text. */
  lemma ConversationTextContains(messages: seq<Message>, k: nat)
    requires k < |messages|
    ensures Contains(ConversationText(messages), messages[k].content)
  {
    var contents := seq(|messages|, i requires 0 <= i < |messages| => messages[i].content);
    JoinContainsPart(contents, " ", k);
  }

  class ChatPage {
    /** The message list shown in the chat panel. */
    var messages: seq<Message>
    /** The text area's contents. */
    var input: string
    /** A turn is in flight: the send button is disabled. */
    var isLoading: bool
    /** The reply is being read. */
    var isStreaming: bool
    /** The navigation-supplied first message has been sent. */
    var hasProcessedInitialMessage: bool
    /** The message the page was opened with, if any. */
    const initialMessage: Option<string>

    /** The page opens with the trimmed initial message as its first user message and counts as
        loading until that message's reply arrives. */
    constructor (initialMessage: Option<string>)
      ensures this.initialMessage == initialMessage
      ensures initialMessage.Some? && Trim(initialMessage.value) != "" ==>
        messages == [Message(User, Trim(initialMessage.value))] && isLoading
      ensures !(initialMessage.Some? && Trim(initialMessage.value) != "") ==> messages == [] && !isLoading
      ensures input == "" && !isStreaming && !hasProcessedInitialMessage
    {
      this.initialMessage := initialMessage;
      if initialMessage.Some? && Trim(initialMessage.value) != "" {
        messages := [Message(User, Trim(initialMessage.value))];
        isLoading := true;
      } else {
        messages := [];
        isLoading := false;
      }
      input := "";
      isStreaming := false;
      hasProcessedInitialMessage := false;
    }

    /** Typing into the text area. */
    method SetInput(text: string)
      modifies this
      ensures input == text
      ensures messages == old(messages) && isLoading == old(isLoading) && isStreaming == old(isStreaming)
      ensures hasProcessedInitialMessage == old(hasProcessedInitialMessage)
    {
      input := text;
    }

    /** `handleSend`: with a non-blank input and no turn in flight, appends the trimmed text as a
        user message, clears the input, marks the page loading, and issues one request whose
        history is the message list before the append. Otherwise nothing happens. */
    method HandleSend() returns (request: Option<ChatRequest>)
      modifies this
      ensures Trim(old(input)) == "" || old(isLoading) ==>
        request == None && messages == old(messages) && input == old(input) && isLoading == old(isLoading)
      ensures Trim(old(input)) != "" && !old(isLoading) ==>
        && request == Some(ChatRequest(Trim(old(input)), old(messages)))
        && messages == old(messages) + [Message(User, Trim(old(input)))]
        && input == "" && isLoading
      ensures isStreaming == old(isStreaming) && hasProcessedInitialMessage == old(hasProcessedInitialMessage)
    {
      if Trim(input) == "" || isLoading {
        return None;
      }
      var trimmed := Trim(input);
      var history := messages;
      messages := messages + [Message(User, trimmed)];
      input := "";
      isLoading := true;
      request := Some(ChatRequest(trimmed, history));
    }

    /** The mount effect for the initial message: it sends the message once, with an empty
        history, and never again. */
    method ProcessInitialMessage() returns (request: Option<ChatRequest>)
      modifies this
      ensures old(hasProcessedInitialMessage) || initialMessage.None? || Trim(initialMessage.value) == "" ==>
        request == None && hasProcessedInitialMessage == old(hasProcessedInitialMessage)
      ensures !old(hasProcessedInitialMessage) && initialMessage.Some? && Trim(initialMessage.value) != "" ==>
        request == Some(ChatRequest(Trim(initialMessage.value), [])) && hasProcessedInitialMessage
      ensures messages == old(messages) && input == old(input)
      ensures isLoading == old(isLoading) && isStreaming == old(isStreaming)
    {
      request := None;
      if initialMessage.Some? && Trim(initialMessage.value) != "" && !hasProcessedInitialMessage {
        hasProcessedInitialMessage := true;
        request := Some(ChatRequest(Trim(initialMessage.value), []));
      }
    }

    /** One iteration of the reader loop: the chunk is split on line feeds and every `data: ` line
        whose payload carries content extends the reply, which overwrites the last message. */
    method ReadChunk(ghost before: seq<Message>, reply: string, chunk: string, parse: string -> Option<Record>)
      returns (extended: string)
      requires messages == before + [Message(Assistant, reply)]
      modifies this
      ensures extended == reply + ChunkText(chunk, parse)
      ensures messages == before + [Message(Assistant, extended)]
      ensures input == old(input) && isLoading == old(isLoading) && isStreaming == old(isStreaming)
      ensures hasProcessedInitialMessage == old(hasProcessedInitialMessage)
    {
      var prefix := messages[..|messages| - 1];
      assert prefix == before;
      extended := reply;
      var lines := Split(chunk, '\n');
      var j := 0;
      while j < |lines|
        invariant 0 <= j <= |lines|
        invariant extended == reply + LinesText(lines[..j], parse)
        invariant messages == before + [Message(Assistant, extended)]
        invariant input == old(input) && isLoading == old(isLoading) && isStreaming == old(isStreaming)
        invariant hasProcessedInitialMessage == old(hasProcessedInitialMessage)
      {
        var line := lines[j];
        ghost var sofar := extended;
        if StartsWith(line, DataPrefix) {
          var data := parse(line[|DataPrefix|..]);
          if data.Some? && data.value.content != "" {
            extended := extended + data.value.content;
            // the last message, and only it, becomes the running reply
            messages := prefix + [Message(Assistant, extended)];
          }
        }
        assert extended == sofar + LineText(line, parse);
        LineStep(lines, j, parse);
        Seqs.AppendAssoc(reply, LinesText(lines[..j], parse), LineText(line, parse));
        j := j + 1;
      }
      assert lines[..j] == lines;
    }

    /** The reader loop: every chunk in order extends the reply, which overwrites the last
        message, the empty placeholder. */
    method ReadStream(ghost before: seq<Message>, chunks: seq<string>, parse: string -> Option<Record>)
      returns (reply: string)
      requires messages == before + [Message(Assistant, "")]
      modifies this
      ensures reply == StreamText(chunks, parse)
      ensures messages == before + [Message(Assistant, reply)]
      ensures input == old(input) && isLoading == old(isLoading) && isStreaming == old(isStreaming)
      ensures hasProcessedInitialMessage == old(hasProcessedInitialMessage)
    {
      reply := "";
      var i := 0;
      while i < |chunks|
        invariant 0 <= i <= |chunks|
        invariant reply == StreamText(chunks[..i], parse)
        invariant messages == before + [Message(Assistant, reply)]
        invariant input == old(input) && isLoading == old(isLoading) && isStreaming == old(isStreaming)
        invariant hasProcessedInitialMessage == old(hasProcessedInitialMessage)
      {
        reply := ReadChunk(before, reply, chunks[i], parse);
        ChunkStep(chunks, i, parse);
        i := i + 1;
      }
      assert chunks[..i] == chunks;
    }

    /** `fetchResponse`: on a readable response, appends an empty assistant placeholder and then,
        for every `data: ` line of every chunk whose payload carries content, appends that content
        to the reply and overwrites the last message with it. Any failure appends the apology after
        whatever is there, keeping a partly read reply. Both flags end false. */
    method FetchResponse(request: ChatRequest, transport: Transport, parse: string -> Option<Record>)
      modifies this
      ensures messages == old(messages) + TurnMessages(transport, parse)
      ensures !isLoading && !isStreaming
      ensures input == old(input) && hasProcessedInitialMessage == old(hasProcessedInitialMessage)
    {
      if transport.NetworkFailure? || transport.HttpFailure? {
        messages := messages + [Apology()];
        isLoading, isStreaming := false, false;
        return;
      }
      messages := messages + [Message(Assistant, "")];
      isStreaming := true;
      if transport.Body? {
        var reply := ReadStream(old(messages), transport.chunks, parse);
        if transport.readFails {
          messages := messages + [Apology()];
        }
      }
      isLoading, isStreaming := false, false;
    }
  }

  /** A send while a turn is in flight is ignored, and so is a blank one: a page that sent its
      initial message sends nothing for a second trigger or for a blank or early send. */
  method InitialMessageSentOnce(text: string, typed: string) returns (first: Option<ChatRequest>, second: Option<ChatRequest>, early: Option<ChatRequest>)
    ensures Trim(text) != "" ==> first == Some(ChatRequest(Trim(text), []))
    ensures second == None
    ensures Trim(text) != "" ==> early == None
  {
    var page := new ChatPage(Some(text));
    first := page.ProcessInitialMessage();
    second := page.ProcessInitialMessage();
    page.SetInput(typed);
    early := page.HandleSend();
  }
}
