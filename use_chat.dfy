/** The chat hook's send action: the user's message is appended; without a
    document a fixed reply follows; otherwise the streamed answer grows in one
    AI message marked `streaming...`, which the final text (or an error
    message) then replaces. The stream's chunks and its outcome, and the
    display times, are parameters. */
module UseChat {
  import opened Common
  import opened LegacyStore

  const StreamingMark := "streaming..."

  /** The reply appended when no document is loaded. */
  const NoDocumentReply := "I'm sorry, I can only answer questions based on documents. "
                           + "Please upload or paste a document first so I can assist you!"

  const ErrorReplyText := "Sorry, I encountered an error. Please try again."

  predicate IsStreaming(m: ChatMessage)
  {
    m.sender == AiSender && m.timestamp == StreamingMark
  }

  /** `prev.slice(0, -1)`: all but the last message (nothing when empty). */
  function DropLast(h: seq<ChatMessage>): (r: seq<ChatMessage>)
    ensures h == [] ==> r == []
    ensures h != [] ==> |r| == |h| - 1 && h == r + [h[|h| - 1]]
  {
    if h == [] then [] else h[..|h| - 1]
  }

  /** `[...prev.slice(0, -1), m]` */
  function ReplaceLast(h: seq<ChatMessage>, m: ChatMessage): (r: seq<ChatMessage>)
    ensures |r| == (if h == [] then 1 else |h|)
    ensures r[|r| - 1] == m && r[..|r| - 1] == DropLast(h)
  {
    DropLast(h) + [m]
  }

  /** The history updater run on each chunk, with the text streamed so far. */
  function StreamChunk(h: seq<ChatMessage>, fullText: string): (r: seq<ChatMessage>)
    ensures r != [] && IsStreaming(r[|r| - 1]) && r[|r| - 1].text == fullText
    ensures h != [] && IsStreaming(h[|h| - 1]) ==> |r| == |h| && r[..|r| - 1] == h[..|h| - 1]
    ensures !(h != [] && IsStreaming(h[|h| - 1])) ==> |r| == |h| + 1 && r[..|h|] == h
  {
    if h != [] && IsStreaming(h[|h| - 1]) then
      h[..|h| - 1] + [h[|h| - 1].(text := fullText)]
    else
      h + [ChatMessage(AiSender, fullText, StreamingMark)]
  }

  /** The in-order concatenation of the chunks. */
  function Concat(chunks: seq<string>): string
  {
    if chunks == [] then "" else Concat(chunks[..|chunks| - 1]) + chunks[|chunks| - 1]
  }

  /** Whatever the history before, a run of chunks after a message that is
      not streaming leaves exactly one streaming message, holding the
      concatenation of the chunks, after that history. */
  lemma {:induction false} ChunksGrowOneMessage(h: seq<ChatMessage>, chunks: seq<string>)
    requires h != [] && !IsStreaming(h[|h| - 1]) && chunks != []
    ensures StreamAll(h, chunks) == h + [ChatMessage(AiSender, Concat(chunks), StreamingMark)]
  {
    var n := |chunks|;
    if n > 1 {
      ChunksGrowOneMessage(h, chunks[..n - 1]);
      assert chunks[..n - 1][..n - 2] == chunks[..n - 2];
    }
    assert chunks[..n - 1] == chunks[..|chunks| - 1];
  }

  /** The history after the chunk updater has run on each prefix. */
  function StreamAll(h: seq<ChatMessage>, chunks: seq<string>): seq<ChatMessage>
  {
    if chunks == [] then h
    else StreamChunk(StreamAll(h, chunks[..|chunks| - 1]), Concat(chunks))
  }

  /** One more chunk: the text grows by it and the updater runs once more. */
  lemma StreamStep(h: seq<ChatMessage>, chunks: seq<string>, i: nat)
    requires i < |chunks|
    ensures Concat(chunks[..i + 1]) == Concat(chunks[..i]) + chunks[i]
    ensures StreamAll(h, chunks[..i + 1]) == StreamChunk(StreamAll(h, chunks[..i]), Concat(chunks[..i + 1]))
  {
    assert chunks[..i + 1][..i] == chunks[..i];
  }

  /** How the stream ended: with the final text, or with an error. */
  datatype StreamEnd = Finished(finalText: string) | Failed

  /** The history the sender leaves, from the history before it: the user's
      message, then either the no-document reply, or the outcome replacing the
      last message (the streamed one, or the user's own when nothing arrived). */
  function SentHistory(h: seq<ChatMessage>, user: ChatMessage, hasDocument: bool, chunks: seq<string>,
                       end: StreamEnd, repliedAt: string): seq<ChatMessage>
  {
    if !hasDocument then h + [user, ChatMessage(AiSender, NoDocumentReply, repliedAt)]
    else
      var text := if end.Finished? then end.finalText else ErrorReplyText;
      ReplaceLast(StreamAll(h + [user], chunks), ChatMessage(AiSender, text, repliedAt))
  }

  /** Once at least one chunk has arrived, the user's message stays and the
      outcome follows it: the final text or the error message. */
  lemma SentKeepsUserMessage(h: seq<ChatMessage>, user: ChatMessage, chunks: seq<string>, end: StreamEnd, at: string)
    requires user.sender == UserSender && chunks != []
    ensures var text := if end.Finished? then end.finalText else ErrorReplyText;
      SentHistory(h, user, true, chunks, end, at) == h + [user, ChatMessage(AiSender, text, at)]
  {
    ChunksGrowOneMessage(h + [user], chunks);
    assert (h + [user]) + [ChatMessage(AiSender, Concat(chunks), StreamingMark)] != [];
  }

  /** When the stream ends before any chunk, the outcome replaces the user's
      own message: the history ends with the reply and the question is gone. */
  lemma NoChunkReplacesUserMessage(h: seq<ChatMessage>, user: ChatMessage, end: StreamEnd, at: string)
    ensures var text := if end.Finished? then end.finalText else ErrorReplyText;
      SentHistory(h, user, true, [], end, at) == h + [ChatMessage(AiSender, text, at)]
  {
    assert DropLast(h + [user]) == h;
  }

  /** `handleSendMessage(message)`, on the store whose history it updates.
      `sentAt` and `repliedAt` are the display times; `chunks` are the stream's
      chunks as they arrive and `end` its outcome. Returns the text streamed. */
  method SendMessage(s: Store, message: string, sentAt: string, repliedAt: string,
                     chunks: seq<string>, end: StreamEnd) returns (streamed: string)
    modifies s`chatHistory, s`isTyping
    ensures var hasDocument := s.fileId.Some? && s.fileId.value != "";
      s.chatHistory == SentHistory(old(s.chatHistory), ChatMessage(UserSender, message, sentAt), hasDocument,
                                   chunks, end, repliedAt)
    ensures s.fileId.None? || s.fileId.value == "" ==> s.isTyping == old(s.isTyping) && streamed == ""
    ensures s.fileId.Some? && s.fileId.value != "" ==> !s.isTyping && streamed == Concat(chunks)
  {
    var user := ChatMessage(UserSender, message, sentAt);
    s.chatHistory := s.chatHistory + [user];
    streamed := "";
    if s.fileId.None? || s.fileId.value == "" {
      s.chatHistory := s.chatHistory + [ChatMessage(AiSender, NoDocumentReply, repliedAt)];
      return;
    }
    ghost var h0 := s.chatHistory;
    s.isTyping := true;
    for i := 0 to |chunks|
      invariant streamed == Concat(chunks[..i])
      invariant s.chatHistory == StreamAll(h0, chunks[..i])
      invariant i > 0 ==> !s.isTyping
    {
      StreamStep(h0, chunks, i);
      streamed := streamed + chunks[i];
      s.isTyping := false;
      s.chatHistory := StreamChunk(s.chatHistory, streamed);
    }
    assert chunks[..|chunks|] == chunks;
    var text := if end.Finished? then end.finalText else ErrorReplyText;
    s.chatHistory := ReplaceLast(s.chatHistory, ChatMessage(AiSender, text, repliedAt));
    s.isTyping := false;
  }
}
