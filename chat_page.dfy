/**
 * The transcript state of the chat page (frontend/app/page.tsx:16-77):
 * `messages`, `input` and `isStreaming`, and `handleSendMessage`, which appends
 * the user's message and an empty assistant reply, sends the last ten
 * messages, and grows the reply chunk by chunk as the response body streams in.
 */
module ChatPage {
  import opened Wrappers
  import opened Slices

  /** `'user' | 'assistant'`. */
  datatype Speaker = UserRole | AssistantRole

  /** A message of the transcript. */
  datatype Message = Message(id: string, role: Speaker, content: string)

  /** A message as the request carries it: `{ role, content }`. */
  datatype Turn = Turn(role: Speaker, content: string)

  /**
   * What the response body delivers: the decoded chunks in arrival order, and
   * whether the exchange then ended normally (`done`) or threw. A failed
   * `fetch` or a missing body is a failure before the first chunk.
   */
  datatype StreamResult = Completed(chunks: seq<string>) | Failed(chunks: seq<string>)

  const GreetingId: string := "1"
  const Greeting: string := "Hello! I am your AI engineering assistant, connected live to Cloudflare Workers AI. How can I help you?"
  const ErrorReply: string := "Sorry, I encountered an error. Please check the backend logs."

  /** How many messages of history a request carries: `slice(-10)`. */
  const ContextSize: nat := 10

  // ---------------------------------------------------------------------------
  // The send guard: `!input.trim()`
  // ---------------------------------------------------------------------------

  /** A character `String.prototype.trim` removes: white space and line terminators. */
  predicate IsTrimmed(c: char)
  {
    var n := c as int;
    n == 0x09 || n == 0x0A || n == 0x0B || n == 0x0C || n == 0x0D || n == 0x20
    || n == 0xA0 || n == 0x1680 || (0x2000 <= n <= 0x200A) || n == 0x2028 || n == 0x2029
    || n == 0x202F || n == 0x205F || n == 0x3000 || n == 0xFEFF
  }

  /** Drop white space from the front. */
  function TrimStart(s: string): (r: string)
    ensures |r| <= |s| && r == s[|s| - |r|..]
    ensures r != [] ==> !IsTrimmed(r[0])
  {
    if s != [] && IsTrimmed(s[0]) then TrimStart(s[1..]) else s
  }

  /** Drop white space from the back. */
  function TrimEnd(s: string): (r: string)
    ensures |r| <= |s| && r == s[..|r|]
    ensures r != [] ==> !IsTrimmed(r[|r| - 1])
  {
    if s != [] && IsTrimmed(s[|s| - 1]) then TrimEnd(s[..|s| - 1]) else s
  }

  /** `s.trim()`: no longer than `s`, and neither begins nor ends with white space. */
  function Trim(s: string): (r: string)
    ensures |r| <= |s|
    ensures r != [] ==> !IsTrimmed(r[0]) && !IsTrimmed(r[|r| - 1])
  {
    TrimEnd(TrimStart(s))
  }

  /** A string whose every character is white space. */
  predicate IsBlank(s: string)
  {
    forall i :: 0 <= i < |s| ==> IsTrimmed(s[i])
  }

  lemma {:induction false} TrimStartOfBlank(s: string)
    ensures TrimStart(s) == [] <==> IsBlank(s)
  {
    if s != [] && IsTrimmed(s[0]) {
      TrimStartOfBlank(s[1..]);
      assert IsBlank(s) <==> IsBlank(s[1..]) by {
        assert forall i :: 0 < i < |s| ==> s[i] == s[1..][i - 1];
      }
    } else if s != [] {
      assert !IsTrimmed(s[0]);
    }
  }

  /** Trimming from the back never removes a first character that is not white space. */
  lemma {:induction false} TrimEndKeepsHead(s: string)
    requires s != [] && !IsTrimmed(s[0])
    ensures TrimEnd(s) != []
  {
    if IsTrimmed(s[|s| - 1]) {
      assert |s| > 1;
      TrimEndKeepsHead(s[..|s| - 1]);
    }
  }

  /** The guard `!input.trim()` holds exactly for strings made only of white space, the empty one included. */
  lemma TrimEmptyIffBlank(s: string)
    ensures Trim(s) == [] <==> IsBlank(s)
  {
    TrimStartOfBlank(s);
    if TrimStart(s) != [] {
      TrimEndKeepsHead(TrimStart(s));
    }
  }

  // ---------------------------------------------------------------------------
  // The request window and the per-chunk update
  // ---------------------------------------------------------------------------

  /**
   * The window a request carries ends with the newest message and holds the
   * last ten messages, or all of them when there are fewer.
   */
  lemma RequestWindow(history: seq<Message>, m: Message)
    ensures var w := SliceLast(history + [m], ContextSize);
      && |w| == (if |history| < ContextSize then |history| + 1 else ContextSize)
      && w[|w| - 1] == m
      && (forall i :: 0 <= i < |w| ==> w[i] == (history + [m])[|history| + 1 - |w| + i])
  {
  }

  /** `map(({ role, content }) => ({ role, content }))`. */
  function ToTurns(ms: seq<Message>): (r: seq<Turn>)
    ensures |r| == |ms|
    ensures forall i :: 0 <= i < |ms| ==> r[i] == Turn(ms[i].role, ms[i].content)
  {
    seq(|ms|, i requires 0 <= i < |ms| => Turn(ms[i].role, ms[i].content))
  }

  /** No message of `ms` carries `id`. */
  predicate FreshId(ms: seq<Message>, id: string)
  {
    forall i :: 0 <= i < |ms| ==> ms[i].id != id
  }

  /** One chunk: `prev.map(msg => msg.id === id ? { ...msg, content: msg.content + chunk } : msg)`. */
  function AppendChunk(ms: seq<Message>, id: string, chunk: string): (r: seq<Message>)
    ensures |r| == |ms|
    ensures forall i :: 0 <= i < |ms| && ms[i].id != id ==> r[i] == ms[i]
    ensures forall i :: 0 <= i < |ms| && ms[i].id == id ==> r[i] == ms[i].(content := ms[i].content + chunk)
  {
    seq(|ms|, i requires 0 <= i < |ms| =>
      if ms[i].id == id then ms[i].(content := ms[i].content + chunk) else ms[i])
  }

  /** The error path: `prev.map(msg => msg.id === id ? { ...msg, content: text } : msg)`. */
  function ReplaceContent(ms: seq<Message>, id: string, text: string): (r: seq<Message>)
    ensures |r| == |ms|
    ensures forall i :: 0 <= i < |ms| && ms[i].id != id ==> r[i] == ms[i]
    ensures forall i :: 0 <= i < |ms| && ms[i].id == id ==> r[i] == ms[i].(content := text)
  {
    seq(|ms|, i requires 0 <= i < |ms| => if ms[i].id == id then ms[i].(content := text) else ms[i])
  }

  /**
   * The chunks applied one after another, in arrival order: every message
   * with the reply's id gains all of them, concatenated; the others are kept.
   */
  function AppendChunks(ms: seq<Message>, id: string, chunks: seq<string>): (r: seq<Message>)
    ensures |r| == |ms|
    ensures forall i :: 0 <= i < |ms| && ms[i].id != id ==> r[i] == ms[i]
    ensures forall i :: 0 <= i < |ms| && ms[i].id == id ==> r[i] == ms[i].(content := ms[i].content + Concat(chunks))
  {
    if chunks == [] then
      assert forall i :: 0 <= i < |ms| ==> ms[i].content + Concat(chunks) == ms[i].content;
      ms
    else
      var init := chunks[..|chunks| - 1];
      var last := chunks[|chunks| - 1];
      var prev := AppendChunks(ms, id, init);
      assert forall i :: 0 <= i < |ms| ==> (ms[i].content + Concat(init)) + last == ms[i].content + Concat(chunks);
      AppendChunk(prev, id, last)
  }

  /** The chunks concatenated in arrival order. */
  function Concat(chunks: seq<string>): string
  {
    if chunks == [] then "" else Concat(chunks[..|chunks| - 1]) + chunks[|chunks| - 1]
  }

  /**
   * The transcript once the stream has ended: the reply holds every chunk, or
   * the apology when the exchange failed; every other message is kept.
   */
  function AfterStream(ms: seq<Message>, id: string, stream: StreamResult): (r: seq<Message>)
    ensures |r| == |ms|
    ensures forall i :: 0 <= i < |ms| && ms[i].id != id ==> r[i] == ms[i]
    ensures forall i :: 0 <= i < |ms| && ms[i].id == id ==>
      r[i] == ms[i].(content := if stream.Completed? then ms[i].content + Concat(stream.chunks) else ErrorReply)
  {
    match stream
    case Completed(chunks) => AppendChunks(ms, id, chunks)
    case Failed(chunks) => ReplaceContent(AppendChunks(ms, id, chunks), id, ErrorReply)
  }

  /**
   * When the reply's id occurs once, at the end, the chunks grow that reply
   * alone: its content becomes its old content followed by all chunks in order.
   */
  lemma {:induction false} AppendChunksToLast(pre: seq<Message>, m: Message, chunks: seq<string>)
    requires FreshId(pre, m.id)
    ensures AppendChunks(pre + [m], m.id, chunks) == pre + [m.(content := m.content + Concat(chunks))]
  {
    if chunks == [] {
      assert m.content + Concat(chunks) == m.content;
    } else {
      var init := chunks[..|chunks| - 1];
      var last := chunks[|chunks| - 1];
      AppendChunksToLast(pre, m, init);
      var before := pre + [m.(content := m.content + Concat(init))];
      var after := AppendChunk(before, m.id, last);
      assert after == pre + [m.(content := m.content + Concat(chunks))] by {
        assert |after| == |pre| + 1;
        forall i | 0 <= i < |after|
          ensures after[i] == (pre + [m.(content := m.content + Concat(chunks))])[i]
        {
          if i == |pre| {
            assert before[i].id == m.id;
            assert m.content + Concat(init) + last == m.content + Concat(chunks);
          } else {
            assert before[i] == pre[i] && pre[i].id != m.id;
          }
        }
      }
    }
  }

  /**
   * The outcome of one send with fresh ids: the history, the user's message,
   * and a reply holding every chunk in arrival order, or the apology when the
   * exchange failed at any point.
   */
  lemma SendTranscript(history: seq<Message>, user: Message, replyId: string, stream: StreamResult)
    requires FreshId(history, replyId) && user.id != replyId
    ensures AfterStream(history + [user, Message(replyId, AssistantRole, "")], replyId, stream)
      == history + [user, Message(replyId, AssistantRole,
                                   if stream.Completed? then Concat(stream.chunks) else ErrorReply)]
  {
    var pre := history + [user];
    var m := Message(replyId, AssistantRole, "");
    assert FreshId(pre, replyId);
    assert history + [user, m] == pre + [m];
    AppendChunksToLast(pre, m, stream.chunks);
    assert m.content + Concat(stream.chunks) == Concat(stream.chunks);
    var streamed := pre + [m.(content := Concat(stream.chunks))];
    assert pre + [m.(content := Concat(stream.chunks))]
      == history + [user, Message(replyId, AssistantRole, Concat(stream.chunks))];
    if stream.Failed? {
      var r := ReplaceContent(streamed, replyId, ErrorReply);
      assert r == pre + [m.(content := ErrorReply)] by {
        forall i | 0 <= i < |r| ensures r[i] == (pre + [m.(content := ErrorReply)])[i] {
          if i < |pre| { assert streamed[i] == pre[i]; }
        }
      }
      assert pre + [m.(content := ErrorReply)] == history + [user, Message(replyId, AssistantRole, ErrorReply)];
    }
  }

  /** The component's state. */
  class ChatInterface {
    var messages: seq<Message>
    var input: string
    var isStreaming: bool

    /** The initial state: the greeting alone, an empty input, no stream. */
    constructor ()
      ensures messages == [Message(GreetingId, AssistantRole, Greeting)]
      ensures input == "" && !isStreaming
    {
      messages := [Message(GreetingId, AssistantRole, Greeting)];
      input := "";
      isStreaming := false;
    }

    /** The text area's `onChange`. */
    method SetInput(text: string)
      modifies this`input
      ensures input == text
    {
      input := text;
    }

    /**
     * The reading loop of `handleSendMessage`: each decoded chunk is appended
     * to the message carrying `id`, in arrival order.
     */
    method ReadStream(id: string, chunks: seq<string>)
      modifies this`messages
      ensures messages == AppendChunks(old(messages), id, chunks)
    {
      var i := 0;
      while i < |chunks|
        invariant 0 <= i <= |chunks|
        invariant messages == AppendChunks(old(messages), id, chunks[..i])
      {
        assert chunks[..i + 1][..i] == chunks[..i];
        messages := AppendChunk(messages, id, chunks[i]);
        i := i + 1;
      }
      assert chunks[..i] == chunks;
    }

    /**
     * `handleSendMessage`. The two `crypto.randomUUID()` values and the
     * response stream are parameters; `request` is the history the POST
     * carries (None when the guard returns early).
     */
    method HandleSendMessage(userMessageId: string, assistantId: string, stream: StreamResult)
      returns (request: Option<seq<Turn>>)
      modifies this
      ensures Trim(old(input)) == [] || old(isStreaming) ==>
        && request == None
        && messages == old(messages) && input == old(input) && isStreaming == old(isStreaming)
      ensures !(Trim(old(input)) == [] || old(isStreaming)) ==>
        var current := old(messages) + [Message(userMessageId, UserRole, old(input))];
        && request == Some(ToTurns(SliceLast(current, ContextSize)))
        && input == ""
        && !isStreaming
        && messages == AfterStream(current + [Message(assistantId, AssistantRole, "")], assistantId, stream)
    {
      if Trim(input) == [] || isStreaming {
        return None;
      }
      isStreaming := true;
      var newUserMessage := Message(userMessageId, UserRole, input);
      var currentMessages := messages + [newUserMessage];
      messages := currentMessages;
      input := "";
      messages := messages + [Message(assistantId, AssistantRole, "")];
      request := Some(ToTurns(SliceLast(currentMessages, ContextSize)));

      ReadStream(assistantId, stream.chunks);
      if stream.Failed? {
        messages := ReplaceContent(messages, assistantId, ErrorReply);
      }
      isStreaming := false;
    }
  }
}
