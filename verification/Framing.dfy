/** One message per connection and direction, ended by a newline: the read loops of both ends. */
module Framing {
  import opened Text
  import opened Messages
  import opened Json
  import opened Ipc

  /** The size of the read buffers, one byte of which is for the terminating NUL. */
  const BUFFER_SIZE := 8192

  /** The reading side of a stream socket: what the coming reads deliver, then end of file. */
  class Socket {
    var pending: seq<string>

    /** A read delivers at least one byte and leaves room for the NUL. */
    ghost predicate Valid()
      reads this
    {
      forall i :: 0 <= i < |pending| ==> 0 < |pending[i]| < BUFFER_SIZE
    }

    constructor (chunks: seq<string>)
      requires forall i :: 0 <= i < |chunks| ==> 0 < |chunks[i]| < BUFFER_SIZE
      ensures pending == chunks && Valid()
    {
      pending := chunks;
    }

    /** `read`; nothing stands for end of file and for errors. */
    method Read() returns (bytes: string)
      requires Valid()
      modifies this
      ensures Valid()
      ensures old(pending) == [] ==> bytes == "" && pending == []
      ensures old(pending) != [] ==> bytes == old(pending)[0] && bytes != "" && pending == old(pending)[1..]
    {
      if pending == [] {
        return "";
      }
      bytes := pending[0];
      pending := pending[1..];
    }
  }

  /** The text that `+= buffer` appends: the buffer up to its first NUL. */
  function CString(bytes: string): string { bytes[..IndexOf(bytes, '\0')] }

  function Flatten(chunks: seq<string>): string {
    if chunks == [] then "" else Flatten(chunks[..|chunks| - 1]) + chunks[|chunks| - 1]
  }

  /** What a loop has accumulated after these reads. */
  function Received(chunks: seq<string>): string {
    if chunks == [] then "" else Received(chunks[..|chunks| - 1]) + CString(chunks[|chunks| - 1])
  }

  function FirstLine(s: string): Option<string> {
    var i := IndexOf(s, '\n');
    if i == |s| then None else Some(s[..i])
  }

  lemma NoFirstLine(s: string)
    ensures FirstLine(s).None? <==> '\n' !in s
  {
    IndexOfFirst(s, '\n');
  }

  /** Later text does not change the first line. */
  lemma FirstLineStays(s: string, more: string)
    requires '\n' in s
    ensures FirstLine(s + more) == FirstLine(s)
  {
    var i := IndexOf(s, '\n');
    IndexOfFirst(s, '\n');
    assert s + more == s[..i] + ['\n'] + (s[i + 1..] + more);
    IndexOfPrefix(s[..i], '\n', s[i + 1..] + more);
    assert (s + more)[..i] == s[..i];
  }

  lemma {:induction false} ReceivedConcat(a: seq<string>, b: seq<string>)
    ensures Received(a + b) == Received(a) + Received(b)
  {
    hide CString;
    if b == [] {
      assert a + b == a;
    } else {
      var init, last := b[..|b| - 1], b[|b| - 1];
      ReceivedConcat(a, init);
      assert (a + b)[..|a + b| - 1] == a + init;
      assert (a + b)[|a + b| - 1] == last;
    }
  }

  /** One more read, on the side of the specification. */
  lemma ReadOneMore(all: seq<string>, seen: seq<string>, bytes: string, rest: seq<string>)
    requires all == seen + ([bytes] + rest)
    ensures all == seen + [bytes] + rest
    ensures Received(seen + [bytes]) == Received(seen) + CString(bytes)
    ensures '\n' in Received(seen + [bytes]) ==>
      FirstLine(Received(all)) == Some(LineOf(Received(seen + [bytes])))
  {
    hide CString;
    var more := seen + [bytes];
    assert more[..|seen|] == seen;
    assert all == more + rest;
    ReceivedConcat(more, rest);
    if '\n' in Received(more) {
      FirstLineStays(Received(more), Received(rest));
      IndexOfFirst(Received(more), '\n');
    }
  }

  /** The loop of the daemon: the line it dispatches, if any. */
  method ReadRequest(socket: Socket) returns (line: Option<string>)
    requires socket.Valid()
    modifies socket
    ensures line == FirstLine(Received(old(socket.pending)))
  {
    hide CString, FirstLine, Received, LineOf;
    var accumulated := "";
    ghost var seen: seq<string> := [];
    NothingReceived();
    while true
      invariant socket.Valid()
      invariant old(socket.pending) == seen + socket.pending
      invariant accumulated == Received(seen) && '\n' !in accumulated
      decreases |socket.pending|
    {
      ghost var pending := socket.pending;
      var bytes := socket.Read();
      if bytes == "" {
        assert old(socket.pending) == seen;
        NoFirstLine(accumulated);
        return None;
      }
      assert pending == [bytes] + socket.pending;
      ReadOneMore(old(socket.pending), seen, bytes, socket.pending);
      seen := seen + [bytes];
      accumulated := accumulated + CString(bytes);
      IndexOfFirst(accumulated, '\n');
      var newline := IndexOf(accumulated, '\n');
      if newline < |accumulated| {
        return Some(LineOf(accumulated));
      }
    }
  }

  lemma NothingReceived()
    ensures Received([]) == "" && '\n' !in Received([])
  {
  }

  /** What the client takes for the reply: a text that is cut off before its newline is tried as well. */
  function ReplyText(received: string): Option<string> {
    match FirstLine(received)
    case Some(line) => Some(line)
    case None => if received == "" then None else Some(received)
  }

  /** The loop of the client. */
  method ReadReply(socket: Socket) returns (raw: Option<string>)
    requires socket.Valid()
    modifies socket
    ensures raw == ReplyText(Received(old(socket.pending)))
  {
    hide CString, FirstLine, Received, LineOf;
    var responseRaw := "";
    ghost var seen: seq<string> := [];
    NothingReceived();
    while true
      invariant socket.Valid()
      invariant old(socket.pending) == seen + socket.pending
      invariant responseRaw == Received(seen) && '\n' !in responseRaw
      decreases |socket.pending|
    {
      ghost var pending := socket.pending;
      var bytes := socket.Read();
      if bytes == "" {
        assert old(socket.pending) == seen;
        NoFirstLine(responseRaw);
        return if responseRaw != "" then Some(responseRaw) else None;
      }
      assert pending == [bytes] + socket.pending;
      ReadOneMore(old(socket.pending), seen, bytes, socket.pending);
      seen := seen + [bytes];
      responseRaw := responseRaw + CString(bytes);
      IndexOfFirst(responseRaw, '\n');
      var newline := IndexOf(responseRaw, '\n');
      if newline < |responseRaw| {
        return Some(LineOf(responseRaw));
      }
    }
  }

  // ---------------------------------------------------------------- chunking does not matter

  lemma CStringSpec(bytes: string)
    ensures '\0' !in CString(bytes) && CString(bytes) == bytes[..|CString(bytes)|]
    ensures CString(bytes) == bytes <==> '\0' !in bytes
  {
    IndexOfFirst(bytes, '\0');
    assert bytes[..|bytes|] == bytes;
  }

  lemma {:induction false} ReceivedHasNoNul(chunks: seq<string>)
    ensures '\0' !in Received(chunks)
    ensures '\n' !in Flatten(chunks) ==> '\n' !in Received(chunks)
  {
    if chunks != [] {
      ReceivedHasNoNul(chunks[..|chunks| - 1]);
      CStringSpec(chunks[|chunks| - 1]);
    }
  }

  /** If no NUL comes before the newline, the loop sees the true first line, whatever the chunks. */
  lemma {:induction false} FirstLineSurvives(chunks: seq<string>)
    requires '\n' in Flatten(chunks)
    requires '\0' !in LineOf(Flatten(chunks))
    ensures FirstLine(Received(chunks)) == FirstLine(Flatten(chunks))
  {
    var init, last := chunks[..|chunks| - 1], chunks[|chunks| - 1];
    NoFirstLine(Flatten(init));
    if '\n' in Flatten(init) {
      FirstLineStays(Flatten(init), last);
      FirstLineSurvives(init);
      NoFirstLine(Received(init));
      FirstLineStays(Received(init), CString(last));
    } else {
      LineEndsInLast(Flatten(init), last);
      NoNulNoLoss(init);
    }
  }

  /** Chunks without NUL are received as they are. */
  lemma {:induction false} NoNulNoLoss(chunks: seq<string>)
    requires '\0' !in Flatten(chunks)
    ensures Received(chunks) == Flatten(chunks)
  {
    if chunks != [] {
      NoNulNoLoss(chunks[..|chunks| - 1]);
      CStringSpec(chunks[|chunks| - 1]);
    }
  }

  lemma LineEndsInLast(before: string, last: string)
    requires '\n' !in before && '\n' in last
    requires '\0' !in LineOf(before + last)
    ensures '\0' !in before
    ensures FirstLine(before + CString(last)) == FirstLine(before + last)
  {
    hide IndexOf;
    var i := IndexOf(last, '\n');
    IndexOfFirst(last, '\n');
    var head, tail := before + last[..i], last[i + 1..];
    SplitAtNewline(head, tail);
    assert before + last == head + ['\n'] + tail;
    NulBeyond(last, i);
    var c := CString(last);
    SplitAtNewline(head, c[i + 1..]);
    assert before + c == head + ['\n'] + c[i + 1..];
  }

  lemma SplitAtNewline(head: string, tail: string)
    requires '\n' !in head
    ensures FirstLine(head + ['\n'] + tail) == Some(head) && LineOf(head + ['\n'] + tail) == head
  {
    IndexOfPrefix(head, '\n', tail);
    assert (head + ['\n'] + tail)[..|head|] == head;
  }

  /** A NUL that comes later leaves the start of the buffer alone. */
  lemma NulBeyond(bytes: string, i: nat)
    requires i < |bytes| && '\0' !in bytes[..i] && bytes[i] != '\0'
    ensures i < |CString(bytes)| && CString(bytes)[..i + 1] == bytes[..i + 1]
  {
    IndexOfFirst(bytes, '\0');
    assert forall k :: 0 <= k < i ==> bytes[..i][k] == bytes[k] && bytes[k] != '\0';
  }

  /** The loop dispatches exactly the first line of the stream, for every way of cutting it into reads,
      if and only if there is no line to dispatch or no NUL in it. */
  lemma FramingExact(chunks: seq<string>)
    ensures FirstLine(Received(chunks)) == FirstLine(Flatten(chunks))
       <==> '\n' !in Flatten(chunks) || '\0' !in LineOf(Flatten(chunks))
  {
    var stream, got := Flatten(chunks), Received(chunks);
    NoFirstLine(stream);
    NoFirstLine(got);
    ReceivedHasNoNul(chunks);
    LineIsPart(got);
    if '\n' in stream && '\0' !in LineOf(stream) {
      FirstLineSurvives(chunks);
    }
  }

  /** Of a stream without NUL the client takes the first line, or all of it if the line is not ended. */
  lemma ReplyExactly(chunks: seq<string>)
    requires '\0' !in Flatten(chunks)
    ensures var stream := Flatten(chunks);
      ReplyText(Received(chunks))
        == if '\n' in stream then Some(LineOf(stream)) else if stream != "" then Some(stream) else None
  {
    NoNulNoLoss(chunks);
    NoFirstLine(Flatten(chunks));
    LineIsPart(Flatten(chunks));
  }

  /** For one: a NUL before the newline hides the rest of its read, and the line is never dispatched. */
  lemma NulHidesTheLine()
    ensures FirstLine(Flatten(["a\0b\n"])) == Some("a\0b") && FirstLine(Received(["a\0b\n"])) == None
  {
    var chunk := "a\0b\n";
    hide IndexOf;
    assert [chunk][..0] == [];
    assert Flatten([chunk]) == chunk && Received([chunk]) == CString(chunk);
    SplitAtNewline("a\0b", "");
    assert chunk == "a\0b" + ['\n'] + "";
    IndexOfPrefix("a", '\0', "b\n");
    assert chunk == "a" + ['\0'] + "b\n";
    assert CString(chunk) == "a";
    NoFirstLine("a");
  }

  lemma LineIsPart(s: string)
    ensures FirstLine(s).Some? ==> FirstLine(s) == Some(LineOf(s))
    ensures forall c :: c in LineOf(s) ==> c in s
  {
  }

  /** A message arrives as it was sent, at either end, however the stream is cut and whatever follows. */
  lemma Delivered(lib: Library, m: Message, chunks: seq<string>, junk: string)
    requires Conforms(lib) && Flatten(chunks) == Wire(m) + junk
    ensures FirstLine(Received(chunks)) == Some(Encoded(m)) == ReplyText(Received(chunks))
    ensures Decoded(lib, Encoded(m)) == Fine(m)
  {
    hide Encoded, Decoded;
    var line := Encoded(m);
    EncodedIsOneLine(m);
    assert Flatten(chunks) == line + ['\n'] + junk;
    SplitAtNewline(line, junk);
    assert Flatten(chunks)[|line|] == '\n';
    FirstLineSurvives(chunks);
    RoundTrip(lib, m);
  }

  /** What a reader of these chunks takes the message to be. */
  function Heard(lib: Library, chunks: seq<string>): Outcome<Message> {
    match FirstLine(Received(chunks))
    case None => Thrown
    case Some(line) => Decoded(lib, line)
  }

  /** Whoever reads what was sent hears this message, however it is cut and whatever follows. */
  ghost predicate Conveys(lib: Library, sent: string, m: Message) {
    forall chunks, more :: Flatten(chunks) == sent + more ==> Heard(lib, chunks) == Fine(m)
  }

  lemma WireConveys(lib: Library, m: Message)
    requires Conforms(lib)
    ensures Conveys(lib, Wire(m), m)
  {
    hide Wire, Decoded, Received, FirstLine, Encoded, Flatten, Conforms;
    forall chunks, more | Flatten(chunks) == Wire(m) + more ensures Heard(lib, chunks) == Fine(m) {
      Delivered(lib, m, chunks, more);
    }
  }

  // ---------------------------------------------------------------- the client's requests

  /** How far an exchange with the daemon gets before the reply is read. */
  datatype Link = NoSocket | NotConnected | ShortWrite | NoAnswer | Answering

  /** What the client is answered, if anything: a message, or a text on which the decoder throws. */
  function AnswerOn(lib: Library, link: Link, chunks: seq<string>): Option<Outcome<Message>> {
    if !link.Answering? then None
    else match ReplyText(Received(chunks))
         case Some(raw) => Some(Decoded(lib, raw))
         case None => None
  }

  /** A message that the daemon wrote is what the client is answered. */
  lemma AnswerArrives(lib: Library, resp: Message, link: Link, chunks: seq<string>, junk: string)
    requires Conforms(lib) && link.Answering? && Flatten(chunks) == Wire(resp) + junk
    ensures AnswerOn(lib, link, chunks) == Some(Fine(resp))
  {
    hide Wire, Decoded, ReplyText, Received, Flatten, Encoded, Conforms;
    Delivered(lib, resp, chunks, junk);
  }

  method SendRequest(lib: Library, req: Message, link: Link, socket: Socket)
    returns (sent: string, reply: Option<Outcome<Message>>)
    requires socket.Valid()
    modifies socket
    ensures link.Answering? || link.NoAnswer? ==> sent == Wire(req)
    ensures link.NoSocket? || link.NotConnected? ==> sent == ""
    ensures reply == AnswerOn(lib, link, old(socket.pending))
  {
    hide Wire, Decoded, ReplyText;
    sent := "";
    reply := None;
    if link.NoSocket? || link.NotConnected? {
      return;
    }
    sent := Serialize(req);
    if link.ShortWrite? || link.NoAnswer? {
      return;
    }
    var raw := ReadReply(socket);
    if raw.Some? {
      var resp := Deserialize(lib, raw.value);
      reply := Some(resp);
    }
  }

  const NO_DAEMON := "Failed to communicate with miqudm daemon"

  /** `login`: the daemon is sent exactly these credentials and this session, and the caller learns what it
      answered. An exception from the decoder is `Thrown`. */
  method LoginRequest(lib: Library, username: string, password: string, sessionExec: string, desktopName: string,
                      link: Link, socket: Socket)
    returns (ok: Outcome<bool>, error: string, sent: string)
    requires socket.Valid() && Conforms(lib)
    modifies socket
    ensures link.Answering? || link.NoAnswer? ==>
      Conveys(lib, sent, Message(Login, false, "", username, password, sessionExec, desktopName, "", [], []))
    ensures match AnswerOn(lib, link, old(socket.pending))
            case None => ok == Fine(false) && error == NO_DAEMON
            case Some(Thrown) => ok == Thrown
            case Some(Fine(resp)) =>
              && ok == Fine(resp.success)
              && (resp.success ==> error == "")
              && (!resp.success && resp.message != "" ==> error == resp.message)
              && (!resp.success && resp.message == "" ==> error == "Authentication failed")
  {
    hide Wire, Decoded, ReplyText, Conveys, Conforms;
    var req := BLANK_MESSAGE.(kind := Login, username := username, password := password,
                              sessionExec := sessionExec, desktopName := desktopName);
    WireConveys(lib, req);
    var reply;
    sent, reply := SendRequest(lib, req, link, socket);
    if reply.None? {
      return Fine(false), NO_DAEMON, sent;
    }
    if reply.value.Thrown? {
      return Thrown, "", sent;
    }
    var resp := reply.value.value;
    if !resp.success {
      return Fine(false), if resp.message != "" then resp.message else "Authentication failed", sent;
    }
    return Fine(true), "", sent;
  }

  /** `get_sessions`: the daemon is asked for its list, and the caller's list is replaced only by a successful
      answer. */
  method SessionsRequest(lib: Library, had: seq<SessionInfo>, link: Link, socket: Socket)
    returns (ok: Outcome<bool>, sessions: seq<SessionInfo>, sent: string)
    requires socket.Valid() && Conforms(lib)
    modifies socket
    ensures link.Answering? || link.NoAnswer? ==>
      Conveys(lib, sent, Message(GetSessions, false, "", "", "", "", "", "", [], []))
    ensures match AnswerOn(lib, link, old(socket.pending))
            case None => ok == Fine(false) && sessions == had
            case Some(Thrown) => ok == Thrown && sessions == had
            case Some(Fine(resp)) => ok == Fine(resp.success) && sessions == if resp.success then resp.sessions else had
  {
    hide Wire, Decoded, ReplyText, Conveys, Conforms;
    var req := BLANK_MESSAGE.(kind := GetSessions);
    WireConveys(lib, req);
    var reply;
    sent, reply := SendRequest(lib, req, link, socket);
    if reply.None? {
      return Fine(false), had, sent;
    }
    if reply.value.Thrown? {
      return Thrown, had, sent;
    }
    var resp := reply.value.value;
    return Fine(resp.success), if resp.success then resp.sessions else had, sent;
  }
}
