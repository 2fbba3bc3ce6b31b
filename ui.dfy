/**
 * The chat client of ui.py: the history it sends with a question, the
 * reader of the line-delimited answer stream, and the assistant message it
 * appends to the session afterwards.
 */
module ChatUi {
  import opened Wrappers

  datatype Role = User | Assistant

  /** An entry of the session's message list: `{"role": ..., "content": ...}`. */
  datatype Message = Message(role: Role, content: string)

  /** The JSON body posted to the backend's /ask endpoint. */
  datatype Payload = Payload(question: string, messages: seq<Message>)

  /** One line of the response stream, as the reader classifies it. */
  datatype Record =
    | Meta(sources: Option<seq<string>>)  // "type" is "meta"; "sources" may be missing
    | Token(content: Option<string>)      // "type" is "token"; "content" may be missing
    | Other                               // a JSON object of any other (or no) "type"
    | Blank                               // an empty line
    | Malformed                           // a line json.loads rejects

  /** The variables the reading loop updates. */
  datatype StreamState = StreamState(fullResponse: string, sources: seq<string>, firstTokenReceived: bool)

  /** How reading the stream ends: every line read, or a decode error. */
  datatype Decoded = Complete(state: StreamState) | DecodeFailed

  /** The values before the first line is read. */
  const Start := StreamState("", [], false)

  // ---------------------------------------------------------------------
  // The request
  // ---------------------------------------------------------------------

  /** The history sent with a question: every message but the last, each
      copied as its role and content. */
  function HistoryPayload(messages: seq<Message>): (p: seq<Message>)
    ensures |messages| == 0 ==> p == []
    ensures |messages| > 0 ==> p == messages[..|messages| - 1]
  {
    if |messages| == 0 then []
    else seq(|messages| - 1, i requires 0 <= i < |messages| - 1 =>
               Message(messages[i].role, messages[i].content))
  }

  // ---------------------------------------------------------------------
  // The response stream, as a left fold
  // ---------------------------------------------------------------------

  /** What one well-formed line does to the loop's variables. */
  function Step(s: StreamState, r: Record): StreamState {
    match r
    case Meta(sources) => s.(sources := sources.GetOr([]))
    case Token(content) => s.(fullResponse := s.fullResponse + content.GetOr(""), firstTokenReceived := true)
    case _ => s
  }

  /** The outcome of reading `lines` in arrival order: a malformed line ends
      reading with a decode error. */
  function Decode(lines: seq<Record>): Decoded
    decreases |lines|
  {
    if lines == [] then Complete(Start)
    else
      match Decode(lines[..|lines| - 1])
      case DecodeFailed => DecodeFailed
      case Complete(s) =>
        var r := lines[|lines| - 1];
        if r.Malformed? then DecodeFailed else Complete(Step(s, r))
  }

  // ---------------------------------------------------------------------
  // Independent descriptions of what the reader accumulates
  // ---------------------------------------------------------------------

  /** The text a line contributes to the answer: a token's content, "" for a
      token without one, and nothing for any other line. */
  function TextOf(r: Record): string {
    if r.Token? then r.content.GetOr("") else ""
  }

  /** The concatenation, in arrival order, of the text of every line. */
  function Transcript(lines: seq<Record>): string
    decreases |lines|
  {
    if lines == [] then "" else TextOf(lines[0]) + Transcript(lines[1..])
  }

  /** The source list a metadata line carries: [] when it has none. */
  function SourcesOf(r: Record): seq<string>
    requires r.Meta?
  {
    r.sources.GetOr([])
  }

  lemma {:induction false} TranscriptAppend(lines: seq<Record>, r: Record)
    ensures Transcript(lines + [r]) == Transcript(lines) + TextOf(r)
    decreases |lines|
  {
    if lines != [] {
      assert (lines + [r])[1..] == lines[1..] + [r];
      TranscriptAppend(lines[1..], r);
    }
  }

  /** Once a prefix has failed to decode, the whole stream has. */
  lemma {:induction false} DecodeFailurePersists(lines: seq<Record>, k: nat)
    requires k <= |lines|
    requires Decode(lines[..k]).DecodeFailed?
    ensures Decode(lines).DecodeFailed?
    decreases |lines| - k
  {
    if k == |lines| {
      assert lines[..k] == lines;
    } else {
      var prefix := lines[..|lines| - 1];
      assert prefix[..k] == lines[..k];
      DecodeFailurePersists(prefix, k);
    }
  }

  /** Reading fails exactly when some line is malformed. */
  lemma {:induction false} DecodeFailsIff(lines: seq<Record>)
    ensures Decode(lines).DecodeFailed? <==> exists i :: 0 <= i < |lines| && lines[i].Malformed?
    decreases |lines|
  {
    if lines != [] {
      var last := |lines| - 1;
      var prefix := lines[..last];
      DecodeFailsIff(prefix);
      if exists i :: 0 <= i < last && prefix[i].Malformed? {
        var i :| 0 <= i < last && prefix[i].Malformed?;
        assert lines[i] == prefix[i];
      }
      if exists i :: 0 <= i < |lines| && lines[i].Malformed? {
        var i :| 0 <= i < |lines| && lines[i].Malformed?;
        if i < last {
          assert prefix[i].Malformed?;
        }
      }
    }
  }

  /** A fully read stream's answer is the concatenation of every token's
      content in arrival order, and the first-token flag is set exactly
      when some token arrived. */
  lemma {:induction false} DecodedAnswer(lines: seq<Record>)
    requires Decode(lines).Complete?
    ensures Decode(lines).state.fullResponse == Transcript(lines)
    ensures Decode(lines).state.firstTokenReceived <==> exists i :: 0 <= i < |lines| && lines[i].Token?
    decreases |lines|
  {
    if lines != [] {
      var last := |lines| - 1;
      var prefix := lines[..last];
      assert lines == prefix + [lines[last]];
      DecodedAnswer(prefix);
      TranscriptAppend(prefix, lines[last]);
      if exists i :: 0 <= i < last && prefix[i].Token? {
        var i :| 0 <= i < last && prefix[i].Token?;
        assert lines[i] == prefix[i];
      }
      if exists i :: 0 <= i < |lines| && lines[i].Token? {
        var i :| 0 <= i < |lines| && lines[i].Token?;
        if i < last {
          assert prefix[i].Token?;
        }
      }
    }
  }

  /** A fully read stream's sources are those of the last metadata line,
      or [] when that line carries none. */
  lemma {:induction false} DecodedSourcesOfLastMeta(lines: seq<Record>, i: nat)
    requires Decode(lines).Complete?
    requires i < |lines| && lines[i].Meta?
    requires forall j :: i < j < |lines| ==> !lines[j].Meta?
    ensures Decode(lines).state.sources == SourcesOf(lines[i])
    decreases |lines|
  {
    var last := |lines| - 1;
    var prefix := lines[..last];
    if i < last {
      forall j | i < j < |prefix| ensures !prefix[j].Meta? {
        assert prefix[j] == lines[j];
      }
      assert prefix[i] == lines[i];
      DecodedSourcesOfLastMeta(prefix, i);
    }
  }

  /** With no metadata line, a fully read stream's sources stay []. */
  lemma {:induction false} DecodedSourcesWithoutMeta(lines: seq<Record>)
    requires Decode(lines).Complete?
    requires forall i :: 0 <= i < |lines| ==> !lines[i].Meta?
    ensures Decode(lines).state.sources == []
    decreases |lines|
  {
    if lines != [] {
      var prefix := lines[..|lines| - 1];
      forall i | 0 <= i < |prefix| ensures !prefix[i].Meta? {
        assert prefix[i] == lines[i];
      }
      DecodedSourcesWithoutMeta(prefix);
    }
  }

  /** A blank line, or a record of another type, changes nothing wherever it
      occurs in the stream. */
  lemma {:induction false} InertLineIgnored(before: seq<Record>, r: Record, after: seq<Record>)
    requires r.Blank? || r.Other?
    ensures Decode(before + [r] + after) == Decode(before + after)
    decreases |after|
  {
    if after == [] {
      assert (before + [r] + after)[..|before|] == before;
      assert before + after == before;
    } else {
      var rest := after[..|after| - 1];
      var with := before + [r] + after;
      var without := before + after;
      assert with[..|with| - 1] == before + [r] + rest;
      assert without[..|without| - 1] == before + rest;
      assert with[|with| - 1] == without[|without| - 1];
      InertLineIgnored(before, r, rest);
    }
  }

  /** The reading loop of ui.py: skips blank lines, takes the sources of a
      metadata line, appends a token's content to the answer, ignores other
      types, and stops with a decode error at a malformed line. */
  method ReadStream(lines: seq<Record>) returns (d: Decoded)
    ensures d == Decode(lines)
  {
    var fullResponse := "";
    var sources: seq<string> := [];
    var firstTokenReceived := false;
    for i := 0 to |lines|
      invariant Decode(lines[..i]) == Complete(StreamState(fullResponse, sources, firstTokenReceived))
    {
      assert lines[..i + 1][..i] == lines[..i];
      match lines[i]
      case Blank =>
      case Malformed =>
        DecodeFailurePersists(lines, i + 1);
        return DecodeFailed;
      case Meta(metaSources) =>
        sources := metaSources.GetOr([]);
      case Token(content) =>
        if !firstTokenReceived {
          firstTokenReceived := true;
        }
        fullResponse := fullResponse + content.GetOr("");
      case Other =>
    }
    assert lines[..|lines|] == lines;
    d := Complete(StreamState(fullResponse, sources, firstTokenReceived));
  }

  // ---------------------------------------------------------------------
  // The session
  // ---------------------------------------------------------------------

  /** The browser session's `messages` list. */
  class Session {
    var messages: seq<Message>

    /** The first run of the script creates an empty list. */
    constructor ()
      ensures messages == []
    {
      messages := [];
    }

    /** One question. An empty prompt is falsy, so nothing happens and no
        request is made. Otherwise: appends the user's message, posts the
        question with the earlier history, reads the backend's answer
        (`status` and the stream's `lines`) and, only when the status is 200
        and every line decoded, appends one assistant message holding the
        answer. */
    method Ask(prompt: string, status: int, lines: seq<Record>) returns (payload: Option<Payload>)
      modifies this
      ensures prompt == "" ==> payload == None && messages == old(messages)
      ensures prompt != "" ==> payload == Some(Payload(prompt, old(messages)))
      ensures prompt != "" && status == 200 && Decode(lines).Complete? ==>
        messages == old(messages) + [Message(User, prompt), Message(Assistant, Decode(lines).state.fullResponse)]
      ensures prompt != "" && !(status == 200 && Decode(lines).Complete?) ==>
        messages == old(messages) + [Message(User, prompt)]
    {
      if prompt == "" {
        return None;
      }
      messages := messages + [Message(User, prompt)];
      var history := HistoryPayload(messages);
      assert history == old(messages);
      payload := Some(Payload(prompt, history));
      if status == 200 {
        var d := ReadStream(lines);
        if d.Complete? {
          messages := messages + [Message(Assistant, d.state.fullResponse)];
        }
      }
    }
  }
}
