/** The conversation of one call and the plain-text protocol mailed when the
    call ends (`formatConversationLog`, server/server.js). */
module ConversationLog {
  import opened JsText
  import opened Seqs

  datatype Role = System | User | Assistant

  /** One chat message as the session keeps it and the chat model reads it. */
  datatype Message = Message(role: Role, content: string)

  /** Messages that reach the protocol: everything but system entries. */
  predicate IsSpoken(m: Message) {
    !m.role.System?
  }

  /** The protocol line of a spoken message: the caller is "Kunde", every
      other speaker "KI". */
  function Line(m: Message): string {
    (if m.role.User? then "Kunde: " else "KI: ") + m.content
  }

  /** The protocol lines of a conversation, one per spoken message, in order. */
  function Lines(ms: seq<Message>): (ls: seq<string>)
    ensures |ls| <= |ms|
  {
    if |ms| == 0 then []
    else
      var front := Lines(ms[..|ms| - 1]);
      var m := ms[|ms| - 1];
      if IsSpoken(m) then front + [Line(m)] else front
  }

  function Header(topTopic: string): string {
    "Thema: " + topTopic
  }

  /** `formatConversationLog(messages, topTopic)`: a header line naming the
      topic, then the protocol lines separated by line feeds. */
  function FormatConversationLog(ms: seq<Message>, topTopic: string): (log: string)
    ensures |Header(topTopic)| < |log|
    ensures log[..|Header(topTopic)| + 1] == Header(topTopic) + "\n"
  {
    Header(topTopic) + "\n" + Join(Lines(ms), "\n")
  }

  lemma LinesSnoc(ms: seq<Message>, m: Message)
    ensures Lines(ms + [m]) == Lines(ms) + (if IsSpoken(m) then [Line(m)] else [])
  {
    assert (ms + [m])[..|ms|] == ms;
  }

  /** The protocol lines are the spoken messages, filtered in order and each
      rendered by `Line`. */
  lemma {:induction false} LinesAreFiltered(ms: seq<Message>)
    ensures var spoken := Filter(ms, IsSpoken);
      |Lines(ms)| == |spoken| &&
      forall i :: 0 <= i < |spoken| ==> Lines(ms)[i] == Line(spoken[i])
  {
    if |ms| > 0 {
      var front, m := ms[..|ms| - 1], ms[|ms| - 1];
      LinesAreFiltered(front);
      assert ms == front + [m];
      LinesSnoc(front, m);
      FilterSnoc(front, m, IsSpoken);
      if IsSpoken(m) {
        LinesSpokenStep(Lines(front), Filter(front, IsSpoken), m);
      }
    }
  }

  lemma LinesSpokenStep(ls: seq<string>, spoken: seq<Message>, m: Message)
    requires |ls| == |spoken| && forall i :: 0 <= i < |spoken| ==> ls[i] == Line(spoken[i])
    ensures var ls', spoken' := ls + [Line(m)], spoken + [m];
      |ls'| == |spoken'| && forall i :: 0 <= i < |spoken'| ==> ls'[i] == Line(spoken'[i])
  {
  }

  /** A system entry, such as a `Thema:` annotation, never shows in the protocol. */
  lemma LogIgnoresSystem(ms: seq<Message>, topTopic: string, content: string)
    ensures FormatConversationLog(ms + [Message(System, content)], topTopic)
         == FormatConversationLog(ms, topTopic)
  {
    LinesSnoc(ms, Message(System, content));
  }

  /** A spoken message adds its line at the end of the protocol, after a line
      feed unless it is the first line. */
  lemma LogAppend(ms: seq<Message>, topTopic: string, m: Message)
    requires IsSpoken(m)
    ensures FormatConversationLog(ms + [m], topTopic)
         == FormatConversationLog(ms, topTopic) + (if |Lines(ms)| == 0 then "" else "\n") + Line(m)
  {
    LinesSnoc(ms, m);
    var ls := Lines(ms);
    if |ls| > 0 {
      assert (ls + [Line(m)])[..|ls|] == ls;
    }
  }

  /** No line feed in the topic or in any message. */
  predicate SingleLine(ms: seq<Message>, topTopic: string) {
    && '\n' !in topTopic
    && forall i :: 0 <= i < |ms| ==> '\n' !in ms[i].content
  }

  lemma {:induction false} LinesSingleLine(ms: seq<Message>, topTopic: string)
    requires SingleLine(ms, topTopic)
    ensures forall k :: 0 <= k < |Lines(ms)| ==> '\n' !in Lines(ms)[k]
  {
    if |ms| > 0 {
      var front, m := ms[..|ms| - 1], ms[|ms| - 1];
      assert SingleLine(front, topTopic) by {
        forall i | 0 <= i < |front| ensures '\n' !in front[i].content {
          assert front[i] == ms[i];
        }
      }
      LinesSingleLine(front, topTopic);
      assert '\n' !in Line(m);
    }
  }

  /** Splitting a protocol at its line feeds gives back the header and the
      protocol lines, provided no text in it holds a line feed; a call with
      no spoken message leaves one empty line after the header. */
  lemma LogSplit(ms: seq<Message>, topTopic: string)
    requires SingleLine(ms, topTopic)
    ensures Split(FormatConversationLog(ms, topTopic), '\n')
         == [Header(topTopic)] + (if |Lines(ms)| == 0 then [""] else Lines(ms))
  {
    var h, ls := Header(topTopic), Lines(ms);
    assert '\n' !in h;
    assert FormatConversationLog(ms, topTopic) == h + ['\n'] + Join(ls, "\n");
    SplitConcat(h, '\n', Join(ls, "\n"));
    SplitPlain(h, '\n');
    if |ls| > 0 {
      LinesSingleLine(ms, topTopic);
      SplitJoin(ls, '\n');
    }
  }
}
