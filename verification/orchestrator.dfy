/** The call-session orchestrator of server/server.js: the session store
    `conversations`, the archive `callRecords`, and the webhooks `/voice`,
    `/gather` and `/transcribe` together with `/api/calls` and `/status`,
    each a pure transition from a state and a request to a new state, a
    response and the external effects the request caused. Whatever the
    handlers learn from outside — the clock, the classifier, the chat model
    and the transcription service — arrives as an `Oracle` value. */
module Orchestrator {
  import opened Wrappers
  import Seqs
  import opened JsText
  import opened ConversationLog
  import opened TopicVote
  import opened CallArchive

  const SystemPrompt := "Du bist ein freundlicher Kundendienst für Mein Unternehmen. "
    + "Antworte immer auf Deutsch, nutze deutsches 24-Stunden-Format und bleibe kurz und hilfreich."
  const RecordingNotice := "Dieses Gespräch wird aufgezeichnet und verarbeitet. Ihre Daten werden vertraulich behandelt."
  const Instructions := "Bitte stellen Sie Ihre Frage nach dem Signalton. Sagen Sie Auf Wiederhören, um das Gespräch zu beenden."
  const InternalError := "Interner Fehler. Auf Wiederhören!"
  const Goodbye := "Auf Wiederhören und einen schönen Tag!"
  const NotUnderstood := "Entschuldigung, ich habe Sie nicht verstanden. Bitte erneut."
  const Unavailable := "Unsere KI ist gerade nicht erreichbar."
  const StatusText := "✅ Anrufbeantworter aktiv und bereit"
  /** The phrase that ends a call, matched without regard to case. */
  const Farewell := "auf wiederhören"

  /** An ongoing call: its chat history, one topic per caller turn, when it
      started and who called. */
  datatype Session = Session(messages: seq<Message>, topics: seq<string>, startTime: int, caller: string)

  datatype State = State(conversations: map<string, Session>, callRecords: seq<CallRecord>)

  const Initial := State(map[], [])

  datatype Request =
    | Voice(callSid: string, from: string)
    | Gather(callSid: string, speechResult: Option<string>)
    | Transcribe(callSid: string)
    | ApiCalls(days: Option<string>)
    | Status

  /** What the outside world answers while one request is handled: the
      current time, the classifier's answer, the chat model's answer and the
      transcription of the recording; None stands for a failed call. */
  datatype Oracle = Oracle(now: int, classification: Option<string>, reply: Option<string>, transcription: Option<string>)

  /** The answer to a request: for the telephony webhooks, what is spoken
      and what happens next; for the queries, the response body. */
  datatype Response =
    | SayAndGather(say: seq<string>)
    | SayAndRecord(say: seq<string>)
    | SayAndHangup(say: seq<string>)
    | Hangup
    | Calls(records: seq<CallRecord>)
    | Text(body: string)

  datatype Mail = Mail(subject: string, text: string)

  /** The external calls a request makes: the prompt sent to the classifier,
      the history handed to the chat model, the protocol mailed out. */
  datatype Effects = Effects(classified: Option<Prompt>, asked: Option<seq<Message>>, mail: Option<Mail>)

  const NoEffects := Effects(None, None, None)

  datatype Outcome = Outcome(state: State, response: Response, effects: Effects)

  /** The session `/voice` opens: the system prompt alone, no topic yet. */
  function NewSession(now: int, from: string): Session {
    Session([Message(System, SystemPrompt)], [], now, from)
  }

  predicate IsFarewell(transcript: string) {
    ContainsIgnoringCase(transcript, Farewell)
  }

  /** `(req.body.SpeechResult || '').trim()`. */
  function Transcript(speechResult: Option<string>): string {
    Trim(speechResult.GetOr(""))
  }

  /** The system entry recording the topic of one turn. */
  function Annotation(topic: string): Message {
    Message(System, Header(topic))
  }

  /** The mail sent when a call ends. */
  function Protocol(callSid: string, topic: string, messages: seq<Message>): Mail {
    Mail("Anrufprotokoll " + callSid + " – Thema: " + topic, FormatConversationLog(messages, topic))
  }

  /** The archive record of a call ending at `now`. */
  function Record(callSid: string, c: Session, now: int, topic: string): CallRecord {
    CallRecord(callSid, c.caller, c.startTime, RoundMinutes(now - c.startTime), topic)
  }

  /** `POST /voice`: open (or reopen) the session, greet the caller and listen. */
  function HandleVoice(s: State, callSid: string, from: string, now: int): (out: Outcome)
    ensures callSid in out.state.conversations
    ensures out.state.conversations[callSid].messages == [Message(System, SystemPrompt)]
    ensures out.state.conversations[callSid].topics == []
    ensures out.state.conversations[callSid].startTime == now && out.state.conversations[callSid].caller == from
    ensures forall k :: k != callSid ==>
      (k in out.state.conversations <==> k in s.conversations) &&
      (k in s.conversations ==> out.state.conversations[k] == s.conversations[k])
    ensures out.state.callRecords == s.callRecords
    ensures out.response == SayAndGather([RecordingNotice, Instructions]) && out.effects == NoEffects
  {
    Outcome(s.(conversations := s.conversations[callSid := NewSession(now, from)]),
            SayAndGather([RecordingNotice, Instructions]), NoEffects)
  }

  /** `POST /gather`: record the caller's utterance and its topic, then end
      the call on the farewell phrase, ask for a recording when fewer than
      two words were understood, or answer with the chat model's reply. */
  function HandleGather(s: State, callSid: string, speechResult: Option<string>, o: Oracle): (out: Outcome)
    // An unknown call is refused and nothing changes.
    ensures callSid !in s.conversations ==>
      out.state == s && out.response == SayAndHangup([InternalError]) && out.effects == NoEffects
    // A known call always has its utterance classified, and exactly one of
    // three answers is chosen.
    ensures callSid in s.conversations ==>
      var t := Transcript(speechResult);
      && out.effects.classified == Some(ClassifierPrompt(t))
      && (out.response.SayAndHangup? <==> IsFarewell(t))
      && (out.response.SayAndRecord? <==> !IsFarewell(t) && NoWhitespace(t))
      && (out.response.SayAndGather? <==> !IsFarewell(t) && !NoWhitespace(t))
      && (out.effects.asked.Some? <==> out.response.SayAndGather?)
      && (out.effects.mail.Some? <==> out.response.SayAndHangup?)
    // Ending: the session goes and exactly one record, voted over every
    // topic of the call, is archived.
    ensures callSid in s.conversations && IsFarewell(Transcript(speechResult)) ==>
      var c, t := s.conversations[callSid], Transcript(speechResult);
      var topics := c.topics + [Classify(o.classification)];
      var heard := c.messages + [Message(User, t), Annotation(Classify(o.classification))];
      && out.state.conversations == s.conversations - {callSid}
      && out.state.callRecords == s.callRecords + [Record(callSid, c, o.now, MostFrequent(topics))]
      && out.effects.mail == Some(Protocol(callSid, MostFrequent(topics), heard))
      && out.response == SayAndHangup([Goodbye])
    // Continuing: the archive stays, the session keeps its start and caller,
    // gains one topic, the utterance and its annotation, and the reply only
    // when the chat model answered.
    ensures callSid in s.conversations && !IsFarewell(Transcript(speechResult)) ==>
      var c, t := s.conversations[callSid], Transcript(speechResult);
      var heard := c.messages + [Message(User, t), Annotation(Classify(o.classification))];
      && out.state.callRecords == s.callRecords
      && callSid in out.state.conversations
      && out.state.conversations == s.conversations[callSid := out.state.conversations[callSid]]
      && var c' := out.state.conversations[callSid];
      && c'.startTime == c.startTime && c'.caller == c.caller
      && c'.topics == c.topics + [Classify(o.classification)]
      && (out.response.SayAndRecord? ==> c'.messages == heard && out.response.say == [NotUnderstood])
      && (out.response.SayAndGather? ==>
            out.effects.asked == Some(heard) &&
            match o.reply
            case Some(r) => c'.messages == heard + [Message(Assistant, Trim(r))] && out.response.say == [Trim(r)]
            case None => c'.messages == heard && out.response.say == [Unavailable])
  {
    if callSid !in s.conversations then
      Outcome(s, SayAndHangup([InternalError]), NoEffects)
    else
      var c := s.conversations[callSid];
      var t := Transcript(speechResult);
      var topic := Classify(o.classification);
      var heard := c.messages + [Message(User, t), Annotation(topic)];
      var topics := c.topics + [topic];
      if IsFarewell(t) then
        var top := MostFrequent(topics);
        Outcome(State(s.conversations - {callSid}, s.callRecords + [Record(callSid, c, o.now, top)]),
                SayAndHangup([Goodbye]),
                Effects(Some(ClassifierPrompt(t)), None, Some(Protocol(callSid, top, heard))))
      else if |SplitWhitespace(t)| < 2 then
        Outcome(s.(conversations := s.conversations[callSid := c.(messages := heard, topics := topics)]),
                SayAndRecord([NotUnderstood]),
                Effects(Some(ClassifierPrompt(t)), None, None))
      else
        var reply := if o.reply.Some? then Trim(o.reply.value) else Unavailable;
        var kept := heard + (if o.reply.Some? then [Message(Assistant, reply)] else []);
        Outcome(s.(conversations := s.conversations[callSid := c.(messages := kept, topics := topics)]),
                SayAndGather([reply]),
                Effects(Some(ClassifierPrompt(t)), Some(heard), None))
  }

  /** `POST /transcribe`: take the transcription of the fallback recording
      as the caller's utterance, classify it, speak the chat model's reply
      and end the call, archiving it under this turn's topic. */
  function HandleTranscribe(s: State, callSid: string, o: Oracle): (out: Outcome)
    ensures callSid !in s.conversations ==> out == Outcome(s, Hangup, NoEffects)
    // A known call always ends here: the session goes, one record is
    // archived, and no further recording is asked for.
    ensures callSid in s.conversations ==>
      var c, topic := s.conversations[callSid], Classify(o.classification);
      && out.response.SayAndHangup?
      && out.state.conversations == s.conversations - {callSid}
      && out.state.callRecords == s.callRecords + [Record(callSid, c, o.now, topic)]
    // A failed transcription adds no utterance, yet the empty text is still
    // classified and its topic annotated.
    ensures callSid in s.conversations ==>
      var c, topic := s.conversations[callSid], Classify(o.classification);
      var logged := c.messages
        + (if o.transcription.Some? then [Message(User, o.transcription.value)] else [])
        + [Annotation(topic)];
      && out.effects.classified == Some(ClassifierPrompt(o.transcription.GetOr("")))
      && out.effects.asked == Some(logged)
      && out.effects.mail == Some(Protocol(callSid, topic, logged))
      && out.response.say == [if o.reply.Some? then Trim(o.reply.value) else Unavailable]
  {
    if callSid !in s.conversations then
      Outcome(s, Hangup, NoEffects)
    else
      var c := s.conversations[callSid];
      var t := o.transcription.GetOr("");
      var spoken := c.messages + (if o.transcription.Some? then [Message(User, t)] else []);
      var topic := Classify(o.classification);
      var logged := spoken + [Annotation(topic)];
      var reply := if o.reply.Some? then Trim(o.reply.value) else Unavailable;
      Outcome(State(s.conversations - {callSid}, s.callRecords + [Record(callSid, c, o.now, topic)]),
              SayAndHangup([reply]),
              Effects(Some(ClassifierPrompt(t)), Some(logged), Some(Protocol(callSid, topic, logged))))
  }

  /** Route one request to its handler. The two queries answer without
      changing anything: `/api/calls` with part of the archive in archive
      order, `/status` with the fixed status line. A webhook for an unknown
      call leaves the state as it is. */
  function Step(s: State, req: Request, o: Oracle): (out: Outcome)
    ensures req.ApiCalls? || req.Status? ==> out.state == s && out.effects == NoEffects
    ensures req.ApiCalls? ==> out.response.Calls? && Seqs.IsSubsequence(out.response.records, s.callRecords)
    ensures req.Status? ==> out.response == Text(StatusText)
    ensures (req.Gather? || req.Transcribe?) && req.callSid !in s.conversations ==> out.state == s
  {
    match req
    case Voice(sid, from) => HandleVoice(s, sid, from, o.now)
    case Gather(sid, speech) => HandleGather(s, sid, speech, o)
    case Transcribe(sid) => HandleTranscribe(s, sid, o)
    case ApiCalls(days) => Outcome(s, Calls(CallArchive.ApiCalls(s.callRecords, days, o.now)), NoEffects)
    case Status => Outcome(s, Text(StatusText), NoEffects)
  }

  /** The archive only grows, by at most one record per request, and it
      grows exactly when a session ends, under that session's id. */
  lemma StepArchive(s: State, req: Request, o: Oracle)
    ensures var s' := Step(s, req, o).state;
      && |s.callRecords| <= |s'.callRecords| <= |s.callRecords| + 1
      && s'.callRecords[..|s.callRecords|] == s.callRecords
      && (|s'.callRecords| == |s.callRecords| + 1 <==> s'.conversations.Keys < s.conversations.Keys)
      && (|s'.callRecords| == |s.callRecords| + 1 ==>
            var id := s'.callRecords[|s.callRecords|].id;
            id in s.conversations && s'.conversations == s.conversations - {id})
  {
    var s' := Step(s, req, o).state;
    match req
    case Voice(sid, from) =>
      assert sid in s'.conversations.Keys;
    case Gather(sid, speech) =>
      if sid in s.conversations && !IsFarewell(Transcript(speech)) {
        assert s'.conversations.Keys == s.conversations.Keys;
      }
    case Transcribe(sid) =>
    case ApiCalls(_) =>
    case Status =>
  }

  /** A caller who says goodbye in the first turn: `/voice` then `/gather`
      leave no session behind and archive one record for the call, with the
      caller, the start, the rounded duration and that turn's topic. */
  lemma GoodbyeOnFirstTurn(s: State, callSid: string, from: string, speech: string, o1: Oracle, o2: Oracle)
    requires IsFarewell(Trim(speech))
    ensures var s1 := HandleVoice(s, callSid, from, o1.now).state;
      var out := HandleGather(s1, callSid, Some(speech), o2);
      var topic := Classify(o2.classification);
      && callSid !in out.state.conversations
      && out.state.callRecords == s.callRecords + [CallRecord(callSid, from, o1.now,
           RoundMinutes(o2.now - o1.now), if topic == "" then DefaultTopic else topic)]
      && out.response == SayAndHangup([Goodbye])
  {
    var s1 := HandleVoice(s, callSid, from, o1.now).state;
    var c, topic := s1.conversations[callSid], Classify(o2.classification);
    assert c == NewSession(o1.now, from);
    assert c.topics + [topic] == [topic];
    MostFrequentSingle(topic);
    assert Record(callSid, c, o2.now, MostFrequent([topic]))
        == CallRecord(callSid, from, o1.now, RoundMinutes(o2.now - o1.now), if topic == "" then DefaultTopic else topic);
  }

  /** The state after handling `events` one after the other. */
  function Run(s: State, events: seq<(Request, Oracle)>): State {
    if |events| == 0 then s
    else
      var (req, o) := events[|events| - 1];
      Step(Run(s, events[..|events| - 1]), req, o).state
  }

  /** The annotations among `ms`, in order. */
  function Annotations(ms: seq<Message>): seq<string> {
    if |ms| == 0 then []
    else Annotations(ms[..|ms| - 1]) + (if ms[|ms| - 1].role.System? then [ms[|ms| - 1].content] else [])
  }

  /** The annotation line of every topic, in order. */
  function Themes(topics: seq<string>): (hs: seq<string>)
    ensures |hs| == |topics|
    ensures forall i :: 0 <= i < |topics| ==> hs[i] == Header(topics[i])
  {
    seq(|topics|, i requires 0 <= i < |topics| => Header(topics[i]))
  }

  /** A session's history opens with the system prompt, and every later
      system entry is the annotation of one of its topics, in turn order. */
  predicate SessionValid(c: Session) {
    && |c.messages| >= 1
    && c.messages[0] == Message(System, SystemPrompt)
    && Annotations(c.messages[1..]) == Themes(c.topics)
  }

  predicate Valid(s: State) {
    forall sid :: sid in s.conversations ==> SessionValid(s.conversations[sid])
  }

  lemma {:induction false} AnnotationsAppend(ms: seq<Message>, extra: seq<Message>)
    ensures Annotations(ms + extra) == Annotations(ms) + Annotations(extra)
    decreases |extra|
  {
    if |extra| == 0 {
      assert ms + extra == ms;
    } else {
      var front, m := extra[..|extra| - 1], extra[|extra| - 1];
      var last := if m.role.System? then [m.content] else [];
      assert (ms + extra)[..|ms + extra| - 1] == ms + front;
      assert (ms + extra)[|ms + extra| - 1] == m;
      AnnotationsAppend(ms, front);
      calc {
        Annotations(ms + extra);
        Annotations(ms + front) + last;
        Annotations(ms) + Annotations(front) + last;
        Annotations(ms) + (Annotations(front) + last);
      }
    }
  }

  /** The utterance of a turn is not an annotation; the topic entry is. */
  lemma AnnotationsOfTurn(t: string, topic: string)
    ensures Annotations([Message(User, t), Annotation(topic)]) == [Header(topic)]
  {
    var turn := [Message(User, t), Annotation(topic)];
    assert Annotations([Message(User, t)]) == [] by {
      assert [Message(User, t)][..0] == [];
    }
    assert turn[..1] == [Message(User, t)];
  }

  /** One caller turn (utterance, annotation, and possibly an assistant
      reply) keeps a session valid. */
  lemma TurnKeepsSessionValid(c: Session, t: string, topic: string, reply: seq<Message>)
    requires SessionValid(c)
    requires forall i :: 0 <= i < |reply| ==> reply[i].role == Assistant
    ensures SessionValid(c.(messages := c.messages + [Message(User, t), Annotation(topic)] + reply,
                            topics := c.topics + [topic]))
  {
    var turn := [Message(User, t), Annotation(topic)];
    var ms := c.messages + turn + reply;
    assert ms[1..] == c.messages[1..] + (turn + reply);
    AnnotationsAppend(c.messages[1..], turn + reply);
    AnnotationsAppend(turn, reply);
    NoSystemNoAnnotations(reply);
    AnnotationsOfTurn(t, topic);
    assert turn + reply == turn + reply;
    assert Themes(c.topics + [topic]) == Themes(c.topics) + [Header(topic)];
  }

  lemma {:induction false} NoSystemNoAnnotations(ms: seq<Message>)
    requires forall i :: 0 <= i < |ms| ==> !ms[i].role.System?
    ensures Annotations(ms) == []
  {
    if |ms| > 0 {
      NoSystemNoAnnotations(ms[..|ms| - 1]);
    }
  }

  /** A gather turn keeps every session valid. */
  lemma GatherKeepsValid(s: State, sid: string, speech: Option<string>, o: Oracle)
    requires Valid(s)
    ensures Valid(HandleGather(s, sid, speech, o).state)
  {
    var s' := HandleGather(s, sid, speech, o).state;
    if sid in s.conversations && sid in s'.conversations {
      var c := s.conversations[sid];
      var t := Transcript(speech);
      var topic := Classify(o.classification);
      var reply: seq<Message> := if !IsFarewell(t) && |SplitWhitespace(t)| >= 2 && o.reply.Some?
        then [Message(Assistant, Trim(o.reply.value))] else [];
      TurnKeepsSessionValid(c, t, topic, reply);
      assert s'.conversations[sid].messages == c.messages + [Message(User, t), Annotation(topic)] + reply;
    }
  }

  /** Every request keeps every session valid: in particular the first
      message of a session stays the system prompt for as long as it lives. */
  lemma StepKeepsValid(s: State, req: Request, o: Oracle)
    requires Valid(s)
    ensures Valid(Step(s, req, o).state)
  {
    match req
    case Voice(sid, from) =>
      assert Annotations([]) == [];
      assert SessionValid(NewSession(o.now, from));
    case Gather(sid, speech) =>
      GatherKeepsValid(s, sid, speech, o);
    case Transcribe(sid) =>
    case ApiCalls(_) =>
    case Status =>
  }

  /** Any sequence of requests keeps every session valid. */
  lemma {:induction false} RunKeepsValid(s: State, events: seq<(Request, Oracle)>)
    requires Valid(s)
    ensures Valid(Run(s, events))
  {
    if |events| > 0 {
      RunKeepsValid(s, events[..|events| - 1]);
      StepKeepsValid(Run(s, events[..|events| - 1]), events[|events| - 1].0, events[|events| - 1].1);
    }
  }

  /** The archive is append-only across any sequence of requests, and grows
      by at most one record per request. */
  lemma {:induction false} RunAppendsOnly(s: State, events: seq<(Request, Oracle)>)
    ensures |s.callRecords| <= |Run(s, events).callRecords| <= |s.callRecords| + |events|
    ensures Run(s, events).callRecords[..|s.callRecords|] == s.callRecords
  {
    if |events| > 0 {
      var before := Run(s, events[..|events| - 1]);
      RunAppendsOnly(s, events[..|events| - 1]);
      var after := Run(s, events);
      StepArchive(before, events[|events| - 1].0, events[|events| - 1].1);
      assert after.callRecords[..|before.callRecords|] == before.callRecords;
      assert after.callRecords[..|s.callRecords|] == before.callRecords[..|s.callRecords|];
    }
  }
}
