# AI telephone answering service — a Dafny model

The system answers phone calls. The telephony provider posts one webhook per
turn:
- `/voice` opens a session for the call and greets the caller.
- `/gather` receives the recognised speech. It classifies the utterance into a topic and then does one of three things: answers it with a chat model; asks the caller to repeat it as a recording when the recognition is too short; or, on "Auf Wiederhören", closes the call.
- `/transcribe` receives such a recording. It transcribes it, answers, and closes the call.

A closed call is archived as a record `{id, caller, time, duration, topic}`,
and a protocol mail goes out. `/api/calls` serves the records of the last few
days. A dashboard groups them by hour, by duration and by topic, and prints
durations as `mm:ss`.

The model is pure Dafny. Each webhook is a function from the server state and the
request to the next state, a response and the side effects it requests. Whatever
the server asks of the outside world becomes a value in an `Oracle` argument:
- the clock;
- the topic classifier's answer;
- the chat model's answer;
- the speech transcription.

A `None` there stands for the call that threw.

| file | module | models |
|---|---|---|
| `wrappers.dfy` | `Wrappers` | `Option` |
| `js_text.dfy` | `JsText` | JavaScript `trim`, `trimStart`, `padStart`, `join`, `split(sep)`, `split(/\s+/)`, and case-insensitive `/phrase/i.test` |
| `decimal.dfy` | `Decimal` | `Number#toString` on integers and `parseInt` (white space, sign, `0x`, NaN) |
| `seqs.dfy` | `Seqs` | `Array#filter`, subsequences, first occurrences |
| `js_object.dfy` | `JsObject` | a plain object used as a dictionary. Property order puts array-index keys first, ascending, then the other keys in creation order. It also models the `acc[k] = f(acc[k], x)` fold and `Object.entries` |
| `conversation_log.dfy` | `ConversationLog` | `formatConversationLog` |
| `topic_vote.dfy` | `TopicVote` | `getTopicFromGPT` over its oracle answer, and `mostFrequent` |
| `call_archive.dfy` | `CallArchive` | call records, minute rounding, the `/api/calls` lookback filter |
| `orchestrator.dfy` | `Orchestrator` | the session map and archive, the webhooks, request dispatch, runs of requests, the session invariant |
| `charts.dfy` | `Charts` | `getByHour`, `getByDuration`, `getByTopic` |
| `call_list.dfy` | `CallList` | `formatDuration` |

Where the code and the system's design description differ, the model follows
the code:
- The `Thema: …` annotations that `/gather` and `/transcribe` add to the conversation carry the role `system`. So `formatConversationLog` drops them, and a protocol mail contains no per-turn topics.
- When the chat model fails in `/gather`, the fallback sentence is spoken but not added to the conversation.
- `/transcribe` archives and mails the topic of the recorded turn itself, not the most frequent topic of the call.
- `/api/calls?days=d` keeps the records from `d - 1` days before now onwards. So `days=1` means "not older than now", not "the last 24 hours".
- `mostFrequent` breaks ties by the order of `Object.entries`. A label that is an array index, such as `"7"`, comes first whatever its position.

## Model

| member | source | states |
|---|---|---|
| ConversationLog.FormatConversationLog | server/server.js:58-64 | the protocol starts with the line `Thema: <topic>` followed by a newline |
| ConversationLog.LinesAreFiltered | server/server.js:60-62 | the log has one line per non-system message, in order, each being `Kunde: ` or `KI: ` plus that message's content |
| ConversationLog.LogIgnoresSystem | server/server.js:61 | adding a system message to the conversation leaves the protocol unchanged |
| ConversationLog.LogAppend | server/server.js:59-63 | adding a user or assistant message extends the protocol by exactly one line, separated by a newline unless it is the first |
| ConversationLog.LogSplit | server/server.js:58-64 | when no content holds a newline, splitting the protocol at newlines gives back the header and then the message lines (one empty line when there are none) |
| TopicVote.Classify | server/server.js:67-80 | a failed classifier call yields `Allgemeine Anfrage`; otherwise the topic has no white space at either end and is no longer than the answer (JsText.Trim states which slice it is) |
| TopicVote.PromptQuotesTranscript | server/server.js:68 | the classifier prompt ends with the transcript in double quotes, so distinct transcripts give distinct prompts |
| TopicVote.MostFrequent | server/server.js:83-89 | the vote returns either `Allgemeine Anfrage` or a non-empty label that occurs in the input |
| TopicVote.TalliesCount | server/server.js:84-87 | the counting object maps each label to the number of its occurrences, and holds no other key |
| TopicVote.MostFrequentIsMajority | server/server.js:83-89 | no labels give `Allgemeine Anfrage`; any other result is a label no other label outnumbers; when a non-empty list gives `Allgemeine Anfrage`, that label or the empty label is among the most frequent |
| TopicVote.MostFrequentFirstSeen | server/server.js:83-89 | when no label is an array index, the result is the earliest label that no label outnumbers (the default topic when that label is empty) |
| TopicVote.MostFrequentSingle | server/server.js:83-89 | a call with one turn is archived under that turn's topic (the default one if it is empty) |
| TopicVoteExamples.IndexLabelWinsTie | server/server.js:84-88 | the label `"7"` wins a tie against `"Support"` even though `"Support"` was seen first |
| TopicVoteExamples.TieGoesToFirst | server/server.js:84-88 | with equal counts, `Verkauf` seen first beats `Support` |
| CallArchive.RoundMinutes | server/server.js:150 | the duration is the whole number of minutes nearest the elapsed milliseconds, with halves rounded up |
| CallArchive.RoundMinutesUnique | server/server.js:150 | no other whole number of minutes is that close |
| CallArchive.Days | server/server.js:93 | the lookback is never zero days |
| CallArchive.DaysMissing | server/server.js:93 | without a `days` parameter the lookback is one day |
| CallArchive.DaysZero | server/server.js:93 | `days=0` also means one day |
| CallArchive.DaysOfNumeral | server/server.js:93 | any other integer a double holds exactly (magnitude at most 2^53), written out, is taken as it stands, negative ones included |
| CallArchive.DaysOfNonNumeric | server/server.js:93 | a parameter that, after leading white space, starts with neither a sign nor a digit means one day |
| CallArchive.Recent | server/server.js:96 | keeps, in archive order and with every copy, exactly the records that started at or after the cutoff |
| CallArchive.Cutoff | server/server.js:94-95 | the cutoff lies `days - 1` whole days before now and within the range of a Date (100,000,000 days from the epoch); outside that range there is no valid cutoff |
| CallArchive.Window | server/server.js:94-96 | the records kept are a subsequence of the archive: exactly those starting at or after a valid cutoff, and none when the cutoff is an invalid Date |
| CallArchive.ApiCalls | server/server.js:92-98 | the answer is a subsequence of the archive. It holds exactly the records that started no earlier than `days - 1` days before now, and is empty when that instant is outside the Date range |
| CallArchive.WindowMonotone | server/server.js:93-96 | when the longer window starts inside the Date range, the answer for fewer days is a subsequence of the answer for more days |
| CallArchive.FarLookbackIsEmpty | server/server.js:94-96 | from a valid instant, a lookback of more than 200,000,001 days either way gives no records |
| CallArchive.FarNumeralIsEmpty | server/server.js:93-96 | any `days` numeral that far out gives no records. This does not depend on how `parseInt` rounds it, so it covers numerals a double cannot hold exactly |
| Orchestrator.HandleVoice | server/server.js:103-127 | a new call gets a fresh session (system prompt only, no topics, start time now, the caller), every other session and the archive stay, and the caller hears the recording notice and the instructions before speech is gathered |
| Orchestrator.HandleGather | server/server.js:130-187 | an unknown call hears the internal-error line and is hung up with nothing changed. Otherwise the utterance is classified, and exactly one of three things happens. On "Auf Wiederhören" (any case) the session ends, one record with the majority topic is archived, the protocol is mailed and the goodbye is spoken. On a one-word or empty utterance the caller is asked to repeat and is recorded. Otherwise the chat model is asked and its answer is spoken; the answer is kept only when the call succeeded |
| Orchestrator.HandleTranscribe | server/server.js:190-216 | an unknown call is hung up with nothing changed. Otherwise the session ends, one record with this turn's topic is archived, the protocol is mailed, and the caller hears the reply or the unavailability notice; the transcript joins the conversation only when transcription succeeded |
| Orchestrator.StepArchive | server/server.js:92-219 | every request leaves the archive as it was or appends one record; it appends exactly when a session ends, and the record carries the ended call's id; holds for every route |
| Orchestrator.Step | server/server.js:92-219 | `/api/calls` answers with a subsequence of the archive and `/status` with the fixed status line, both without changing state or causing an effect; `/gather` and `/transcribe` for an unknown call leave the state as it is |
| Orchestrator.GoodbyeOnFirstTurn | server/server.js:103-163 | a call that says goodbye in its first turn leaves no session behind and archives its caller, start time, rounded duration and first topic |
| Orchestrator.StepKeepsValid | server/server.js:106-111 | every session's conversation starts with the system prompt and holds one `Thema:` annotation per recorded topic, in order; every request keeps this |
| Orchestrator.GatherKeepsValid | server/server.js:139-145 | a `/gather` turn keeps that invariant |
| Orchestrator.RunKeepsValid | server/server.js:103-216 | the invariant holds after any sequence of requests from the empty server |
| Orchestrator.RunAppendsOnly | server/server.js:151 | over any sequence of requests the archive only grows, by at most one record per request, and never loses or changes a record |
| Charts.ToGroups | dashboard-app/src/components/Charts.jsx:44 | one chart entry per bucket, in bucket order, whose count is the number of its callers |
| Charts.BucketContents | dashboard-app/src/components/Charts.jsx:61-64 | a bucket's key belongs to some call, and its list holds the callers of exactly the calls with that key, in input order |
| Charts.GroupTotal | dashboard-app/src/components/Charts.jsx:59-66 | the counts of a chart add up to the number of calls |
| Charts.GroupPlacement | dashboard-app/src/components/Charts.jsx:59-66 | chart entries have distinct names, each call appears in the entry named by its key, and each entry lists the callers with that key |
| Charts.GroupOrder | dashboard-app/src/components/Charts.jsx:59-66 | when no key is an array index, entries appear in the order their keys first occur among the calls |
| Charts.ByHour | dashboard-app/src/components/Charts.jsx:37-45 | the counts of the hour chart add up to the number of calls |
| Charts.ByDuration | dashboard-app/src/components/Charts.jsx:48-56 | the counts of the duration chart add up to the number of calls |
| Charts.ByTopic | dashboard-app/src/components/Charts.jsx:59-66 | the counts of the topic chart add up to the number of calls |
| Charts.ByHourOrder | dashboard-app/src/components/Charts.jsx:37-45 | hour entries appear in the order their hours first occur |
| Charts.ByDurationOrder | dashboard-app/src/components/Charts.jsx:48-56 | duration entries appear in the order their durations first occur |
| Charts.HourKeyShape | dashboard-app/src/components/Charts.jsx:40 | an hour of the day is written as two digits giving that hour, followed by `:00` |
| Charts.HourKeyInjective | dashboard-app/src/components/Charts.jsx:40 | two calls share an hour bucket exactly when their hours are equal |
| Charts.DurationKeyEqual | dashboard-app/src/components/Charts.jsx:51 | two calls share a duration bucket exactly when their durations have the same whole-minute floor |
| CallList.SecondsPart | dashboard-app/src/components/CallList.jsx:19 | the seconds field is a JavaScript remainder: it keeps the sign of the input, stays below 60 in magnitude, and differs from the input by whole minutes |
| CallList.FormatDuration | dashboard-app/src/components/CallList.jsx:17-21 | for every integer input the text has at least five characters and contains a colon; FormatDurationFields and FormatDurationParses state the fields |
| CallList.FormatDurationFields | dashboard-app/src/components/CallList.jsx:17-21 | for a non-negative duration the text is minutes, a colon and two-digit seconds; minutes have at least two digits; minutes times 60 plus seconds is the duration |
| CallList.FormatDurationParses | dashboard-app/src/components/CallList.jsx:17-21 | reading both fields back as integers gives the minutes and the seconds |
| CallList.FormatDurationLength | dashboard-app/src/components/CallList.jsx:18 | the text is exactly `mm:ss` (five characters) exactly when the duration is under 100 minutes |
| JsText.Trim | server/server.js:140 | the trimmed transcript is the input with exactly its leading and trailing white space removed |
| JsText.TrimIdempotent | server/server.js:140 | trimming a trimmed text changes nothing |
| JsText.SplitWhitespace | server/server.js:167 | the utterance splits into more than one piece exactly when it contains white space |
| JsText.ContainsIgnoringCase | server/server.js:148 | the farewell test holds exactly when the phrase occurs somewhere, letters compared without case |
| JsText.PadStart | dashboard-app/src/components/CallList.jsx:18-19 | padding never truncates, and prefixes as many fill characters as the text falls short |
| JsText.SplitJoin | server/server.js:63 | splitting newline-joined lines at newlines gives the lines back when none holds a newline |
| Decimal.ParseInt | server/server.js:93 | after leading white space, NaN when no decimal digit follows the optional sign; a number when a decimal digit follows it and does not start a `0x` prefix; a negative number only after a minus sign |
| Decimal.ParseIntRoundTrip | server/server.js:93 | `parseInt` reads back every integer as `toString` writes it (exactly, as the model reads numerals; see Decimal.ParseInt under Left out) |
| Decimal.IntToStringInjective | dashboard-app/src/components/Charts.jsx:51 | distinct integers are written differently |
| Decimal.NatToStringRoundTrip | dashboard-app/src/components/Charts.jsx:40 | the decimal digits written for a number have that value |
| JsObject.AccumulateKeys | server/server.js:84-87 | the keys of the counting object are the distinct labels in the order first seen |
| JsObject.EntriesPermutation | server/server.js:84 | `Object.entries` lists every property once, so any per-entry sum is unchanged |
| JsObject.EntriesOrder | server/server.js:84 | `Object.entries` lists array-index keys before every other key, in ascending numeric order |
| JsObject.EntriesNamedOrder | server/server.js:84 | `Object.entries` keeps the keys that are not array indices in creation order |
| JsObject.EntriesOfNamedKeys | server/server.js:84 | with no array-index key, `Object.entries` lists the properties exactly in creation order |
| Seqs.FilterMonotone | server/server.js:96 | a weaker filter keeps a superset of the elements, in the same order |

## Left out

- The HTTP plumbing is left out. This covers Express, CORS, body parsing, static assets, `app.listen` and the root-level `server.js`. Requests arrive as already-parsed values.
- TwiML serialisation is left out: voice, language, pause, beep, and the gather and record parameters. A response keeps only its kind and the sentences it speaks.
- The outside services are oracle values, not calls: OpenAI chat and classification, Whisper, the axios download of `RecordingUrl + ".mp3"` and nodemailer. Model names, token limits and temperature are not modelled. The mail keeps subject and text; sender, recipient and delivery failures are left out.
- The Whisper client resolves to a response object, not a string. The model takes the oracle's transcription as the value stored in the conversation and given to the classifier.
- Time is an integer of milliseconds since the epoch. `toISOString` and `new Date(r.time)` are taken to round-trip exactly, so records compare start times directly.
- Time zones are left out, as are daylight-saving shifts in `setDate`. The cutoff moves back by whole 24-hour days. The chart hour is given as the call's local hour.
- Concurrency is left out. Requests run one after another, while the server interleaves handlers at each `await`.
- Prototype-inherited keys are left out. On a plain object, labels such as `constructor` or `__proto__` read inherited values; the model treats every key as an own property.
- `req.query.days` given more than once (an array) is left out.
- `Number#toString` exponent notation for integers of 10^21 and above is left out.
- CallList.FormatDuration: covers integer seconds only. Fractional durations are left out, because its only caller passes the integer seconds of data/calls.js.
- Decimal.ParseInt: reads every numeral exactly, while `parseInt` returns a double. A double rounds numerals beyond 2^53 and reads numerals beyond about 1.8e308 as Infinity. For `/api/calls` this changes no answer, because every such lookback puts the cutoff outside the Date range (CallArchive.FarNumeralIsEmpty).
- Charts.ByDuration: the duration is a real number. Floating-point rounding is not modelled, and neither are NaN, infinities or negative zero.
- TopicVote.MostFrequentFirstSeen: stated only when no label is an array index, because `Object.entries` moves such labels to the front. TopicVoteExamples.IndexLabelWinsTie shows the exception.
- `Array#sort` is taken to be stable, as the language has required since ES2019. `mostFrequent` ranks by a stable insertion sort on descending count.
- The React components, the date labels in `App.jsx`, the sample data in `data/calls.js`, `TopicChart.jsx` and `CallDetails.jsx` are not part of this model.
