/**
 * The chat backend of app.py: a process-wide table from session id to the
 * ordered list of messages of that conversation, updated in place by the
 * `/chat` route and cleared per session by the `/new-chat` route.
 *
 * The external completion call is not modelled; each chat turn receives its
 * outcome (a reply text, or the text of the exception raised) as a parameter.
 */
module ChatServer {

  datatype Option<+T> = None | Some(value: T) {
    /** The value, or `default` when absent: Python's `dict.get(key, default)`. */
    function GetOr(default: T): T {
      match this
      case Some(v) => v
      case None => default
    }
  }

  datatype Role = System | User | Assistant

  /** One `{"role": ..., "content": ...}` entry of a conversation. */
  datatype Message = Message(role: Role, content: string)

  /** What the completion call produced: a reply text, or the text of the exception it raised. */
  datatype Completion = Completed(reply: string) | Failed(description: string)

  /**
   * The `patient_data` object of a request. Each value stands for the text Python's
   * f-string interpolation produces for the JSON value under that key.
   */
  type PatientData = map<string, string>

  /** The `conversations` table: session id to its ordered messages. */
  type Table = map<string, seq<Message>>

  const DefaultSessionId: string := "default"
  /** A history longer than this is trimmed after a successful turn. */
  const HistoryLimit: nat := 20
  /** How many of the most recent messages survive trimming, after the system message. */
  const KeptRecent: nat := 18
  const NewChatStatus: string := "New chat started"

  // ---------------------------------------------------------------------------
  // The system prompt

  /** Python's `patient_data.get(key, default)`. */
  function FieldOr(p: PatientData, key: string, default: string): string {
    if key in p then p[key] else default
  }

  const PromptOpening: string := "You are a helpful AI health assistant. \n"

  /** The start of the patient block: the f-string opens with a line break. */
  const PatientHeader: string := "\n" + PatientHeading
  const PatientHeading: string := "PATIENT INFORMATION (Keep this in mind for personalized care):\n"

  function NameLine(p: PatientData): string {
    "- Name: " + FieldOr(p, "firstName", "") + " " + FieldOr(p, "lastName", "") + "\n"
  }

  function AgeLine(p: PatientData): string { "- Age: " + FieldOr(p, "age", "Unknown") + "\n" }

  function SexLine(p: PatientData): string { "- Sex: " + FieldOr(p, "sex", "Unknown") + "\n" }

  function AddressLine(p: PatientData): string { "- Address: " + FieldOr(p, "address", "Not provided") + "\n" }

  function ContactLine(p: PatientData): string { "- Contact: " + FieldOr(p, "contactNumber", "Not provided") + "\n" }

  function HistoryLine(p: PatientData): string {
    "- Medical History: " + FieldOr(p, "medicalHistory", "None provided") + "\n"
  }

  function InParentheses(s: string): string { "(" + s + ")" }

  const GreetingRuleOpening: string := "\nIMPORTANT: Always greet the patient by their first name "
  const GreetingRuleClosing: string := " and consider their age, sex, and medical history when providing advice.\n"

  /** The rule after the field lines (preceded by a blank line), naming the patient or "Patient". */
  function GreetingRule(p: PatientData): string {
    GreetingRuleOpening + InParentheses(FieldOr(p, "firstName", "Patient")) + GreetingRuleClosing
  }

  /** The lines of the patient block after its header, in order. */
  function PatientLines(p: PatientData): seq<string> {
    [NameLine(p), AgeLine(p), SexLine(p), AddressLine(p), ContactLine(p), HistoryLine(p), GreetingRule(p)]
  }

  /** The strings of `ls` joined with no separator. */
  function Concat(ls: seq<string>): string
    decreases |ls|
  {
    if |ls| == 0 then "" else ls[0] + Concat(ls[1..])
  }

  /** The patient-information block; `if patient_data:` is true exactly for a non-empty object. */
  function PatientInfo(p: PatientData): string {
    if |p| == 0 then "" else PatientHeader + Concat(PatientLines(p))
  }

  /** The twelve spaces and line break that follow the patient block in the template. */
  const InstructionsIndent: string := "            \n"

  /**
   * The fixed behavioural instructions and the first user turn of the example
   * conversation: an unspecified constant, since no property depends on its wording.
   */
  const Instructions: string

  /** The example reply, up to the point where it may name the patient. */
  const ExampleOpening: string := "AI: \"I'm sorry to hear you have a fever"

  /** The example reply's opening, naming the patient only when patient data was sent. */
  function ExampleReply(p: PatientData): string {
    if |p| == 0 then ExampleOpening else ExampleOpening + ", " + FieldOr(p, "firstName", "")
  }

  /** The rest of the example conversation, after the name: unspecified like `Instructions`. */
  const ExampleRest: string

  /** Everything after the patient block. */
  function PromptTail(p: PatientData): string {
    InstructionsIndent + Instructions + ExampleReply(p) + ExampleRest
  }

  /** The system prompt a new session starts with. */
  function SystemPrompt(p: PatientData): string {
    PromptOpening + PatientInfo(p) + PromptTail(p)
  }

  /** `w` occurs as a contiguous part of `s`. */
  predicate Contains(s: string, w: string)
    decreases |s|
  {
    w <= s || (|s| > 0 && Contains(s[1..], w))
  }

  lemma {:induction false} ContainsExtendRight(s: string, w: string, b: string)
    requires Contains(s, w)
    ensures Contains(s + b, w)
    decreases |s|
  {
    if !(w <= s) {
      assert (s + b)[1..] == s[1..] + b;
      ContainsExtendRight(s[1..], w, b);
    }
  }

  lemma {:induction false} ContainsExtendLeft(a: string, s: string, w: string)
    requires Contains(s, w)
    ensures Contains(a + s, w)
    decreases |a|
  {
    if a == [] {
      assert a + s == s;
    } else {
      assert (a + s)[1..] == a[1..] + s;
      ContainsExtendLeft(a[1..], s, w);
    }
  }

  lemma ContainsMiddle(a: string, w: string, b: string)
    ensures Contains(a + w + b, w)
  {
    assert Contains(w, w);
    ContainsExtendLeft(a, w, w);
    ContainsExtendRight(a + w, w, b);
  }

  /** Whatever occurs in one of the joined strings occurs in the join. */
  lemma {:induction false} ConcatContains(ls: seq<string>, i: int, w: string)
    requires 0 <= i < |ls| && Contains(ls[i], w)
    ensures Contains(Concat(ls), w)
    decreases |ls|
  {
    if i == 0 {
      ContainsExtendRight(ls[0], w, Concat(ls[1..]));
    } else {
      ConcatContains(ls[1..], i - 1, w);
      ContainsExtendLeft(ls[0], Concat(ls[1..]), w);
    }
  }

  lemma LineInPrompt(p: PatientData, i: int, w: string)
    requires |p| > 0 && 0 <= i < |PatientLines(p)| && Contains(PatientLines(p)[i], w)
    ensures Contains(SystemPrompt(p), w)
  {
    ConcatContains(PatientLines(p), i, w);
    ContainsExtendLeft(PatientHeader, Concat(PatientLines(p)), w);
    ContainsMiddle(PromptOpening, PatientInfo(p), PromptTail(p));
    ContainsExtendLeft(PromptOpening, PatientInfo(p), w);
    ContainsExtendRight(PromptOpening + PatientInfo(p), w, PromptTail(p));
  }

  lemma PrefixOfAppend(a: string, b: string)
    ensures a <= a + b
  {
    assert (a + b)[..|a|] == a;
  }

  /** The opening line is followed by the header exactly when the block is non-empty. */
  lemma HeaderAfterOpening(info: string, tail: string)
    requires |info| == 0 || PatientHeader <= info
    requires |tail| > 0 && tail[0] == ' '
    ensures PromptOpening + PatientHeader <= PromptOpening + info + tail <==> |info| > 0
  {
    var k := |PromptOpening|;
    var s := PromptOpening + info + tail;
    if |info| == 0 {
      assert s[k] == ' ';
      assert (PromptOpening + PatientHeader)[k] == PatientHeader[0] == '\n';
    } else {
      assert s == PromptOpening + (info + tail);
      PrefixOfAppend(PatientHeader, info[|PatientHeader|..] + tail);
      assert PatientHeader + (info[|PatientHeader|..] + tail) == info + tail;
      assert (PromptOpening + PatientHeader) + (info[|PatientHeader|..] + tail) == s;
      PrefixOfAppend(PromptOpening + PatientHeader, info[|PatientHeader|..] + tail);
    }
  }

  /** The patient block follows the opening line exactly when patient data was sent. */
  lemma PatientBlockIffData(p: PatientData)
    ensures PromptOpening + PatientHeader <= SystemPrompt(p) <==> |p| > 0
  {
    if |p| > 0 {
      PrefixOfAppend(PatientHeader, Concat(PatientLines(p)));
    }
    assert PromptTail(p)[0] == InstructionsIndent[0] == ' ';
    HeaderAfterOpening(PatientInfo(p), PromptTail(p));
  }

  /** Without patient data the prompt is the fixed text alone, with no name in the example reply. */
  lemma PromptWithoutData(p: PatientData)
    requires |p| == 0
    ensures SystemPrompt(p) == PromptOpening + InstructionsIndent + Instructions + ExampleOpening + ExampleRest
  {
    assert ExampleReply(p) == ExampleOpening;
    assert PromptOpening + PatientInfo(p) == PromptOpening;
  }

  lemma LineShown(p: PatientData, i: int)
    requires |p| > 0 && 0 <= i < |PatientLines(p)|
    ensures Contains(SystemPrompt(p), PatientLines(p)[i])
  {
    assert Contains(PatientLines(p)[i], PatientLines(p)[i]);
    LineInPrompt(p, i, PatientLines(p)[i]);
  }

  /**
   * With patient data, every field line appears in the prompt, carrying its
   * default when the field is missing.
   */
  lemma PromptShowsPatientFields(p: PatientData)
    requires |p| > 0
    ensures var s := SystemPrompt(p);
      && Contains(s, "- Name: " + FieldOr(p, "firstName", "") + " " + FieldOr(p, "lastName", "") + "\n")
      && Contains(s, "- Age: " + FieldOr(p, "age", "Unknown") + "\n")
      && Contains(s, "- Sex: " + FieldOr(p, "sex", "Unknown") + "\n")
      && Contains(s, "- Address: " + FieldOr(p, "address", "Not provided") + "\n")
      && Contains(s, "- Contact: " + FieldOr(p, "contactNumber", "Not provided") + "\n")
      && Contains(s, "- Medical History: " + FieldOr(p, "medicalHistory", "None provided") + "\n")
  {
    LineShown(p, 0);
    LineShown(p, 1);
    LineShown(p, 2);
    LineShown(p, 3);
    LineShown(p, 4);
    LineShown(p, 5);
  }

  /**
   * With patient data, the greeting rule names the patient (or "Patient" when no
   * first name was sent) and the example reply addresses them by first name.
   */
  lemma PromptNamesPatient(p: PatientData)
    requires |p| > 0
    ensures Contains(SystemPrompt(p), "(" + FieldOr(p, "firstName", "Patient") + ")")
    ensures Contains(SystemPrompt(p), ExampleOpening + ", " + FieldOr(p, "firstName", ""))
  {
    var name := InParentheses(FieldOr(p, "firstName", "Patient"));
    ContainsMiddle(GreetingRuleOpening, name, GreetingRuleClosing);
    LineInPrompt(p, 6, name);
    ContainsMiddle(InstructionsIndent + Instructions, ExampleReply(p), ExampleRest);
    ContainsExtendLeft(PromptOpening + PatientInfo(p), PromptTail(p), ExampleReply(p));
  }

  // ---------------------------------------------------------------------------
  // One chat turn and one reset, as functions of the table

  /** The result of one `/chat` call: the new table, the reply returned and the list sent to the completion. */
  datatype TurnResult = TurnResult(table: Table, reply: string, sent: seq<Message>)

  /** The reply of a turn whose completion raised an exception with this text. */
  function ErrorReply(description: string): string { "Error: " + description }

  /** The stored history of `sid`, or the single system message a new session would start with. */
  function HistoryOrFresh(t: Table, sid: string, systemPrompt: string): seq<Message> {
    if sid in t then t[sid] else [Message(System, systemPrompt)]
  }

  /** The trimming after a successful turn: a long history keeps its first message and the most recent ones. */
  function Trim(h: seq<Message>): (r: seq<Message>)
    ensures |h| <= HistoryLimit ==> r == h
    ensures |h| > HistoryLimit ==> |r| == KeptRecent + 1 && r[0] == h[0] && r[1..] == h[|h| - KeptRecent..]
    ensures |r| <= HistoryLimit || r == h
    ensures |h| > 0 ==> |r| > 0 && r[0] == h[0] && r[|r| - 1] == h[|h| - 1]
  {
    if |h| > HistoryLimit then [h[0]] + h[|h| - KeptRecent..] else h
  }

  /** The stored list after the completion: the reply appended and the list trimmed, or nothing added on failure. */
  function Answered(sent: seq<Message>, c: Completion): seq<Message> {
    match c
    case Completed(text) => Trim(sent + [Message(Assistant, text)])
    case Failed(_) => sent
  }

  /** The `reply` field of the response. */
  function ReplyText(c: Completion): string {
    match c
    case Completed(text) => text
    case Failed(description) => ErrorReply(description)
  }

  /**
   * One `/chat` call on session `sid` with user text `msg`; `systemPrompt` is the
   * prompt built from the request's patient data, used only if the session is new.
   */
  function Turn(t: Table, sid: string, msg: string, systemPrompt: string, c: Completion): TurnResult {
    var sent := HistoryOrFresh(t, sid, systemPrompt) + [Message(User, msg)];
    TurnResult(t[sid := Answered(sent, c)], ReplyText(c), sent)
  }

  /** One `/new-chat` call: the session is forgotten, whether or not it existed. */
  function Reset(t: Table, sid: string): (r: Table)
    ensures sid !in r
    ensures r.Keys == t.Keys - {sid}
    ensures forall other | other in r :: r[other] == t[other]
    ensures sid !in t ==> r == t
  {
    t - {sid}
  }

  /** A conversation starts with its system message and holds no other. */
  predicate WellFormedHistory(h: seq<Message>) {
    |h| > 0 && h[0].role == System && forall i | 1 <= i < |h| :: h[i].role != System
  }

  predicate WellFormedTable(t: Table) {
    forall sid | sid in t :: WellFormedHistory(t[sid])
  }

  /** The list sent to the completion is the whole stored history followed by the new user message; a new session starts from its system prompt alone, an existing one keeps its own. */
  lemma TurnSendsWholeHistory(t: Table, sid: string, msg: string, systemPrompt: string, c: Completion)
    ensures var r := Turn(t, sid, msg, systemPrompt, c);
      && |r.sent| > 0 && r.sent[|r.sent| - 1] == Message(User, msg)
      && (sid in t ==> r.sent[..|r.sent| - 1] == t[sid])
      && (sid !in t ==> r.sent == [Message(System, systemPrompt), Message(User, msg)])
  {
    var r := Turn(t, sid, msg, systemPrompt, c);
    assert r.sent[..|r.sent| - 1] == HistoryOrFresh(t, sid, systemPrompt);
  }

  /** A session that exists keeps its own history: the patient data of later requests is ignored. */
  lemma KnownSessionIgnoresPrompt(t: Table, sid: string, msg: string, prompt1: string, prompt2: string, c: Completion)
    requires sid in t
    ensures Turn(t, sid, msg, prompt1, c) == Turn(t, sid, msg, prompt2, c)
  {
  }

  /** A turn changes only the entry of its own session, creating it when absent. */
  lemma TurnFramesOtherSessions(t: Table, sid: string, msg: string, systemPrompt: string, c: Completion)
    ensures var r := Turn(t, sid, msg, systemPrompt, c);
      && r.table.Keys == t.Keys + {sid}
      && forall other | other in t && other != sid :: r.table[other] == t[other]
  {
  }

  /** A successful turn returns the reply unchanged, stores it last, keeps the first message and leaves at most 20 entries. */
  lemma TurnOnSuccess(t: Table, sid: string, msg: string, systemPrompt: string, c: Completion)
    requires c.Completed?
    ensures var r := Turn(t, sid, msg, systemPrompt, c);
      var h := r.table[sid];
      && r.reply == c.reply
      && 0 < |h| <= HistoryLimit
      && h[0] == r.sent[0]
      && h[|h| - 1] == Message(Assistant, c.reply)
      && (|r.sent| < HistoryLimit ==> h == r.sent + [Message(Assistant, c.reply)])
      && (|r.sent| >= HistoryLimit ==> |h| == KeptRecent + 1 && h[1..] == (r.sent + [Message(Assistant, c.reply)])[|r.sent| + 1 - KeptRecent..])
  {
    var r := Turn(t, sid, msg, systemPrompt, c);
    assert |r.sent| <= HistoryLimit ==> |r.sent + [Message(Assistant, c.reply)]| <= HistoryLimit + 1;
  }

  /** A failed turn replies with the error text, keeps the user message and adds nothing else; nothing is trimmed. */
  lemma TurnOnFailure(t: Table, sid: string, msg: string, systemPrompt: string, c: Completion)
    requires c.Failed?
    ensures var r := Turn(t, sid, msg, systemPrompt, c);
      && r.reply == "Error: " + c.description
      && r.table[sid] == r.sent
      && |r.table[sid]| == |HistoryOrFresh(t, sid, systemPrompt)| + 1
      && r.table[sid][|r.table[sid]| - 1] == Message(User, msg)
  {
  }

  lemma {:induction false} TrimWellFormed(h: seq<Message>)
    requires WellFormedHistory(h)
    ensures WellFormedHistory(Trim(h))
  {
    var r := Trim(h);
    if |h| > HistoryLimit {
      forall i | 1 <= i < |r| ensures r[i].role != System {
        assert r[i] == h[|h| - KeptRecent + i - 1];
      }
    }
  }

  /** Every session keeps its system message first and only first. */
  lemma {:induction false} TurnPreservesWellFormed(t: Table, sid: string, msg: string, systemPrompt: string, c: Completion)
    requires WellFormedTable(t)
    ensures WellFormedTable(Turn(t, sid, msg, systemPrompt, c).table)
  {
    var base := HistoryOrFresh(t, sid, systemPrompt);
    assert WellFormedHistory(base);
    var sent := base + [Message(User, msg)];
    assert WellFormedHistory(sent) by {
      forall i | 1 <= i < |sent| ensures sent[i].role != System {
        if i < |base| { assert sent[i] == base[i]; }
      }
    }
    match c
    case Completed(text) =>
      var full := sent + [Message(Assistant, text)];
      assert WellFormedHistory(full) by {
        forall i | 1 <= i < |full| ensures full[i].role != System {
          if i < |sent| { assert full[i] == sent[i]; }
        }
      }
      TrimWellFormed(full);
    case Failed(_) =>
  }

  /** After `/new-chat`, the next `/chat` on that id behaves exactly as on a session never seen. */
  lemma ResetThenTurnIsFresh(t: Table, sid: string, msg: string, systemPrompt: string, c: Completion)
    ensures var r := Turn(Reset(t, sid), sid, msg, systemPrompt, c);
      var unseen := Turn(map[], sid, msg, systemPrompt, c);
      && r.sent == unseen.sent
      && r.reply == unseen.reply
      && r.table[sid] == unseen.table[sid]
      && r.sent[0] == Message(System, systemPrompt)
  {
  }

  // ---------------------------------------------------------------------------
  // Sequences of requests

  /** A request to either route; an absent `session_id` or `message` is `None`. */
  datatype Request =
    | ChatRequest(sessionId: Option<string>, message: Option<string>, patientData: PatientData, outcome: Completion)
    | NewChatRequest(sessionId: Option<string>)
  {
    function Target(): string {
      sessionId.GetOr(DefaultSessionId)
    }
  }

  function Step(t: Table, req: Request): Table {
    match req
    case ChatRequest(_, message, patientData, outcome) =>
      Turn(t, req.Target(), message.GetOr(""), SystemPrompt(patientData), outcome).table
    case NewChatRequest(_) => Reset(t, req.Target())
  }

  /** The table after handling `reqs` in order. */
  function Replay(t: Table, reqs: seq<Request>): Table
    decreases |reqs|
  {
    if |reqs| == 0 then t else Replay(Step(t, reqs[0]), reqs[1..])
  }

  lemma {:induction false} ReplayPreservesWellFormed(t: Table, reqs: seq<Request>)
    requires WellFormedTable(t)
    ensures WellFormedTable(Replay(t, reqs))
    decreases |reqs|
  {
    if |reqs| > 0 {
      match reqs[0] {
        case ChatRequest(_, message, patientData, outcome) =>
          TurnPreservesWellFormed(t, reqs[0].Target(), message.GetOr(""), SystemPrompt(patientData), outcome);
        case NewChatRequest(_) =>
      }
      ReplayPreservesWellFormed(Step(t, reqs[0]), reqs[1..]);
    }
  }

  /** Requests for other sessions never touch an entry. */
  lemma {:induction false} ReplayLeavesOtherSessions(t: Table, reqs: seq<Request>, sid: string)
    requires forall i | 0 <= i < |reqs| :: reqs[i].Target() != sid
    ensures sid in Replay(t, reqs) <==> sid in t
    ensures sid in t ==> Replay(t, reqs)[sid] == t[sid]
    decreases |reqs|
  {
    if |reqs| > 0 {
      ReplayLeavesOtherSessions(Step(t, reqs[0]), reqs[1..], sid);
    }
  }

  /** Until a `/new-chat` on it, a session keeps the system message it was created with. */
  lemma {:induction false} ReplayKeepsSystemMessage(t: Table, reqs: seq<Request>, sid: string)
    requires sid in t && |t[sid]| > 0
    requires forall i | 0 <= i < |reqs| :: !(reqs[i].NewChatRequest? && reqs[i].Target() == sid)
    ensures sid in Replay(t, reqs) && |Replay(t, reqs)[sid]| > 0
    ensures Replay(t, reqs)[sid][0] == t[sid][0]
    decreases |reqs|
  {
    if |reqs| > 0 {
      var next := Step(t, reqs[0]);
      assert sid in next && |next[sid]| > 0 && next[sid][0] == t[sid][0];
      ReplayKeepsSystemMessage(next, reqs[1..], sid);
    }
  }

  /** Failed turns only ever add the user message and are never trimmed, so a session can grow past 20 entries. */
  lemma {:induction false} FailedTurnsGrowHistory(t: Table, reqs: seq<Request>, sid: string)
    requires sid in t
    requires forall i | 0 <= i < |reqs| :: reqs[i].ChatRequest? && reqs[i].Target() == sid && reqs[i].outcome.Failed?
    ensures sid in Replay(t, reqs)
    ensures |Replay(t, reqs)[sid]| == |t[sid]| + |reqs|
    ensures Replay(t, reqs)[sid][..|t[sid]|] == t[sid]
    decreases |reqs|
  {
    if |reqs| > 0 {
      var next := Step(t, reqs[0]);
      assert next[sid] == t[sid] + [Message(User, reqs[0].message.GetOr(""))];
      FailedTurnsGrowHistory(next, reqs[1..], sid);
      assert Replay(t, reqs)[sid][..|next[sid]|] == next[sid];
      assert Replay(t, reqs)[sid][..|t[sid]|] == next[sid][..|t[sid]|];
    }
  }

  // ---------------------------------------------------------------------------
  // The server object

  /** The running server's `conversations` table and its two routes. */
  class ChatService {
    var conversations: Table

    ghost predicate Valid()
      reads this
    {
      WellFormedTable(conversations)
    }

    constructor ()
      ensures Valid() && conversations == map[]
    {
      conversations := map[];
    }

    /** The `/chat` route: returns the `reply` and `session_id` of the response, and the list the completion was sent. */
    method Chat(sessionId: Option<string>, message: Option<string>, patientData: PatientData, outcome: Completion)
      returns (reply: string, sid: string, sent: seq<Message>)
      requires Valid()
      modifies this
      ensures Valid()
      ensures sid == sessionId.GetOr(DefaultSessionId)
      ensures TurnResult(conversations, reply, sent) == Turn(old(conversations), sid, message.GetOr(""), SystemPrompt(patientData), outcome)
    {
      sid := sessionId.GetOr(DefaultSessionId);
      reply, sent := Converse(sid, message.GetOr(""), SystemPrompt(patientData), outcome);
    }

    /**
     * The body of the `/chat` route once the request is read: `systemPrompt` is
     * the prompt built from the request's patient data, stored only for a new session.
     */
    method Converse(sid: string, userMessage: string, systemPrompt: string, outcome: Completion)
      returns (reply: string, sent: seq<Message>)
      requires Valid()
      modifies this
      ensures Valid()
      ensures TurnResult(conversations, reply, sent) == Turn(old(conversations), sid, userMessage, systemPrompt, outcome)
    {
      if sid !in conversations {
        conversations := conversations[sid := [Message(System, systemPrompt)]];
      }
      sent := conversations[sid] + [Message(User, userMessage)];
      conversations := conversations[sid := sent];
      reply := Respond(sid, outcome);
      assert conversations == old(conversations)[sid := Answered(sent, outcome)];
      TurnPreservesWellFormed(old(conversations), sid, userMessage, systemPrompt, outcome);
    }

    /** Handles the completion's outcome for the list just sent on `sid`. */
    method Respond(sid: string, outcome: Completion) returns (reply: string)
      requires sid in conversations
      modifies this
      ensures reply == ReplyText(outcome)
      ensures conversations == old(conversations)[sid := Answered(old(conversations)[sid], outcome)]
    {
      match outcome {
        case Completed(text) =>
          reply := text;
          conversations := conversations[sid := conversations[sid] + [Message(Assistant, reply)]];
          if |conversations[sid]| > HistoryLimit {
            var history := conversations[sid];
            conversations := conversations[sid := [history[0]] + history[|history| - KeptRecent..]];
          }
        case Failed(description) =>
          reply := ErrorReply(description);
      }
    }

    /** The `/new-chat` route: returns the `message` and `session_id` of the response. */
    method NewChat(sessionId: Option<string>) returns (status: string, sid: string)
      requires Valid()
      modifies this
      ensures Valid()
      ensures sid == sessionId.GetOr(DefaultSessionId) && status == NewChatStatus
      ensures conversations == Reset(old(conversations), sid)
    {
      sid := sessionId.GetOr(DefaultSessionId);
      if sid in conversations {
        conversations := conversations - {sid};
      }
      status := NewChatStatus;
    }
  }
}
