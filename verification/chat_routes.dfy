/** The HTTP routes of `routes/chat.js`: the validation chain of `POST /chat` in front
    of a chat turn, the history routes and the manual ingestion route. A request body
    field is a JavaScript value; a response is a status and a JSON body. */
module ChatRoutes {
  import opened Wrappers
  import opened Text
  import opened Records
  import opened RedisClient
  import opened VectorStore
  import opened EmbeddingService
  import opened ChatService
  import opened NewsIngestion

  // ----- Request values --------------------------------------------------------------

  /** A JSON request field as JavaScript sees it (`Absent` for a missing field). Numbers
      are integers here. */
  datatype JsValue = Absent | Null | Bool(b: bool) | Number(n: int) | Str(s: string) | Object

  /** `!v`: the falsy values are a missing field, `null`, `false`, `0` and `""`. */
  predicate Falsy(v: JsValue)
  {
    v.Absent? || v.Null? || v == Bool(false) || v == Number(0) || v == Str("")
  }

  function IntToString(n: int): (s: string)
    ensures n >= 0 ==> s == NatToString(n)
    ensures n < 0 ==> s == "-" + NatToString(-n)
  {
    if n >= 0 then NatToString(n) else "-" + NatToString(-n)
  }

  /** The text a value becomes inside a template literal, as in the session key
      `chat:${sessionId}`. */
  function TemplateText(v: JsValue): (s: string)
    ensures v.Str? ==> s == v.s
  {
    match v
    case Absent => "undefined"
    case Null => "null"
    case Bool(b) => if b then "true" else "false"
    case Number(n) => IntToString(n)
    case Str(s) => s
    case Object => "[object Object]"
  }

  // ----- Responses ---------------------------------------------------------------------

  datatype Body =
    | MissingFields(error: string, required: seq<string>)
    | ErrorBody(error: string)
    | FailureBody(error: string, message: string)
    | ReplyBody(reply: Reply)
    | HistoryBody(sessionId: string, messages: seq<Message>, count: nat)
    | ClearedBody(message: string, sessionId: string)
    | IngestedBody(message: string, articlesProcessed: nat, timestamp: string)

  datatype Response = Response(status: nat, body: Body)

  const MissingFieldsError: string := "Missing required fields"
  const RequiredFields: seq<string> := ["sessionId", "message"]
  const NotAStringError: string := "Message must be a non-empty string"
  const TooLongError: string := "Message too long (max 1000 characters)"
  const ProcessFailedError: string := "Failed to process message"
  const TryLater: string := "Please try again later"
  const SessionIdRequired: string := "Session ID is required"
  const ClearFailedError: string := "Failed to clear session history"
  const ClearedMessage: string := "Session history cleared successfully"
  const IngestedMessage: string := "News ingestion completed"
  const MaxMessageLength: nat := 1000

  function BadRequest(body: Body): Response
  {
    Response(400, body)
  }

  // ----- POST /chat --------------------------------------------------------------------

  datatype ChatRequest = ChatRequest(sessionId: JsValue, message: JsValue)

  /** The validation chain of `POST /chat`: the 400 response of the first check that
      fails, or the session id and the trimmed message handed to the turn. */
  function ValidateChat(req: ChatRequest): (r: Result<(string, string), Response>)
    ensures r.Failure? ==> r.error.status == 400
    ensures r.Success? <==>
      !Falsy(req.sessionId) && req.message.Str? && !AllWhitespace(req.message.s) && |req.message.s| <= MaxMessageLength
  {
    if Falsy(req.sessionId) || Falsy(req.message) then Failure(BadRequest(MissingFields(MissingFieldsError, RequiredFields)))
    else if !req.message.Str? || |Trim(req.message.s)| == 0 then Failure(BadRequest(ErrorBody(NotAStringError)))
    else if |req.message.s| > MaxMessageLength then Failure(BadRequest(ErrorBody(TooLongError)))
    else Success((TemplateText(req.sessionId), Trim(req.message.s)))
  }

  /** The checks run in order, each reporting its own error: a missing field first (so
      an empty message counts as missing), then a non-string or blank message, then a
      message over 1000 characters. */
  lemma ValidationOrder(req: ChatRequest)
    ensures Falsy(req.sessionId) || Falsy(req.message) ==>
      ValidateChat(req) == Failure(Response(400, MissingFields(MissingFieldsError, RequiredFields)))
    ensures req.message == Str("") ==> ValidateChat(req).error.body.error == MissingFieldsError
    ensures !Falsy(req.sessionId) && !Falsy(req.message) && (!req.message.Str? || AllWhitespace(req.message.s)) ==>
      ValidateChat(req) == Failure(Response(400, ErrorBody(NotAStringError)))
    ensures !Falsy(req.sessionId) && req.message.Str? && !AllWhitespace(req.message.s)
            && |req.message.s| > MaxMessageLength ==>
      ValidateChat(req) == Failure(Response(400, ErrorBody(TooLongError)))
  {
  }

  /** What the route hands on is the trimmed message: not blank, at most 1000
      characters, and accepted unchanged by the embedding service's own check. */
  lemma AcceptedMessage(req: ChatRequest)
    requires ValidateChat(req).Success?
    ensures var (sessionId, message) := ValidateChat(req).value;
      && sessionId == TemplateText(req.sessionId)
      && message == Trim(req.message.s)
      && message != [] && |message| <= MaxMessageLength
      && ValidateText(message) == Success(message)
  {
    TrimIdempotent(req.message.s);
  }

  /** The length limit applies to the message as sent, spaces included: 1000 characters
      with one space after them are refused, although the trimmed text would fit. */
  lemma LengthCheckedBeforeTrim(sessionId: string, s: string)
    requires sessionId != [] && |s| == MaxMessageLength && !AllWhitespace(s)
    ensures |Trim(s + " ")| <= MaxMessageLength
    ensures ValidateChat(ChatRequest(Str(sessionId), Str(s + " "))) == Failure(Response(400, ErrorBody(TooLongError)))
  {
    var t := s + " ";
    assert forall i :: 0 <= i < |s| ==> t[i] == s[i];
    assert !AllWhitespace(t);
    TrimLength(t);
  }

  lemma TrimLength(t: string)
    requires |t| > 0 && IsJsWhitespace(t[|t| - 1])
    ensures |Trim(t)| < |t|
  {
    if Trim(t) != [] {
      assert !IsJsWhitespace(Trim(t)[|Trim(t)| - 1]);
    }
  }

  /** `POST /chat`: the new index and store and the response. A request the chain
      refuses changes nothing; otherwise the turn runs and its failure is a 500 with a
      generic body. */
  function PostChatSpec(w: World, req: ChatRequest, env: TurnEnv): (World, Response)
  {
    match ValidateChat(req)
    case Failure(resp) => (w, resp)
    case Success((sessionId, message)) =>
      var (w1, r) := TurnSpec(w, sessionId, message, env);
      (w1, if r.Success? then Response(200, ReplyBody(r.value)) else Response(500, FailureBody(ProcessFailedError, TryLater)))
  }

  method PostChat(index: VectorIndex, req: ChatRequest, env: TurnEnv) returns (resp: Response)
    modifies index, index.db
    ensures (index.State(), resp) == PostChatSpec(old(index.State()), req, env)
  {
    var checked := ValidateChat(req);
    if checked.Failure? {
      return checked.error;
    }
    var (sessionId, message) := checked.value;
    var r := ProcessUserMessage(index, sessionId, message, env);
    if r.Success? {
      resp := Response(200, ReplyBody(r.value));
    } else {
      resp := Response(500, FailureBody(ProcessFailedError, TryLater));
    }
  }

  /** A refused request leaves the index and the store as they were; an accepted one
      answers 200 with the turn's reply, or 500 exactly when the turn failed, which for
      an accepted message is always a store error. */
  lemma PostChatOutcome(w: World, req: ChatRequest, env: TurnEnv)
    ensures var (w1, resp) := PostChatSpec(w, req, env);
      && (ValidateChat(req).Failure? ==> w1 == w && resp.status == 400)
      && (ValidateChat(req).Success? ==>
            var (sessionId, message) := ValidateChat(req).value;
            var r := TurnSpec(w, sessionId, message, env).1;
            && (resp.status == 200 <==> r.Success?)
            && (r.Success? ==> resp.body == ReplyBody(r.value))
            && (r.Failure? ==> resp.status == 500 && r.error == StoreFailed))
  {
    if ValidateChat(req).Success? {
      var (sessionId, message) := ValidateChat(req).value;
      AcceptedMessage(req);
      assert !AllWhitespace(message);
      TurnRejectsOnlyBlank(w, sessionId, message, env);
    }
  }

  // ----- GET and DELETE /history/:sessionId ---------------------------------------------

  /** `GET /history/:sessionId`: the stored history with its length. */
  function HistorySpec(data: map<string, Value>, sessionId: string, readFails: bool): (resp: Response)
    ensures resp.status == 200 || resp.status == 400
    ensures resp.status == 400 <==> sessionId == []
    ensures resp.status == 200 ==> resp.body.HistoryBody? && resp.body.count == |resp.body.messages|
  {
    if sessionId == [] then BadRequest(ErrorBody(SessionIdRequired))
    else
      var h := HistoryOf(data, sessionId, readFails);
      Response(200, HistoryBody(sessionId, h, |h|))
  }

  method GetHistory(db: KeyValueStore, sessionId: string, readFails: bool) returns (resp: Response)
    ensures resp == HistorySpec(db.data, sessionId, readFails)
  {
    if sessionId == [] {
      return BadRequest(ErrorBody(SessionIdRequired));
    }
    var history := GetChatHistory(db, sessionId, readFails);
    resp := Response(200, HistoryBody(sessionId, history, |history|));
  }

  /** The history route answers with what the chat service stored for the session:
      after a turn, the messages the turn appended (see `TurnAppendsTwo`); a session
      never written answers an empty list. */
  lemma HistoryShowsStored(data: map<string, Value>, sessionId: string, h: seq<Message>)
    requires sessionId != []
    ensures HistorySpec(data[ChatKey(sessionId) := HistoryJson(h)], sessionId, false) == Response(200, HistoryBody(sessionId, h, |h|))
    ensures ChatKey(sessionId) !in data ==> HistorySpec(data, sessionId, false) == Response(200, HistoryBody(sessionId, [], 0))
  {
  }

  /** `DELETE /history/:sessionId`. */
  method DeleteHistory(db: KeyValueStore, sessionId: string, fault: bool) returns (resp: Response)
    modifies db
    ensures sessionId == [] ==> resp == BadRequest(ErrorBody(SessionIdRequired)) && db.data == old(db.data)
    ensures sessionId != [] && fault ==> resp == Response(500, ErrorBody(ClearFailedError)) && db.data == old(db.data)
    ensures sessionId != [] && !fault ==>
      resp == Response(200, ClearedBody(ClearedMessage, sessionId)) && db.data == old(db.data) - {ChatKey(sessionId)}
  {
    if sessionId == [] {
      return BadRequest(ErrorBody(SessionIdRequired));
    }
    var cleared := ClearSessionHistory(db, sessionId, fault);
    if cleared.Failure? {
      resp := Response(500, ErrorBody(ClearFailedError));
    } else {
      resp := Response(200, ClearedBody(ClearedMessage, sessionId));
    }
  }

  // ----- POST /ingest-news -------------------------------------------------------------

  /** `POST /ingest-news`: runs the ingestion and reports how many articles were stored.
      The ingestion catches every failure of a feed or an article itself, so the route
      always answers 200. */
  method PostIngestNews(index: VectorIndex, env: IngestEnv, timestamp: string) returns (resp: Response)
    modifies index, index.db
    ensures var run := ProcessAll(old(index.State()), FetchAll(NewsSources, env), env);
      && index.State() == run.0
      && resp == Response(200, IngestedBody(IngestedMessage, run.1, timestamp))
  {
    var report, _ := IngestNewsArticles(index, env);
    resp := Response(200, IngestedBody(IngestedMessage, report.count, timestamp));
  }
}
