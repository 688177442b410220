/**
 * The script stage's POST handler (app/api/generate-script/route.ts): validate the request,
 * create a session id, call the LLM, select the JSON span of its reply and parse it.
 * The LLM call, `crypto.randomUUID` and `JSON.parse` are inputs: the reply the LLM gave, the
 * session id the generator produced, and a parse function `parse` that yields `None` where
 * `JSON.parse` throws.
 */
module GenerateScript {
  import opened Wrappers
  import opened JsonExtraction

  const RequiredFieldsMessage: string := "Chủ đề và tóm tắt nội dung là bắt buộc"
  const MissingKeyMessage: string := "OpenRouter API key không được cấu hình"
  const LlmCallMessage: string := "Lỗi khi gọi API OpenRouter"
  const ParseMessage: string := "Lỗi khi phân tích kịch bản"
  const InternalMessage: string := "Lỗi máy chủ nội bộ"

  /** The fields of the request body the handler reads (the other two only feed the LLM prompt). */
  datatype ScriptRequest = ScriptRequest(subject: Option<string>, summary: Option<string>)

  /** What the chat-completion call came back with. */
  datatype LlmReply =
    | LlmUnavailable                   // fetch rejected, or the body is not JSON / has no `choices`
    | LlmNotOk                         // `response.ok` is false
    | LlmAnswered(content: Option<string>)  // `choices[0]?.message?.content`

  datatype ScriptResponse<J> =
    | ScriptCreated(script: J, sessionId: string)   // status 200, `success: true`
    | ScriptFailed(status: nat, error: string)      // `success: false`

  /** The handler's outside effects, in the order they happen. */
  datatype Effect = NewSessionId | CallLlm

  /** `data.choices[0]?.message?.content || ""`. */
  function ReplyText(content: Option<string>): string
  {
    OrElse(content, "")
  }

  /**
   * The handler. `body` is `None` when `req.json()` throws; `keyConfigured` says whether
   * `OPENROUTER_API_KEY` is set to a non-empty value.
   */
  method HandleGenerateScript<J>(
    body: Option<ScriptRequest>, keyConfigured: bool, llm: LlmReply,
    parse: string -> Option<J>, sessionId: string)
    returns (response: ScriptResponse<J>, effects: seq<Effect>)
    ensures body.None? ==> response == ScriptFailed(500, InternalMessage) && effects == []
    ensures body.Some? && !(Truthy(body.value.subject) && Truthy(body.value.summary)) ==>
      response == ScriptFailed(400, RequiredFieldsMessage) && effects == []
    ensures body.Some? && Truthy(body.value.subject) && Truthy(body.value.summary) ==>
      && effects == (if keyConfigured then [NewSessionId, CallLlm] else [NewSessionId])
      && response == (
        if !keyConfigured then ScriptFailed(500, MissingKeyMessage)
        else match llm
          case LlmUnavailable => ScriptFailed(500, InternalMessage)
          case LlmNotOk => ScriptFailed(500, LlmCallMessage)
          case LlmAnswered(content) =>
            match parse(SelectSpan(ReplyText(content)))
            case None => ScriptFailed(500, ParseMessage)
            case Some(script) => ScriptCreated(script, sessionId))
  {
    effects := [];
    if body.None? {
      return ScriptFailed(500, InternalMessage), effects;
    }
    var request := body.value;
    if !Truthy(request.subject) || !Truthy(request.summary) {
      return ScriptFailed(400, RequiredFieldsMessage), effects;
    }
    effects := effects + [NewSessionId];
    if !keyConfigured {
      return ScriptFailed(500, MissingKeyMessage), effects;
    }
    effects := effects + [CallLlm];
    match llm {
      case LlmUnavailable =>
        response := ScriptFailed(500, InternalMessage);
      case LlmNotOk =>
        response := ScriptFailed(500, LlmCallMessage);
      case LlmAnswered(content) =>
        var text := ReplyText(content);
        var jsonContent := ExtractJsonContent(text);
        match parse(jsonContent) {
          case None =>
            response := ScriptFailed(500, ParseMessage);
          case Some(script) =>
            response := ScriptCreated(script, sessionId);
        }
    }
  }
}
