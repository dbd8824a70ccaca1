// The manual trigger of app/api/generate-and-upload/route.ts: two guards in front of one
// pipeline run, and the status chosen from its result.

module GenerateRoute {
  import opened Common
  import opened Automation

  /** The `niche` field of the JSON body; None when the body leaves it out. */
  datatype GenerateBody = GenerateBody(niche: Option<string>)

  /** The status, the JSON body sent, and the steps of the pipeline run it made (none when
      the pipeline was not called). */
  datatype GenerateResponse = GenerateResponse(status: int, body: DesignResult, calls: seq<StepName>)

  const NicheRequired := "Niche is required"
  const MissingApiKey := "OpenAI API key not configured. Please set OPENAI_API_KEY environment variable."
  const InternalError := "Internal server error"

  /** `{ success: false, error }`. */
  function ErrorBody(message: string): DesignResult {
    DesignResult(false, None, None, None, None, Some(message))
  }

  /** `POST`: `body` is the outcome of `request.json()`, `openAiKey` the value of
      `OPENAI_API_KEY`, and `sv` what the pipeline's calls settle to. */
  function Post(body: Step<GenerateBody>, openAiKey: Option<string>, sv: Services): (r: GenerateResponse)
    ensures body.Threw? ==> r == GenerateResponse(500, ErrorBody(MessageOr(body.thrown, InternalError)), [])
    ensures body.Done? && !Truthy(body.value.niche) ==> r == GenerateResponse(400, ErrorBody(NicheRequired), [])
    ensures body.Done? && Truthy(body.value.niche) && !Truthy(openAiKey) ==>
      r == GenerateResponse(500, ErrorBody(MissingApiKey), [])
    ensures body.Done? && Truthy(body.value.niche) && Truthy(openAiKey) ==>
      var run := GenerateAndUploadDesign(body.value.niche.value, sv);
      r.body == run.result && r.calls == run.calls
    ensures r.status == 200 <==> r.body.success
    ensures r.calls != [] && !r.body.success ==> r.status == 500
    ensures r.status != 200 ==> r.status == 400 || r.status == 500
    ensures r.calls != [] <==> body.Done? && Truthy(body.value.niche) && Truthy(openAiKey)
  {
    match body
    case Threw(e) => GenerateResponse(500, ErrorBody(MessageOr(e, InternalError)), [])
    case Done(b) =>
      if !Truthy(b.niche) then GenerateResponse(400, ErrorBody(NicheRequired), [])
      else if !Truthy(openAiKey) then GenerateResponse(500, ErrorBody(MissingApiKey), [])
      else
        var run := GenerateAndUploadDesign(b.niche.value, sv);
        if run.result.success then GenerateResponse(200, run.result, run.calls)
        else GenerateResponse(500, run.result, run.calls)
  }

  /** The niche is checked before the key: a request without a niche is answered 400 whether
      or not the key is configured. */
  lemma NicheCheckedBeforeKey(niche: Option<string>, sv: Services, key1: Option<string>, key2: Option<string>)
    requires !Truthy(niche)
    ensures Post(Done(GenerateBody(niche)), key1, sv) == Post(Done(GenerateBody(niche)), key2, sv)
    ensures Post(Done(GenerateBody(niche)), key1, sv).status == 400
  {
  }
}
