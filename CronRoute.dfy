// The cron endpoint of app/api/cron/route.ts: a bearer-secret check, the niche and upload
// count defaults, and the envelope around the daily batch.

module CronRoute {
  import opened Common
  import opened Automation

  /** The parts of the request the handler reads; a header or query parameter that is absent
      is None. */
  datatype CronRequest = CronRequest(authorization: Option<string>, niche: Option<string>, uploads: Option<string>)

  /** `CRON_SECRET` and `DESIGN_NICHE`; an unset variable is None. */
  datatype CronEnv = CronEnv(cronSecret: Option<string>, designNiche: Option<string>)

  datatype CronResponse =
    | Completed(message: string, results: seq<DesignResult>)
    | CronError(status: int, error: string)

  const DefaultSecret := "your-secret-key"
  const DefaultNiche := "motivational quotes"
  const DefaultUploads := "3"
  const CompletedMessage := "Daily automation completed"
  const UnauthorizedMessage := "Unauthorized"

  /** `process.env.CRON_SECRET || 'your-secret-key'`. */
  function CronSecret(env: CronEnv): (secret: string)
    ensures Truthy(env.cronSecret) ==> secret == env.cronSecret.value
    ensures !Truthy(env.cronSecret) ==> secret == DefaultSecret
    ensures secret != ""
  {
    OrElse(env.cronSecret, DefaultSecret)
  }

  const BearerPrefix := "Bearer "

  /** The header equals `Bearer ${cronSecret}` exactly: a configured secret is the only token
      accepted, and a bare `Bearer ` with an empty token never is. */
  predicate Authorized(req: CronRequest, env: CronEnv): (ok: bool)
    ensures ok ==> req.authorization.Some? && BearerPrefix <= req.authorization.value
    ensures ok ==> req.authorization.value[|BearerPrefix|..] == CronSecret(env)
    ensures req.authorization == Some(BearerPrefix) ==> !ok
    ensures Truthy(env.cronSecret) ==> (ok <==> req.authorization == Some(BearerPrefix + env.cronSecret.value))
  {
    req.authorization == Some(BearerPrefix + CronSecret(env))
  }

  /** `searchParams.get('niche') || process.env.DESIGN_NICHE || 'motivational quotes'`. */
  function CronNiche(req: CronRequest, env: CronEnv): (niche: string)
    ensures Truthy(req.niche) ==> niche == req.niche.value
    ensures !Truthy(req.niche) && Truthy(env.designNiche) ==> niche == env.designNiche.value
    ensures !Truthy(req.niche) && !Truthy(env.designNiche) ==> niche == DefaultNiche
    ensures niche != ""
  {
    if Truthy(req.niche) then req.niche.value else OrElse(env.designNiche, DefaultNiche)
  }

  /** `searchParams.get('uploads') || '3'`, the text handed to `parseInt`. */
  function UploadsText(req: CronRequest): (text: string)
    ensures Truthy(req.uploads) ==> text == req.uploads.value
    ensures !Truthy(req.uploads) ==> text == DefaultUploads
  {
    OrElse(req.uploads, DefaultUploads)
  }

  /** The upload count: `parseInt` yields None for NaN, and a NaN count runs the loop zero
      times, as a count of 0 does. */
  function UploadCount(req: CronRequest, parseInt: string -> Option<int>): (n: int)
    ensures parseInt(UploadsText(req)).Some? ==> n == parseInt(UploadsText(req)).value
    ensures parseInt(UploadsText(req)).None? ==> Max(0, n) == 0
  {
    parseInt(UploadsText(req)).GetOr(0)
  }

  /** The response `GET` sends. */
  function CronResponseOf(req: CronRequest, env: CronEnv, parseInt: string -> Option<int>,
                          servicesFor: nat -> Services): (r: CronResponse)
    ensures r.CronError? <==> !Authorized(req, env)
    ensures r.CronError? ==> r == CronError(401, UnauthorizedMessage)
    ensures r.Completed? ==> r.message == CompletedMessage
    ensures r.Completed? ==>
      r.results == BatchResults(CronNiche(req, env), UploadCount(req, parseInt), servicesFor)
  {
    if !Authorized(req, env) then CronError(401, UnauthorizedMessage)
    else Completed(CompletedMessage, BatchResults(CronNiche(req, env), UploadCount(req, parseInt), servicesFor))
  }

  /** `GET`: an unauthorised request is answered 401 without running the automation; an
      authorised one runs the daily batch and returns its results unchanged. */
  method CronGet(req: CronRequest, env: CronEnv, parseInt: string -> Option<int>, servicesFor: nat -> Services)
    returns (response: CronResponse, ran: bool)
    ensures response == CronResponseOf(req, env, parseInt, servicesFor)
    ensures ran <==> Authorized(req, env)
  {
    if req.authorization != Some(BearerPrefix + CronSecret(env)) {
      return CronError(401, UnauthorizedMessage), false;
    }
    var niche := CronNiche(req, env);
    var uploadsPerDay := UploadCount(req, parseInt);
    var results, events, successCount := RunDailyAutomation(niche, uploadsPerDay, servicesFor);
    response := Completed(CompletedMessage, results);
    ran := true;
  }

  /** `POST` delegates to `GET`. */
  method CronPost(req: CronRequest, env: CronEnv, parseInt: string -> Option<int>, servicesFor: nat -> Services)
    returns (response: CronResponse, ran: bool)
    ensures response == CronResponseOf(req, env, parseInt, servicesFor)
    ensures ran <==> Authorized(req, env)
  {
    response, ran := CronGet(req, env, parseInt, servicesFor);
  }

  /** With neither query parameter nor environment set, an authorised call runs three designs
      for "motivational quotes" when `parseInt` reads "3" as 3. */
  lemma DefaultsRunThreeMotivationalDesigns(req: CronRequest, env: CronEnv, parseInt: string -> Option<int>,
                                            servicesFor: nat -> Services)
    requires req.niche.None? && req.uploads.None? && env.designNiche.None?
    requires Authorized(req, env) && parseInt(DefaultUploads) == Some(3)
    ensures var r := CronResponseOf(req, env, parseInt, servicesFor);
      r.Completed? && |r.results| == 3 &&
      forall i :: 0 <= i < 3 ==> r.results[i] == GenerateAndUploadDesign(DefaultNiche, servicesFor(i)).result
  {
  }

  /** Without `CRON_SECRET` only the literal default secret authorises a request. */
  lemma DefaultSecretAuthorises(req: CronRequest, env: CronEnv)
    requires !Truthy(env.cronSecret)
    ensures Authorized(req, env) <==> req.authorization == Some(BearerPrefix + DefaultSecret)
  {
  }
}
