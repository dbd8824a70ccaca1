// The automation pipeline of lib/automation.ts: one design run of five steps, and the daily
// batch that repeats it.

module Automation {
  import opened Common
  import opened TrendAnalyzer
  import opened ImageGenerator
  import opened SeoOptimizer

  /** `DesignResult`; an optional field the object leaves out is None. */
  datatype DesignResult = DesignResult(
    success: bool,
    title: Option<string>,
    description: Option<string>,
    tags: Option<seq<string>>,
    imageUrl: Option<string>,
    error: Option<string>)

  /** The fields handed to the upload step. */
  datatype UploadData = UploadData(title: string, description: string, tags: seq<string>, imageBuffer: seq<bv8>)

  /** What each awaited call of one run settles to, given its arguments. */
  datatype Services = Services(
    analyzeTrends: string -> Step<TrendAnalysis>,
    generateDesignConcept: (string, TrendAnalysis) -> Step<Concept>,
    generateImage: Concept -> Step<GeneratedImage>,
    generateSEOContent: (string, Concept, seq<string>) -> Step<SEOContent>,
    upload: UploadData -> Step<bool>)

  datatype StepName = Trends | DesignConcept | Image | Seo | Upload

  const AllSteps := [Trends, DesignConcept, Image, Seo, Upload]

  /** The result of one run, the steps it called in call order, and what its catch block
      caught, if anything. */
  datatype PipelineRun = PipelineRun(result: DesignResult, calls: seq<StepName>, caught: Option<Thrown>)

  const UnknownPipelineError := "Unknown error occurred"

  function Success(title: string, description: string, tags: seq<string>, imageUrl: string): DesignResult {
    DesignResult(true, Some(title), Some(description), Some(tags), Some(imageUrl), None)
  }

  /** The record the catch block builds from what was thrown. */
  function Failure(t: Thrown): DesignResult {
    DesignResult(false, None, None, None, None, Some(MessageOr(t, UnknownPipelineError)))
  }

  /** A result is either a success with every content field and no error, or a failure with
      an error and no content field. */
  predicate WellFormed(r: DesignResult) {
    if r.success then
      r.title.Some? && r.description.Some? && r.tags.Some? && r.imageUrl.Some? && r.error.None?
    else
      r.title.None? && r.description.None? && r.tags.None? && r.imageUrl.None? && r.error.Some?
  }

  /** Every awaited call of the run settles: each step is called with what the steps before it
      produced, as `generateAndUploadDesign` passes them on. */
  predicate AllStepsSettle(niche: string, sv: Services) {
    var trends := sv.analyzeTrends(niche);
    trends.Done? &&
    var concept := sv.generateDesignConcept(niche, trends.value);
    concept.Done? &&
    var image := sv.generateImage(concept.value);
    image.Done? &&
    var seo := sv.generateSEOContent(niche, concept.value, trends.value.keywords);
    seo.Done? &&
    sv.upload(UploadData(seo.value.title, seo.value.description, seo.value.tags, image.value.imageBuffer)).Done?
  }

  /** `generateAndUploadDesign`: the five steps in order; the first one that throws ends the
      run with a failure record, and the upload's boolean is not looked at. */
  function GenerateAndUploadDesign(niche: string, sv: Services): (run: PipelineRun)
    ensures WellFormed(run.result)
    ensures 1 <= |run.calls| <= |AllSteps| && run.calls == AllSteps[..|run.calls|]
    ensures run.result.success <==> AllStepsSettle(niche, sv)
    ensures run.result.success ==> run.calls == AllSteps
    ensures run.result.success <==> run.caught.None?
    ensures run.caught.Some? ==> run.result == Failure(run.caught.value)
    ensures sv.analyzeTrends(niche).Threw? <==> run.calls == [Trends]
    ensures sv.analyzeTrends(niche).Threw? ==> run.caught == Some(sv.analyzeTrends(niche).thrown)
  {
    match sv.analyzeTrends(niche)
    case Threw(e) => PipelineRun(Failure(e), [Trends], Some(e))
    case Done(trends) =>
      match sv.generateDesignConcept(niche, trends)
      case Threw(e) => PipelineRun(Failure(e), [Trends, DesignConcept], Some(e))
      case Done(concept) =>
        match sv.generateImage(concept)
        case Threw(e) => PipelineRun(Failure(e), [Trends, DesignConcept, Image], Some(e))
        case Done(image) =>
          match sv.generateSEOContent(niche, concept, trends.keywords)
          case Threw(e) => PipelineRun(Failure(e), [Trends, DesignConcept, Image, Seo], Some(e))
          case Done(seo) =>
            var data := UploadData(seo.title, seo.description, seo.tags, image.imageBuffer);
            match sv.upload(data)
            case Threw(e) => PipelineRun(Failure(e), AllSteps, Some(e))
            case Done(_) => PipelineRun(Success(seo.title, seo.description, seo.tags, image.imageUrl), AllSteps, None)
  }

  /** When every step settles, the run succeeds with the SEO step's title, description and tags
      and the image step's URL, whatever boolean the upload returned. */
  lemma SuccessCarriesStepOutputs(niche: string, sv: Services, trends: TrendAnalysis, concept: Concept,
                                  image: GeneratedImage, seo: SEOContent, uploaded: bool)
    requires sv.analyzeTrends(niche) == Done(trends)
    requires sv.generateDesignConcept(niche, trends) == Done(concept)
    requires sv.generateImage(concept) == Done(image)
    requires sv.generateSEOContent(niche, concept, trends.keywords) == Done(seo)
    requires sv.upload(UploadData(seo.title, seo.description, seo.tags, image.imageBuffer)) == Done(uploaded)
    ensures GenerateAndUploadDesign(niche, sv)
         == PipelineRun(Success(seo.title, seo.description, seo.tags, image.imageUrl), AllSteps, None)
  {
  }

  /** A failure of the image step ends the run there: neither the SEO step nor the upload is
      called, and the error is the thrown message. */
  lemma ImageFailureSkipsLaterSteps(niche: string, sv: Services, trends: TrendAnalysis, concept: Concept, e: Thrown)
    requires sv.analyzeTrends(niche) == Done(trends)
    requires sv.generateDesignConcept(niche, trends) == Done(concept)
    requires sv.generateImage(concept) == Threw(e)
    ensures var run := GenerateAndUploadDesign(niche, sv);
      run == PipelineRun(Failure(e), [Trends, DesignConcept, Image], Some(e)) && Seo !in run.calls && Upload !in run.calls
  {
  }

  /** Whichever step throws, the run ends there: the steps up to and including it were called,
      no later one was, and the failure record carries what that step threw. */
  lemma FailingStepEndsRun(niche: string, sv: Services, trends: TrendAnalysis, concept: Concept,
                           image: GeneratedImage, seo: SEOContent, e: Thrown)
    ensures var run := GenerateAndUploadDesign(niche, sv);
      sv.analyzeTrends(niche) == Threw(e) ==>
        run == PipelineRun(Failure(e), AllSteps[..1], Some(e))
    ensures var run := GenerateAndUploadDesign(niche, sv);
      sv.analyzeTrends(niche) == Done(trends) && sv.generateDesignConcept(niche, trends) == Threw(e) ==>
        run == PipelineRun(Failure(e), AllSteps[..2], Some(e))
    ensures var run := GenerateAndUploadDesign(niche, sv);
      sv.analyzeTrends(niche) == Done(trends) && sv.generateDesignConcept(niche, trends) == Done(concept)
      && sv.generateImage(concept) == Threw(e) ==>
        run == PipelineRun(Failure(e), AllSteps[..3], Some(e))
    ensures var run := GenerateAndUploadDesign(niche, sv);
      sv.analyzeTrends(niche) == Done(trends) && sv.generateDesignConcept(niche, trends) == Done(concept)
      && sv.generateImage(concept) == Done(image) && sv.generateSEOContent(niche, concept, trends.keywords) == Threw(e) ==>
        run == PipelineRun(Failure(e), AllSteps[..4], Some(e))
    ensures var run := GenerateAndUploadDesign(niche, sv);
      sv.analyzeTrends(niche) == Done(trends) && sv.generateDesignConcept(niche, trends) == Done(concept)
      && sv.generateImage(concept) == Done(image) && sv.generateSEOContent(niche, concept, trends.keywords) == Done(seo)
      && sv.upload(UploadData(seo.title, seo.description, seo.tags, image.imageBuffer)) == Threw(e) ==>
        run == PipelineRun(Failure(e), AllSteps[..5], Some(e))
  {
    assert AllSteps[..1] == [Trends];
    assert AllSteps[..2] == [Trends, DesignConcept];
    assert AllSteps[..3] == [Trends, DesignConcept, Image];
    assert AllSteps[..4] == [Trends, DesignConcept, Image, Seo];
    assert AllSteps[..5] == AllSteps;
  }

  /** The steps as lib/trendAnalyzer.ts, lib/imageGenerator.ts, lib/seoOptimizer.ts and the
      simulated upload implement them, given the outcomes of the remote calls of one run;
      `fetch` is what the image download settles to for a URL. */
  function SourceServices(trendsCompletion: Step<ParsedTrends>, draw: Draw, conceptCompletion: Step<Option<string>>,
                          generation: Step<ImageResponse>, fetch: string -> Step<seq<bv8>>,
                          seoCompletion: Step<ParsedSEO>): (sv: Services)
    ensures forall niche :: sv.analyzeTrends(niche).Done?
    ensures forall niche, trends :: sv.generateDesignConcept(niche, trends).Done?
    ensures forall concept :: sv.generateImage(concept) == GenerateImage(generation, fetch)
    ensures forall niche, concept, keywords :: sv.generateSEOContent(niche, concept, keywords).Done?
    ensures forall data :: sv.upload(data) == Done(true)
  {
    Services(
      niche => Done(AnalyzeTrends(niche, trendsCompletion)),
      (niche, trends) => Done(GenerateDesignConcept(niche, trends, draw, conceptCompletion)),
      concept => GenerateImage(generation, fetch),
      (niche, concept, keywords) => Done(SEOContentOf(niche, concept, seoCompletion)),
      data => Done(true))
  }

  /** With the steps the repository wires in, only image generation can fail: a failed run
      called exactly three steps and reports a message with the image prefix, and a successful
      run carries at most fifteen tags and a non-empty image URL. */
  lemma OnlyImageStepFails(niche: string, trendsCompletion: Step<ParsedTrends>, draw: Draw,
                           conceptCompletion: Step<Option<string>>, generation: Step<ImageResponse>,
                           fetch: string -> Step<seq<bv8>>, seoCompletion: Step<ParsedSEO>)
    ensures var run := GenerateAndUploadDesign(niche,
              SourceServices(trendsCompletion, draw, conceptCompletion, generation, fetch, seoCompletion));
      && (run.result.success ==> |run.result.tags.value| <= MaxTags && run.result.imageUrl.value != "")
      && (!run.result.success ==> run.calls == [Trends, DesignConcept, Image] && FailurePrefix <= run.result.error.value)
  {
    var sv := SourceServices(trendsCompletion, draw, conceptCompletion, generation, fetch, seoCompletion);
    var trends := AnalyzeTrends(niche, trendsCompletion);
    var concept := GenerateDesignConcept(niche, trends, draw, conceptCompletion);
    assert sv.analyzeTrends(niche) == Done(trends);
    assert sv.generateDesignConcept(niche, trends) == Done(concept);
    var image := GenerateImage(generation, fetch);
    assert sv.generateImage(concept) == image;
    if image.Done? {
      var seo := SEOContentOf(niche, concept, seoCompletion);
      assert sv.generateSEOContent(niche, concept, trends.keywords) == Done(seo);
      SuccessCarriesStepOutputs(niche, sv, trends, concept, image.value, seo, true);
    } else {
      ImageFailureSkipsLaterSteps(niche, sv, trends, concept, image.thrown);
    }
  }

  // ---------------------------------------------------------------------------------------
  // runDailyAutomation
  // ---------------------------------------------------------------------------------------

  /** The results of `n` runs in invocation order; `servicesFor(i)` is what the calls of the
      i-th run settle to. */
  function BatchResults(niche: string, n: int, servicesFor: nat -> Services): (rs: seq<DesignResult>)
    ensures |rs| == Max(0, n)
    ensures forall i :: 0 <= i < |rs| ==> rs[i] == GenerateAndUploadDesign(niche, servicesFor(i)).result
    ensures forall i :: 0 <= i < |rs| ==> WellFormed(rs[i])
  {
    var rs := seq(Max(0, n), i requires 0 <= i => GenerateAndUploadDesign(niche, servicesFor(i)).result);
    assert forall i :: 0 <= i < |rs| ==> WellFormed(GenerateAndUploadDesign(niche, servicesFor(i)).result);
    rs
  }

  /** `results.filter(r => r.success)`. */
  function Successes(rs: seq<DesignResult>): (s: seq<DesignResult>)
    ensures |s| <= |rs|
    ensures forall i :: 0 <= i < |s| ==> s[i].success && s[i] in rs
  {
    if rs == [] then []
    else if rs[0].success then [rs[0]] + Successes(rs[1..])
    else Successes(rs[1..])
  }

  /** The filter keeps every successful result, as many times as it occurs, in batch order,
      and nothing else. */
  lemma {:induction false} SuccessesFilters(rs: seq<DesignResult>)
    ensures SubsequenceOf(Successes(rs), rs)
    ensures forall r :: multiset(Successes(rs))[r] == if r.success then multiset(rs)[r] else 0
  {
    if rs != [] {
      SuccessesFilters(rs[1..]);
      var rest := Successes(rs[1..]);
      assert rs == [rs[0]] + rs[1..];
      if rs[0].success {
        assert ([rs[0]] + rest)[1..] == rest;
      }
    }
  }

  /** The count reaches the number of runs exactly when every run succeeded. */
  lemma {:induction false} AllSucceededIff(rs: seq<DesignResult>)
    ensures |Successes(rs)| == |rs| <==> forall i :: 0 <= i < |rs| ==> rs[i].success
  {
    if rs != [] {
      AllSucceededIff(rs[1..]);
      if rs[0].success {
        forall i | 0 <= i < |rs| && forall j :: 0 <= j < |rs| - 1 ==> rs[1..][j].success
          ensures rs[i].success
        {
          if i > 0 { assert rs[i] == rs[1..][i - 1]; }
        }
      } else {
        assert |Successes(rs[1..])| <= |rs| - 1;
      }
    }
  }

  /** A success is counted, so every success in the batch makes the count positive. */
  lemma {:induction false} SuccessIsCounted(rs: seq<DesignResult>, i: nat)
    requires i < |rs| && rs[i].success
    ensures |Successes(rs)| >= 1
  {
    if i > 0 && !rs[0].success {
      SuccessIsCounted(rs[1..], i - 1);
    }
  }

  /** What the batch does, in time order: the i-th pipeline run, or the delay between runs. */
  datatype Event = Run(index: nat) | Wait

  /** `runDailyAutomation`: runs the pipeline `uploadsPerDay` times, appending every result,
      waits between consecutive runs (never before the first or after the last), and counts the
      successes. `events` is the order in which runs and waits happen. */
  method RunDailyAutomation(niche: string, uploadsPerDay: int, servicesFor: nat -> Services)
    returns (results: seq<DesignResult>, events: seq<Event>, successCount: nat)
    ensures results == BatchResults(niche, uploadsPerDay, servicesFor)
    ensures |events| == Max(0, 2 * uploadsPerDay - 1)
    ensures forall k :: 0 <= k < |events| ==> events[k] == if k % 2 == 0 then Run(k / 2) else Wait
    ensures successCount == |Successes(results)| && successCount <= Max(0, uploadsPerDay)
  {
    results := [];
    events := [];
    var i := 0;
    while i < uploadsPerDay
      invariant 0 <= i && i <= Max(0, uploadsPerDay)
      invariant |results| == i
      invariant forall j :: 0 <= j < i ==> results[j] == GenerateAndUploadDesign(niche, servicesFor(j)).result
      invariant |events| == if i < uploadsPerDay then 2 * i else Max(0, 2 * uploadsPerDay - 1)
      invariant forall k :: 0 <= k < |events| ==> events[k] == if k % 2 == 0 then Run(k / 2) else Wait
    {
      var run := GenerateAndUploadDesign(niche, servicesFor(i));
      results := results + [run.result];
      events := events + [Run(i)];
      if i < uploadsPerDay - 1 {
        events := events + [Wait];
      }
      i := i + 1;
    }
    successCount := |Successes(results)|;
  }
}
