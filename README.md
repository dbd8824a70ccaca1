# Redbubble design automation: a verified model of its core

This project models the deterministic core of a Next.js application. The application generates
print-on-demand designs and publishes them to Redbubble. One run of its pipeline does five
things in order:

- analyses trends for a niche;
- picks a design concept;
- has DALL-E draw an image and downloads it;
- writes the title, description and tags;
- uploads the listing, in a simulated way.

A daily batch repeats the run. Three HTTP routes trigger the batch or a single run, or register
a schedule.

Every call into OpenAI, `JSON.parse`, axios or the uploader is an abstract outcome,
`Step<T> = Done(value) | Threw(thrown)`. A thrown value is either an `Error` with a message or
some other value. The model keeps the branches, defaults, constants and error messages of the
TypeScript code. It proves what the code promises about them.

Modules, one per source file, plus `Common`:

- `Common`: JavaScript optional values and truthiness, thrown values and step outcomes, and
  sequence helpers.
- `TrendAnalyzer` (lib/trendAnalyzer.ts): field defaults, the fallback analysis, and the
  random selection of an idea. The `Math.random()` value is a parameter `draw` in `[0, 1)`.
- `ImageGenerator` (lib/imageGenerator.ts): response validation, error rewrapping, and the
  download error mapping.
- `SeoOptimizer` (lib/seoOptimizer.ts):
  - tag padding, as an imperative loop proved against a function;
  - title and description defaults;
  - the fallback content;
  - `optimizeTags`.
- `Automation` (lib/automation.ts):
  - the five-step pipeline, as a function over step outcomes that also records which steps it
    called and what its catch block caught;
  - the daily batch, as a loop method that appends results and records when it runs and when
    it waits.
- `ScheduleRoute` (app/api/schedule/route.ts):
  - the module-level registry, as a class with a `seq` field;
  - `POST` validation and append;
  - the step-by-step next-run computation, over a day number and milliseconds of the day;
  - `GET`.
- `CronRoute` (app/api/cron/route.ts): the bearer check, the niche and upload-count defaults,
  the envelope, and `POST` delegating to `GET`.
- `GenerateRoute` (app/api/generate-and-upload/route.ts): the niche and API-key guards, and the
  status chosen from the pipeline's result.

**Tag count.** The comment at lib/seoOptimizer.ts:51 says "Ensure we have exactly 15 tags", and
the prompt at line 40 asks for exactly 15. The code produces at most 15:

- a list shorter than 15 always reaches 15 when the padding candidates are pairwise distinct
  (`SeoOptimizer.PaddingReachesFifteen`);
- a niche that makes two candidates equal can leave it short: for the niche `"cool"` the
  candidate `"cool"` occurs twice, and padding an empty list falls short
  (`SeoOptimizer.CoolNicheFallsShort`);
- fifteen or more parsed tags are cut to their first 15.

## Model

| member | source | states |
|---|---|---|
| Common.MessageOr | lib/automation.ts:51 | `error instanceof Error ? error.message : fallback`: an `Error` gives its message, any other thrown value gives the fallback |
| TrendAnalyzer.FallbackTrends | lib/trendAnalyzer.ts:50-73 | the fallback has exactly 5 ideas, 5 keywords and 5 themes; the first keyword is the niche itself, and every idea and every keyword contains the niche |
| TrendAnalyzer.AnalyzeTrends | lib/trendAnalyzer.ts:39-74 | a thrown completion or parse gives the fallback; a parsed object keeps each field it has and defaults each missing field to `[]`, so the analysis may be empty |
| TrendAnalyzer.SelectIndex | lib/trendAnalyzer.ts:79 | `Math.floor(Math.random() * n)` lies in `[0, n)` for `n > 0` and is 0 for `n = 0` |
| TrendAnalyzer.EveryIndexSelectable | lib/trendAnalyzer.ts:79 | every index below `n` is selected by some random draw |
| TrendAnalyzer.SelectedIdea | lib/trendAnalyzer.ts:79 | the selected idea is an element of `ideas` when there are ideas, and `undefined` when there are none |
| TrendAnalyzer.Render | lib/seoOptimizer.ts:85 | an interpolated concept reads as its text, or as `"undefined"` when it is undefined |
| TrendAnalyzer.GenerateDesignConcept | lib/trendAnalyzer.ts:77-103 | the concept is the generated text when that is non-empty, and the selected idea otherwise, including when the call throws; with ideas it is always defined and, after a throw, one of the ideas; with no ideas and a throw it is undefined |
| ImageGenerator.Rewrap | lib/imageGenerator.ts:44-47 | the rethrown error is an `Error` whose message is `Failed to generate image: ` followed by the caught message, or by `Unknown error` |
| ImageGenerator.GenerateImage | lib/imageGenerator.ts:10-48 | every error leaving it carries the prefix; missing or empty `data` and a missing or empty first URL each give their own message; success means the guards passed and carries the first element's non-empty URL and the bytes downloaded from it; with a valid URL it succeeds exactly when the download does, and a failed download is rethrown with the prefix followed by the download's own message |
| ImageGenerator.DownloadImage | lib/imageGenerator.ts:50-61 | any failure surfaces as the single message `Failed to download image`; it succeeds exactly when the request does, with the same bytes |
| SeoOptimizer.AdditionalTags | lib/seoOptimizer.ts:55-71 | 15 candidates; the first is the niche, the first seven contain it, and the tenth is `"cool"` |
| SeoOptimizer.PaddedTags | lib/seoOptimizer.ts:52-81 | the final tag list never has more than 15 entries |
| SeoOptimizer.PadTags | lib/seoOptimizer.ts:52-81 | the padding loop with its `break`, which extends `tags` in place, and the slice compute `PaddedTags` |
| SeoOptimizer.PadIsCappedFresh | lib/seoOptimizer.ts:73-78 | padding in candidate order and stopping at 15 is the same as appending every fresh candidate and cutting to 15 |
| SeoOptimizer.FreshIsNewAndDistinct | lib/seoOptimizer.ts:73-78 | padding never appends a tag already present, including one appended earlier in the same loop, and appends only candidates |
| SeoOptimizer.FreshCount | lib/seoOptimizer.ts:73-78 | padding can append as many tags as there are distinct candidates not already present |
| SeoOptimizer.PaddedTagsShape | lib/seoOptimizer.ts:52-81 | 15 or more parsed tags become their first 15; fewer stay a prefix of the result, followed by distinct candidates not already present, in candidate order |
| SeoOptimizer.PaddedTagsLength | lib/seoOptimizer.ts:52-81 | with fewer than 15 parsed tags, the length is `min(15, parsed length + number of distinct candidates not already present)` |
| SeoOptimizer.PaddingReachesFifteen | lib/seoOptimizer.ts:51-81 | when the candidates are pairwise distinct, padding reaches exactly 15 |
| SeoOptimizer.CollidingNicheFallsShort | lib/seoOptimizer.ts:53-81 | when the niche makes two candidates equal, an empty tag list is padded to fewer than 15 |
| SeoOptimizer.CoolNicheFallsShort | lib/seoOptimizer.ts:55-71 | the niche `"cool"` makes two candidates equal, and its padded list falls short of 15 |
| SeoOptimizer.FallbackTags | lib/seoOptimizer.ts:95-111 | the fallback tag list has exactly 15 entries, starting with the niche |
| SeoOptimizer.FallbackSEO | lib/seoOptimizer.ts:88-112 | on failure, the content has exactly 15 tags and the title `Amazing ${niche} Design - Must Have!` |
| SeoOptimizer.ParsedSEOContent | lib/seoOptimizer.ts:48-87 | a truthy parsed title or description is kept; a falsy one is replaced by the niche-based default; the tags are the padded tags |
| SeoOptimizer.SEOContentOf | lib/seoOptimizer.ts:20-113 | at most 15 tags, and exactly 15 after a failure |
| SeoOptimizer.DescriptionMentionsConcept | lib/seoOptimizer.ts:85-94 | unless the model wrote its own description, the description contains the concept |
| SeoOptimizer.GenerateSEOContent | lib/seoOptimizer.ts:15-114 | `generateSEOContent`, whose tag padding runs as a loop, returns `SEOContentOf` |
| SeoOptimizer.Dedup | lib/seoOptimizer.ts:118 | `[...new Set(tags)]` is repetition-free, has exactly the elements of the input, lists them in order of their first occurrence in the input, and leaves a repetition-free list as it is |
| SeoOptimizer.ToLower | lib/seoOptimizer.ts:122 | the lower-cased tag has the same length; each letter `A`-`Z` becomes the letter 32 code points higher, `a`-`z`, and every other character is unchanged |
| SeoOptimizer.TrimStart | lib/seoOptimizer.ts:122 | the result is a suffix, only whitespace was removed, and it does not start with whitespace |
| SeoOptimizer.TrimEnd | lib/seoOptimizer.ts:122 | the result is a prefix, only whitespace was removed, and it does not end with whitespace |
| SeoOptimizer.Trim | lib/seoOptimizer.ts:122 | `trim()` gives a contiguous slice of the tag such that everything before and after it is whitespace, and the slice neither starts nor ends with whitespace |
| SeoOptimizer.TrimIsInner | lib/seoOptimizer.ts:122 | cutting leading and then trailing whitespace leaves the slice that starts where the leading whitespace ends, with only whitespace around it |
| SeoOptimizer.SliceKeepsInner | lib/seoOptimizer.ts:122 | cutting only whitespace from the ends keeps every non-whitespace character |
| SeoOptimizer.TrimCounts | lib/seoOptimizer.ts:122 | trimming keeps every non-whitespace character as many times as it occurs |
| SeoOptimizer.StripDisallowed | lib/seoOptimizer.ts:122 | `replace(/[^a-z0-9\s-]/g, '')` leaves only allowed characters, no longer than the input, and changes nothing when all are allowed |
| SeoOptimizer.StripFilters | lib/seoOptimizer.ts:122 | stripping is an order-preserving filter: the result is a subsequence of the input holding each allowed character exactly as often as the input does, and no other character |
| SeoOptimizer.CleanTag | lib/seoOptimizer.ts:121-123 | a cleaned tag holds only lower-case letters, digits, whitespace and `-`; it is a subsequence of the lower-cased tag, no longer than the tag, and holds each allowed non-whitespace character exactly as often as the lower-cased tag does; a tag made only of whitespace cleans to the empty tag, and a tag with nothing to strip cleans to its lower-cased form trimmed at both ends |
| SeoOptimizer.CleanTagKeeps | lib/seoOptimizer.ts:121-123 | lower-casing, trimming and stripping in this order keep the order of the characters and every allowed non-whitespace one with its multiplicity |
| SeoOptimizer.StrippedEdgeLeavesBlank | lib/seoOptimizer.ts:122 | trimming runs before stripping, so a tag that starts with a stripped character followed by whitespace is cleaned to a tag that starts with that whitespace, as `"! a"` becomes `" a"` |
| SeoOptimizer.CleanAll | lib/seoOptimizer.ts:121-123 | `map` gives the cleaning of each tag at its position |
| SeoOptimizer.NonEmpty | lib/seoOptimizer.ts:125 | `filter(tag => tag.length > 0)` keeps only non-empty tags taken from the list, and no more than it holds |
| SeoOptimizer.NonEmptyFilters | lib/seoOptimizer.ts:125 | the filter is order-preserving: the result is a subsequence of the list holding each non-empty tag exactly as often as the list does, and no empty tag |
| SeoOptimizer.NonEmptyKeeps | lib/seoOptimizer.ts:125 | no non-empty tag is filtered out |
| SeoOptimizer.KeptTagsAllowed | lib/seoOptimizer.ts:121-125 | every tag the filter keeps holds only allowed characters |
| SeoOptimizer.OptimizeTags | lib/seoOptimizer.ts:116-126 | at most 15 tags, no more than were given, each non-empty and made only of lower-case letters, digits, whitespace and `-`; they are a subsequence of the cleanings of the distinct input tags in first-occurrence order, and there are `min(15, n)` of them, where `n` is the number of those cleanings that are non-empty; they are the first `min(15, n)` of those non-empty cleanings, a prefix of them |
| SeoOptimizer.OptimizeKeepsEveryTag | lib/seoOptimizer.ts:116-126 | when at most 15 cleanings are non-empty, every input tag with a non-empty cleaning has that cleaning in the result |
| SeoOptimizer.CaseVariantsSurviveDedup | lib/seoOptimizer.ts:116-125 | two different tags that differ only in letter case both survive deduplication, which runs before cleaning, and come out as the same tag twice |
| SeoOptimizer.LetterSurvivesCleaning | lib/seoOptimizer.ts:122 | a tag with a letter is not cleaned to the empty string |
| SeoOptimizer.CatAndCatCollide | lib/seoOptimizer.ts:116-125 | `["Cat", "cat"]` yields two equal tags |
| Automation.GenerateAndUploadDesign | lib/automation.ts:15-54 | a result is either a success with every content field and no error, or a failure with an error and no content; the steps called are a prefix of trends, concept, image, SEO, upload; the run succeeds exactly when all five steps settle, each called with what the earlier ones produced, and then all five ran and nothing was caught; a caught value becomes the error message or `Unknown error occurred`; a trends failure stops after one step |
| Automation.FailingStepEndsRun | lib/automation.ts:15-54 | for each of the five steps: when the steps before it settle and it throws, the run fails with what it threw, has called exactly the steps up to and including it, and caught that value |
| Automation.SuccessCarriesStepOutputs | lib/automation.ts:30-45 | when every step settles, the result is a success with the SEO title, description and tags and the image URL, whatever boolean the upload returned |
| Automation.ImageFailureSkipsLaterSteps | lib/automation.ts:24-35 | an image failure ends the run after three steps: neither SEO nor upload is called, and the error is the thrown message |
| Automation.SourceServices | lib/redbubbleUploader.ts:130-141 | with the repository's own steps, trend analysis, concept generation and SEO generation always settle, the upload is `simulateUpload`, which always returns true, and image generation is `generateImage` over the run's image and download outcomes |
| Automation.OnlyImageStepFails | lib/automation.ts:18-53 | with the repository's own steps, only image generation can fail; a failure reports the `Failed to generate image: ` prefix, and a success carries at most 15 tags and a non-empty URL |
| Automation.BatchResults | lib/automation.ts:59-66 | a batch of `n` runs has `max(0, n)` entries; entry `i` is the result of the i-th run, and each is well formed |
| Automation.Successes | lib/automation.ts:82 | `results.filter(r => r.success)` keeps only successes from the batch, and no more than the batch holds |
| Automation.SuccessesFilters | lib/automation.ts:82 | the filter is order-preserving: the result is a subsequence of the batch holding each successful result exactly as often as the batch does, and no failure |
| Automation.AllSucceededIff | lib/automation.ts:82-83 | the success count equals the number of runs exactly when every run succeeded |
| Automation.SuccessIsCounted | lib/automation.ts:82 | any successful entry makes the success count positive |
| Automation.RunDailyAutomation | lib/automation.ts:56-86 | the loop appends one result per run in invocation order without retry or abort; its events are run 0, wait, run 1, wait, …, run n-1, so there are `max(0, n - 1)` waits, each between two consecutive runs and none before the first or after the last; it counts the successes, at most `max(0, n)` |
| ScheduleRoute.Accepts | app/api/schedule/route.ts:15 | an accepted body has a non-empty niche and a count; an empty niche or a count of 0 is refused, and a negative count is accepted |
| ScheduleRoute.NextNineAm | app/api/schedule/route.ts:23-28 | the next run is at 09:00:00.000, strictly after now, today or tomorrow |
| ScheduleRoute.NextNineAmIsEarliest | app/api/schedule/route.ts:23-28 | no 09:00 after now comes earlier than the next run |
| ScheduleRoute.NextRun | app/api/schedule/route.ts:23-28 | `setHours(9, 0, 0, 0)`, then `setDate(+1)` when that is not after now, computes `NextNineAm` |
| ScheduleRoute.ScheduleRegistry.constructor | app/api/schedule/route.ts:4-8 | the registry starts empty |
| ScheduleRoute.ScheduleRegistry.Post | app/api/schedule/route.ts:10-54 | a falsy niche or falsy count, including 0, gives 400 and leaves the registry unchanged; a body that fails to parse gives 500; an accepted request appends exactly one task with the next 09:00; the registry only grows |
| ScheduleRoute.ScheduleRegistry.Get | app/api/schedule/route.ts:56-65 | every task, in insertion order, unchanged |
| ScheduleRoute.ScheduleTwice | app/api/schedule/route.ts:30-34 | scheduling the same niche twice keeps two equal tasks rather than merging them |
| CronRoute.CronSecret | app/api/cron/route.ts:9 | the secret is `CRON_SECRET` when set and non-empty, and `your-secret-key` otherwise |
| CronRoute.Authorized | app/api/cron/route.ts:11 | an authorised header is `Bearer ` followed by exactly the secret; a bare `Bearer ` is never authorised, and with `CRON_SECRET` set only that secret is accepted |
| CronRoute.CronNiche | app/api/cron/route.ts:20 | the niche is the first non-empty of the query `niche`, `DESIGN_NICHE`, and `motivational quotes` |
| CronRoute.UploadsText | app/api/cron/route.ts:21 | the upload text is the query `uploads`, or `"3"` when that is absent or empty |
| CronRoute.UploadCount | app/api/cron/route.ts:21 | a parsed count is used as it is, and a NaN count runs no design |
| CronRoute.CronResponseOf | app/api/cron/route.ts:5-43 | 401 `Unauthorized` exactly when the header is not `Bearer ` followed by the secret; otherwise `Daily automation completed` with the batch results unchanged |
| CronRoute.CronGet | app/api/cron/route.ts:5-43 | `GET` answers `CronResponseOf`, and runs the automation exactly when the request is authorised |
| CronRoute.CronPost | app/api/cron/route.ts:46-48 | `POST` behaves exactly as `GET` |
| CronRoute.DefaultsRunThreeMotivationalDesigns | app/api/cron/route.ts:20-25 | with no parameters and no environment set, an authorised call runs three `motivational quotes` designs |
| CronRoute.DefaultSecretAuthorises | app/api/cron/route.ts:8-16 | without `CRON_SECRET`, only `Bearer your-secret-key` is authorised |
| GenerateRoute.Post | app/api/generate-and-upload/route.ts:4-45 | a falsy niche gives 400 `Niche is required`, and a missing key gives 500, both without calling the pipeline; an unparsable body gives a 500 envelope; otherwise the pipeline result is returned unchanged, with status 200 exactly when it succeeded and 500 when it failed |
| GenerateRoute.NicheCheckedBeforeKey | app/api/generate-and-upload/route.ts:9-25 | the niche is checked before the key: without a niche the answer is 400 whatever the key |

## Left out

- OpenAI chat and image calls, `JSON.parse`, axios and the uploader are abstract step outcomes. Prompts, models and temperatures are not modelled. The keywords passed to `generateSEOContent` only shape its prompt, so the model ignores them.
- A parsed object is assumed to have string-valued `title`/`description` and list-valued `tags`/`ideas`/`keywords`/`popularThemes`. Other JSON shapes are not modelled.
- The puppeteer browser automation of lib/redbubbleUploader.ts is not part of this model. The upload is a step whose boolean result the pipeline ignores; `SourceServices` wires it as `simulateUpload`, which always returns true.
- `console` logging throughout, including the logged success count. The count is returned instead.
- `setTimeout` delays are recorded as `Wait` events, not timed, and never fail.
- The default argument `uploadsPerDay = 3` of `runDailyAutomation` (lib/automation.ts:56) is left out: its only caller, the cron route, always passes a count, whose own default `"3"` is modelled.
- `SelectIndex`: `Math.random() * n` is computed exactly in `real`, not in double precision. The index is `floor(draw * n)`; rounding of the double-precision product is not modelled.
- `Automation.RunDailyAutomation`: the per-run `catch` is not modelled, because `generateAndUploadDesign` never throws. For the same reason the `catch` block of the cron route is left out.
- The upload count reaches the batch through `parseInt`, passed in as a function. NaN is None and runs zero times, like a count of 0.
- `ScheduleRoute`:
  - `Date`, time zones and daylight-saving transitions are left out. Time is a day number plus milliseconds of the local day.
  - The two readings of the clock are one instant `now`.
  - `toISOString` formatting is left out, and so is the text of the success message, which only interpolates `uploadsPerDay`.
  - `uploadsPerDay` is an integer. A non-numeric or fractional JSON value is not modelled.
- `optimizeTags` is restricted to ASCII: non-ASCII `toLowerCase` and the Unicode characters of `\s` and of `trim` are left out. Nothing in the core calls `optimizeTags`.
- `NextRequest`/`NextResponse` are left out. Request fields and environment variables are parameters, and statuses are integers.
- app/page.tsx, app/layout.tsx and next.config.mjs (UI and configuration) are not part of this model.
