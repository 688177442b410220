# Social video generator: script extraction, image jobs and segment updates

This project is a Dafny model of the logic in a Next.js app that turns a subject and a summary
into a short social-media video. It covers three core pieces. Each one is proved against a
specification.

- **Script stage** (app/api/generate-script/route.ts):
  - The required-field check.
  - The choice of which part of the LLM's reply goes to `JSON.parse`, in priority order:
    1. the block after a "```json" fence;
    2. otherwise the block after any "```" fence, with a leading `json` tag dropped;
    3. otherwise a brace-counting scan from the first `{`.
  - The handler's status codes and messages.
- **Image stage** (app/api/generate-images/route.ts):
  - `generateImage`, the text-to-image job client:
    - With no key, it returns a placeholder.
    - Otherwise it submits a job, then loops: wait 10 s, check the 300 s ceiling, query the status.
    - Every failure becomes a placeholder url plus an error message, or a rejection when the
      placeholder cannot be built.
  - The `POST` handler walks the segments in order. It writes each successful url into its
    segment in place and collects one `image_results` record per successful segment.
- **Client updates** (components/steps/image-generator.tsx):
  - Batch generation replaces the script and the image list, on success only.
  - Regenerating one image builds a one-segment request whose `prompt` falls back to the
    narration. On success it overwrites only that slot.
  - Attaching a voice-over sets `audio_path` on one segment only.

## How the outside world enters the model

Everything the code reaches outside itself is an input:

- The LLM reply (`LlmReply`).
- `JSON.parse`: a function `parse: string -> Option<J>`, where `None` means the call throws.
- `encodeURIComponent`: a function `encode: string -> Option<string>`, where `None` means it
  throws (a `URIError`).
- Whether each API key is set.
- The session id.
- For image jobs: the submission reply, the status replies `polls(k)`, and a millisecond clock:
  - `clock(0)` is `startTime`.
  - `clock(k + 1)` is `Date.now()` after the (k+1)-th wait.
  - The clock must strictly increase, because each wait lasts 10 s.
- For the batch: one such provider per segment.
- For the client: the replies of its `fetch` calls. `None` means the call or `response.json()`
  threw.

`requires` clauses ask for nothing the source does not demand. On the handlers and the job
they state only these facts about the clock, plus, for `GenerateVoice`, that the index names a
segment of the script, which the caller guarantees by passing the position of a listed segment
(components/steps/image-generator.tsx:285). The requires of helpers such as `SplitSecond` (that
the separator occurs) hold at every place they are called.

## Modules

| file | module | models |
|---|---|---|
| wrappers.dfy | Wrappers | `Option`, JavaScript truthiness of an optional string, `a \|\| b` |
| js_strings.dfy | JsStrings | `includes`, `indexOf`, `split(sep)[0]`, `split(sep)[1]`, `startsWith`, `trim`, decimal rendering |
| script_model.dfy | ScriptModel | segments, scripts, `image_results` records |
| json_extraction.dfy | JsonExtraction | span selection: fences, brace scan |
| generate_script.dfy | GenerateScript | the script stage's `POST` handler |
| image_job.dfy | ImageJob | `generateImage` |
| generate_images.dfy | GenerateImages | the image stage's `POST` handler and segment loop |
| image_generator.dfy | ImageGeneratorClient | `handleGenerateImages`, `handleRegenerateImage`, `handleGenerateVoice` |

## Behaviour worth noting

- **`image_results`:** a record is pushed only for a segment whose job reports no error
  (app/api/generate-images/route.ts:176-188); the model does the same.
- **The regeneration request:** the client sends the segment with `prompt` filled in. The
  server only ever reads `image_description`, so the filled-in `prompt` does not change the
  success flag or the `image_results`; it only shows up in the echoed script.
  `RegenerationIgnoresPrompt` proves this.
- **A segment whose placeholder cannot be built:**
  - Without `image_description`, `prompt.substring` throws; when `encodeURIComponent` throws on
    the preview, the placeholder cannot be built either (app/api/generate-images/route.ts:15).
    Either way `generateImage` rejects whenever it has to fall back to the placeholder. This
    holds on every fallback path, including inside the `catch` blocks (route.ts:125, 132). With a
    key and a `SUCCESS` reply that carries a url, no placeholder is built (route.ts:107-109), so
    such a call still resolves with that url even without `image_description`.
  - The whole image request then fails with status 500.
  - The model carries this as `Settlement.Rejected`.

## Model

| member | source | states |
|---|---|---|
| JsStrings.Contains | app/api/generate-script/route.ts:84-86 | `includes`: the pattern occurs at some index; the empty pattern is always included, a pattern longer than the text never |
| JsStrings.StartsWithIndexOf | app/api/generate-script/route.ts:88 | `startsWith` holds exactly when `indexOf` of the prefix is 0, and then the string is the prefix followed by the remaining slice that line 88 trims |
| JsStrings.IndexOf | app/api/generate-script/route.ts:95 | the result is -1 exactly when the pattern does not occur; otherwise it is an occurrence with none before it |
| JsStrings.IndexOfIsFirst | app/api/generate-script/route.ts:95 | the first occurrence of a pattern is the index `indexOf` reports |
| JsStrings.OccursInSlice | app/api/generate-script/route.ts:85-87 | occurrences in a slice are the occurrences of the whole string that fit inside the slice |
| JsStrings.SplitFirst | app/api/generate-script/route.ts:85-87 | `split(sep)[0]` is the prefix up to the first occurrence of `sep` (or all of the string) and does not contain `sep` |
| JsStrings.SplitSecond | app/api/generate-script/route.ts:85-87 | `split(sep)[1]` is the slice from the end of the first `sep` to the next `sep` or the end, and does not contain `sep` |
| JsStrings.NoOccurrenceInPrefix | app/api/generate-script/route.ts:85-87 | a prefix that ends before the first occurrence of a pattern does not contain it |
| JsStrings.TrimStart | app/api/generate-script/route.ts:85-92 | the longest suffix not starting with ECMAScript white space; everything removed is white space |
| JsStrings.TrimEnd | app/api/generate-script/route.ts:85-92 | the longest prefix not ending with white space; everything removed is white space |
| JsStrings.Trim | app/api/generate-script/route.ts:85-92 | `trim`: the result is no longer than the input and has no white space at either end |
| JsStrings.TrimOfTrimmed | app/api/generate-script/route.ts:85-92 | a string with no white space at either end is its own trim |
| JsStrings.TrimSlice | app/api/generate-script/route.ts:85-92 | `trim` returns the slice of the input that starts right after the leading white space |
| JsStrings.TrimDropsTrailing | app/api/generate-script/route.ts:85-92 | everything after that slice is white space |
| JsStrings.TrimIsSlice | app/api/generate-script/route.ts:85-92 | `trim` returns a contiguous slice, everything outside it is white space, and the slice has no white space at either end |
| JsStrings.TrimIdempotent | app/api/generate-script/route.ts:89 | trimming twice is trimming once |
| JsStrings.NatToDecimal | app/api/generate-images/route.ts:15 | a number renders as a non-empty string of decimal digits, with a leading `0` only for zero and a single digit exactly below ten |
| JsStrings.DecimalRoundTrip | app/api/generate-images/route.ts:15 | the rendered digits, read back most significant first, denote the number |
| JsonExtraction.JsonFenceIsFence | app/api/generate-script/route.ts:84 | every "```json" occurrence is also a "```" occurrence, so the second test on line 84 always holds once the first does |
| JsonExtraction.FenceSpan | app/api/generate-script/route.ts:84-92 | a fence strategy applies exactly when the text contains "```" |
| JsonExtraction.FirstOpenBrace | app/api/generate-script/route.ts:95 | -1 exactly when there is no `{`; otherwise the index of the first `{` |
| JsonExtraction.BalanceExtend | app/api/generate-script/route.ts:99-103 | extending the scanned slice by one character moves the count by +1 for `{`, -1 for `}`, 0 otherwise |
| JsonExtraction.ClosesAtUnique | app/api/generate-script/route.ts:104-107 | there is at most one index where the count from the first `{` first returns to 0 |
| JsonExtraction.ScanBraces | app/api/generate-script/route.ts:94-111 | the scan returns the slice from the first `{` to the first `}` where the count returns to 0, or the whole text when there is no `{` or the count never returns to 0 |
| JsonExtraction.ClosingBraceFound | app/api/generate-script/route.ts:104-108 | when the count from the first `{` first returns to 0 at `i`, the brace span ends at `i` |
| JsonExtraction.NoClosingBrace | app/api/generate-script/route.ts:99-111 | when the count stays positive to the end of the text, the brace span is the whole text |
| JsonExtraction.ExtractJsonContent | app/api/generate-script/route.ts:80-112 | the span handed to the parser is the fence span when the text has a fence, and the brace scan's result otherwise |
| JsonExtraction.JsonFenceSelected | app/api/generate-script/route.ts:84-85 | with a "```json" fence, the span is the trimmed text after the first "```json" up to the next "```" or the end of the text |
| JsonExtraction.JsonBlockEnds | app/api/generate-script/route.ts:85 | when no "```json" starts one or two characters after the next "```", the block after the first "```json" runs to that "```" (or the end) |
| JsonExtraction.FirstFenceInBlock | app/api/generate-script/route.ts:85 | under the same hypothesis, the first "```" inside that block is the next fence of the whole text |
| JsonExtraction.BlockFirstFence | app/api/generate-script/route.ts:85 | under the same hypothesis, `split("```")[0]` of that block is the text up to the next fence |
| JsonExtraction.PlainFenceSelected | app/api/generate-script/route.ts:86-92 | without "```json", the span is the trimmed text between the first two fences (or to the end); a leading `json` is dropped and the rest trimmed again |
| JsonExtraction.NoFenceNoBraceWholeText | app/api/generate-script/route.ts:81-96 | with no fence and no `{`, the text goes to the parser unchanged |
| JsonExtraction.BalancedBraceSelected | app/api/generate-script/route.ts:95-108 | when the count balances, the span is a contiguous slice that starts with `{`, ends with `}`, balances to 0, and whose non-empty proper prefixes all have more `{` than `}` |
| JsonExtraction.BraceSpanAt | app/api/generate-script/route.ts:95-108 | the brace span is the slice from the first `{` to its closing `}` |
| JsonExtraction.UnbalancedWholeText | app/api/generate-script/route.ts:81-111 | when the count never returns to 0, the whole text goes to the parser unchanged |
| JsonExtraction.MismatchAt | app/api/generate-script/route.ts:84-86 | a pattern cannot occur where one of its characters differs from the text |
| JsonExtraction.NoBacktickNoFence | app/api/generate-script/route.ts:84-86 | a text without backticks contains no fence |
| JsonExtraction.ExtractFencedPayload | app/api/generate-script/route.ts:84-85 | wrapping a trimmed, backtick-free payload in "```json" … "```" after prose, then extracting, returns the payload |
| JsonExtraction.FencedShape | app/api/generate-script/route.ts:84-85 | in prose without backticks followed by "```json", a backtick-free payload and "```", the first "```json" and the next "```" are where they were placed |
| JsonExtraction.FencedSelects | app/api/generate-script/route.ts:84-85 | with the fences so placed, the span handed to the parser is the trimmed payload between them |
| JsonExtraction.ExtractBareObject | app/api/generate-script/route.ts:95-108 | a balanced object in backtick-free prose with no earlier `{` is extracted exactly |
| GenerateScript.HandleGenerateScript | app/api/generate-script/route.ts:3-128 | an unreadable body gives 500; a missing or empty subject or summary gives 400 with no session id and no LLM call; then a missing key gives 500; an LLM failure gives 500 (two messages); a span that does not parse gives 500 "Lỗi khi phân tích kịch bản"; otherwise the parsed script and the session id |
| ImageJob.Placeholder | app/api/generate-images/route.ts:15 | the placeholder url exists exactly when the preview encodes; it starts `/placeholder.svg?height=` and ends with the encoded preview |
| ImageJob.Fallback | app/api/generate-images/route.ts:15-17 | the fallback rejects exactly when no placeholder can be built (undefined prompt or an encoding that throws); otherwise it is the placeholder url with the given error |
| ImageJob.Preview | app/api/generate-images/route.ts:15 | `substring(0, 30)` is the prefix of length min(30, length) |
| ImageJob.GenerateImage | app/api/generate-images/route.ts:9-136 | the method's settlement and its sequence of provider calls are those of the job specification `JobRun`, whose poll loop is `PollFrom` |
| ImageJob.DefaultSizeText | app/api/generate-images/route.ts:9 | the default width and height render as "1024" |
| ImageJob.DefaultPlaceholderFormat | app/api/generate-images/route.ts:9-15 | at the default size the placeholder is `/placeholder.svg?height=1024&width=1024&text=` followed by the encoding of the prompt's first min(30, length) characters, and there is none when that encoding throws |
| ImageJob.NoKeyMeansOffline | app/api/generate-images/route.ts:11-17 | without a key there are no provider calls; the call rejects exactly when no placeholder can be built, and otherwise the placeholder comes back with no error |
| ImageJob.RefusedSubmissionNeverPolls | app/api/generate-images/route.ts:74-80 | a status other than 200 gives the placeholder with "API error: status - body" (or rejects when no placeholder can be built) after the single submission, and no status query |
| ImageJob.SkipPending | app/api/generate-images/route.ts:104-121 | status replies other than SUCCESS and FAILED, within the ceiling, continue the loop |
| ImageJob.FirstSuccessWins | app/api/generate-images/route.ts:107-110 | the first SUCCESS reply with a url, after only pending replies within the ceiling, ends the loop with that url after k + 1 queries |
| ImageJob.FirstFailureFallsBack | app/api/generate-images/route.ts:104-121 | the first reply, after only pending replies within the ceiling, that is SUCCESS without a url, FAILED or a throw ends the call after k + 1 queries with the placeholder and "Output is missing in the job response", the job-failed message or the thrown message respectively (rejecting when no placeholder can be built) |
| ImageJob.CompletedOnlyOnSuccess | app/api/generate-images/route.ts:89-121 | conversely, a url comes out of the loop only from a SUCCESS reply carrying it, within the ceiling, with only pending replies before |
| ImageJob.QueriesWithinCeiling | app/api/generate-images/route.ts:89-102 | every status query is made at a time when elapsed is at most 300 000 ms; once the ceiling is exceeded no query follows |
| ImageJob.NeverTerminalTimesOut | app/api/generate-images/route.ts:86-97 | a job that never reaches SUCCESS or FAILED ends in the timeout error: the loop does not run forever |
| ImageJob.ElapsedAtLeast | app/api/generate-images/route.ts:90-92 | with every wait advancing the clock by at least 10 000 ms, n waits take at least 10 000·n ms |
| ImageJob.AtMostThirtyFrom | app/api/generate-images/route.ts:89-102 | with such a clock, the loop makes at most 30 status queries |
| ImageJob.AtMostThirtyQueries | app/api/generate-images/route.ts:86-102 | with such a clock, one call makes at most 31 provider calls, the first of them the submission and every later one a status query, so at most 30 status queries |
| ImageJob.AlwaysAUrl | app/api/generate-images/route.ts:9-135 | every resolved call carries a non-empty url, and a call whose placeholder can be built always resolves |
| ImageJob.NoErrorExactly | app/api/generate-images/route.ts:9-135 | the error is absent exactly on the no-key path (with a buildable placeholder) and the SUCCESS-with-url path; every resolved call with an error carries the placeholder url |
| GenerateImages.RunSegments | app/api/generate-images/route.ts:166-189 | the loop over the segment array leaves the array and the records, and reports an abort, exactly as the loop specification `BatchFrom` run from index 0 on the old contents |
| GenerateImages.ProcessSegment | app/api/generate-images/route.ts:170-187 | one pass of the loop body: it stops exactly when the segment's job rejects, leaving array and records as they were; otherwise, when the job succeeded, slot `i` takes the url as `imagePath` and `prompt` and one record `(i, url, url)` is appended, when it resolved with an error nothing changes; either way the loop's outcome from `i + 1` on the new state equals its outcome from `i` on the old |
| GenerateImages.RunJob | app/api/generate-images/route.ts:171-174 | the settlement of `generateImage(segment.image_description)` for segment `i` is that of the job specification at the default size |
| GenerateImages.BatchAborts | app/api/generate-images/route.ts:174 | a rejecting job at index `i` ends the loop specification there, with the segments and records as they are |
| GenerateImages.BatchAdvance | app/api/generate-images/route.ts:176-187 | a resolved job moves the loop specification to `i + 1`, with the segment updated and a record pushed exactly when the job reports no error |
| GenerateImages.HandleGenerateImages | app/api/generate-images/route.ts:138-199 | the handler's response is that of the batch specification `Respond`: 500 for a missing script or a rejecting job, otherwise 200 with the updated script and the records |
| GenerateImages.BatchStep | app/api/generate-images/route.ts:166-189 | one iteration keeps the loop state in agreement with the reference definition |
| GenerateImages.BatchFromReference | app/api/generate-images/route.ts:166-189 | from any state that agrees with the reference, the loop aborts exactly when a later job rejects, and otherwise ends in the reference state |
| GenerateImages.BatchAgainstReference | app/api/generate-images/route.ts:166-189 | the loop aborts exactly when some job rejects; otherwise each segment whose job succeeded carries its url under both names, every other segment is unchanged, and the records are the reference list |
| GenerateImages.RecordsBounded | app/api/generate-images/route.ts:182-186 | at most one record per job settlement, each with an index below the number of settlements |
| GenerateImages.RecordsOrdered | app/api/generate-images/route.ts:167-186 | record indices strictly increase |
| GenerateImages.RecordsCarryUrl | app/api/generate-images/route.ts:176-186 | every record is for a job that succeeded, and holds that job's url as both `image_path` and `direct_image_url` |
| GenerateImages.RecordExactlyOnSuccess | app/api/generate-images/route.ts:176-189 | a segment has a record exactly when its job succeeded |
| GenerateImages.NoSuccessNoRecords | app/api/generate-images/route.ts:176-189 | with no successful job there are no records |
| GenerateImages.AllFailingKeepsScript | app/api/generate-images/route.ts:166-195 | when every job resolves with an error, the reply is status 200 with the script as sent and an empty record list |
| GenerateImages.FailsOnlyOnException | app/api/generate-images/route.ts:138-199 | the response fails, always with 500 "Lỗi máy chủ nội bộ", exactly when there is no script or some segment whose placeholder cannot be built (no `image_description`, or an encoding that throws) has its job reject |
| ImageGeneratorClient.ApplyGeneratedImages | components/steps/image-generator.tsx:68-86 | on a success reply the script and the image list become the reply's; otherwise both are unchanged |
| ImageGeneratorClient.BatchRoundTrip | components/steps/image-generator.tsx:55-97 | after a successful batch the script keeps its title and segment count, and every listed record's paths sit in the segment its index names; a failed batch changes nothing |
| ImageGeneratorClient.RegenerateRequest | components/steps/image-generator.tsx:102-119 | a request exists exactly for a valid index; it keeps the title and holds one segment, the target with only `prompt` changed: kept when non-empty, otherwise the narration |
| ImageGeneratorClient.RegenerateImage | components/steps/image-generator.tsx:99-136 | the sent request is `RegenerateRequest`; with no request or an unaccepted reply nothing changes; otherwise the list keeps its length, only slot `index` changes, and it takes the first record's paths |
| ImageGeneratorClient.RegenerationIgnoresPrompt | app/api/generate-images/route.ts:169-173 | the success flag and the `image_results` of the reply to the regeneration request are those for the unmodified target segment, whatever `prompt` the client filled in |
| ImageGeneratorClient.RegenerationEndToEnd | components/steps/image-generator.tsx:125-136 | the regeneration reply is accepted exactly when the job on the target's `image_description` succeeds, and its first record then holds that job's url |
| ImageGeneratorClient.GenerateVoice | components/steps/image-generator.tsx:160-188 | the request posts the segment's narration with the voice "vi-VN-HoaiMyNeural"; the state becomes `AttachVoice`'s, and on an accepted reply the audio url lands on the segment whose narration was sent, which keeps that narration |
| ImageGeneratorClient.AttachVoice | components/steps/image-generator.tsx:176-188 | without `success` and a non-empty `audioUrl` nothing changes; otherwise the list keeps its length, only the chosen segment changes, and only in `audio_path` |
| ImageGeneratorClient.VoiceAttachCommutes | components/steps/image-generator.tsx:184-186 | voice-overs for two different segments can be attached in either order |
| ImageGeneratorClient.VoiceAttachLastWins | components/steps/image-generator.tsx:184-186 | a second accepted voice-over for the same segment replaces the first |

## Left out

- Network calls are inputs, not modelled. These are:
  - the OpenRouter `fetch`;
  - the TensorArt `axios.post` (with its 30 s timeout, app/api/generate-images/route.ts:71) and `axios.get` (which has no timeout, app/api/generate-images/route.ts:99-102), including axios's rejection of non-2xx statuses (a throw is `SubmitThrew`/`PollThrew`);
  - the client `fetch` calls.
- `SubmitThrew` and `PollThrew` also stand for `response.data.job` being unreadable, which throws in the same `try`.
- `JSON.parse`, `encodeURIComponent`, `JSON.stringify`, `String(error)`, the md5 `request_id`, `crypto.randomUUID` and `uuidv4` are uninterpreted inputs. `parse` only sees the selected span; the JSON value it produces is opaque.
- The real clock and the `setTimeout` sleeps are left out: the clock is a parameter and there is no concurrency. The poll loop's termination rests on the clock advancing at every wait.
- Cookie handling in the image route is left out as framework I/O. It includes setting the cookie on a response object that is never returned.
- The fixed diffusion parameters and the LLM prompt text are constant data and are left out.
- The other session-data fields carried by the `...sessionData` spreads are not modelled. The client state is the script plus the generated-image list.
- React state, toasts, loading flags and rendering are left out.
- The voice route, the voice and script components and next.config.ts are not part of this model.
- HandleGenerateScript: a reply whose `choices` is missing is folded into `LlmUnavailable`, the same 500 as a body that is not JSON.
- Strings are sequences of Unicode code points. `substring(0, 30)` counts UTF-16 code units in the source, so the preview differs for characters outside the Basic Multilingual Plane.
- Preview, Placeholder: where the source's 30-unit cut splits a surrogate pair, `encodeURIComponent` throws on the lone surrogate; the model's preview never splits a character, so that throw is represented only as far as the `encode` input returns `None` for the code-point preview.
- NeverTerminalTimesOut: every status query is assumed to answer (`polls` is total); in the source a status `axios.get` that never answers holds the loop past the 300 s ceiling. QueriesWithinCeiling rests on the same assumption.
- JsonExtraction.JsonBlockEnds, JsonExtraction.FirstFenceInBlock: like JsonFenceSelected, these lemmas assume that no "```json" starts one or two characters after the closing "```" (runs of four or five backticks).
- JsonExtraction.JsonFenceSelected: the lemma does not cover texts where another "```json" starts one or two characters after the closing "```" (runs of four or five backticks). `ExtractJsonContent` itself models those texts too.
- AttachVoice: the source finds the segment by object identity. The model names it by position, so it does not capture two slots holding the same object.
