# Audio/video to article pipeline: a Dafny model of its core logic

This project models the control logic of the audio-to-article pipeline (a
Python application) in Dafny and proves properties of the model. The pipeline
transcribes a recording with the AssemblyAI service, asks Gemini for a draft
article, runs a grammar-correction model over the draft, and scores the
result. Every foreign service is a parameter of the model: an HTTP reply, a
model function, or a similarity value. What remains, and what is modelled, is
the following:

- **Scorer** (`scoring.dfy`, from `scoring/bert_scorer.py`).
  - `count_sections` is a character-level scanner with Python's `re.findall` semantics for `\n[A-Z][^\n]{3,40}\n`: leftmost matches, non-overlapping, and each match consumes its closing newline.
  - The scanner is proved equal to an independent reading over `split('\n')`: a greedy count of the interior heading lines, where a counted line hides the line after it.
  - `score_article` is the unrounded weighted formula, computed over `real`.
- **Transcription client** (`transcription.dfy`, from `transcription/assembly_ai.py`).
  - The `startswith("http")` dispatch.
  - The `read_file` chunker, written as a method with a loop.
  - The three status-code guards.
  - The fixed request payload and the polling endpoint.
  - The polling loop, written as a method over the service's successive replies.
  - `transcribe_audio` as a method that also returns the requests it sends, in order.
- **Draft generator** (`generation.dfy`, from `generation/gemini_generator.py`).
  - The blank-transcript guard.
  - `str.format` over the prompt template. The text of `ARTICLE_PROMPT_TEMPLATE` is carried over literally, including the `# e.g., …` note that follows `{style_guide}`.
  - The stripped reply, and the wrapping of model errors as `"Error in Gemini API: " + cause`.
- **Style refiner** (`style_check.dfy`, from `style_check/style_enforcer.py`), kept to its interface: the corrector sees `"gec: " + draft`.
- **Orchestrator** (`pipeline.dfy`, from `main.py`).
  - `run_pipeline` as a `:-` chain over four stage functions that each return a `Result`.
  - Properties of its ordering, its result bundle and its fail-fast behaviour.
  - The repository's own stages plugged in.
- **Support**: `text.dfy` holds Python's `str.strip` (with the full `str.isspace` character set) and `str.startswith`; `wrappers.dfy` holds `Option` and `Result`.

Two properties one might expect do not hold of the code, and the model
follows the code:

- A non-blank transcript can still yield an empty draft. The code strips the model's reply, so a blank reply gives an empty draft (`Generation.BlankReplyGivesEmptyArticle`).
- Nothing clamps `final_score` to [0, 100]. A reading ease above 100 lifts the score past 100 (`Scoring.ScoreCanExceedHundred`).

## Model

| member | source | states |
|---|---|---|
| Scoring.MatchAt | scoring/bert_scorer.py:33 | A match at the start of the text is exactly: a newline, one ASCII capital, 3 to 40 non-newline characters, a newline. When no match is reported, no repetition length in 3..40 fits. |
| Scoring.CountSections | scoring/bert_scorer.py:32-34 | The scanner itself, with no contract of its own: what it counts is stated by `Scoring.CountSectionsByLines` and `Scoring.CountSectionsBounded` below. |
| Scoring.CountSectionsBounded | scoring/bert_scorer.py:33-34 | The number of matches is at most half the number of newlines, because each match uses two newlines of its own. |
| Scoring.CountSectionsByLines | scoring/bert_scorer.py:32-34 | `count_sections` equals a greedy count over the lines that have a newline on both sides. A counted line of 4 to 41 characters starting with A–Z hides the line after it. |
| Scoring.GreedyVersusPlain | scoring/bert_scorer.py:33 | Greedy hiding never counts more than the plain number of heading lines. It counts exactly that number when no two heading lines are adjacent. |
| Scoring.IsolatedHeadingsAllCounted | scoring/bert_scorer.py:33-34 | When no two interior heading lines are adjacent, every interior heading line is counted. |
| Scoring.FirstLineNeverCounts | scoring/bert_scorer.py:33 | Replacing the first line by any other line without a newline leaves the count unchanged. |
| Scoring.LastLineNeverCounts | scoring/bert_scorer.py:33 | Replacing a last line that has no closing newline by any other such line leaves the count unchanged. |
| Scoring.LineAloneCountsZero | scoring/bert_scorer.py:33 | A single line followed by a newline holds no match. |
| Scoring.HeadingThenRest | scoring/bert_scorer.py:33 | A heading line between two newlines is counted, and the scan resumes just after the second newline. |
| Scoring.AdjacentHeadingsCountOnce | scoring/bert_scorer.py:33-34 | Two heading lines in a row, with newlines around them, count 1 and not 2: they share a newline. |
| Scoring.SeparatedHeadingsBothCount | scoring/bert_scorer.py:33-34 | The same two heading lines with a blank line between them count 2. |
| Scoring.AdjacentHeadingsExample | scoring/bert_scorer.py:33-34 | `"\nAbcd\nEfgh\n"` counts 1. |
| Scoring.SectionTerm | scoring/bert_scorer.py:45 | The section term lies in [0, 0.3]. It equals 0.3 for every count of 5 or more, and is below 0.3 otherwise. |
| Scoring.WeightedReadability | scoring/bert_scorer.py:46 | Definition of `readability or 50`, case by case: a falsy readability (None or exactly 0) weighs as 50, any other value as itself. What follows from it is proved in `Scoring.FalsyReadabilityAsymmetry` and `Scoring.ZeroReadabilityOutscoresOne`. |
| Scoring.ReportedReadability | scoring/bert_scorer.py:52 | Definition of `readability or 0`, case by case: a falsy readability is reported as 0, any other value as itself. Its consequence is proved in `Scoring.FalsyReadabilityAsymmetry`. |
| Scoring.FinalScore | scoring/bert_scorer.py:43-47 | The unrounded score stays in [0, 100] when the structure similarity is in [0, 1] and the weighted readability is in [0, 100]. |
| Scoring.ScoreArticle | scoring/bert_scorer.py:40-54 | The report holds the given similarity, the uncapped section count, the reported readability, and the score on the capped count. |
| Scoring.FalsyReadabilityAsymmetry | scoring/bert_scorer.py:46-52 | A falsy readability scores exactly like 50, yet the report shows 0 (and shows 50 for 50). |
| Scoring.SectionCountSaturates | scoring/bert_scorer.py:45 | Any two counts of at least 5 give the same score. |
| Scoring.MonotoneInStructure | scoring/bert_scorer.py:43-47 | The score does not decrease when the structure similarity grows. |
| Scoring.MonotoneInSections | scoring/bert_scorer.py:43-47 | The score does not decrease when the section count grows. |
| Scoring.ZeroReadabilityOutscoresOne | scoring/bert_scorer.py:46 | Because of the falsy substitution, a readability of 0 scores higher than a readability of 1. |
| Scoring.ScoreBoundaries | scoring/bert_scorer.py:43-53 | Similarity 1, five sections and readability 100 score 100. Similarity 0, no sections and no readability score 10, with readability reported as 0. |
| Scoring.ScoreCanExceedHundred | scoring/bert_scorer.py:43-53 | Similarity 1, five sections and readability 120 score 104; nothing clamps the score. |
| Text.Strip | generation/gemini_generator.py:60 | The stripped text is empty exactly when the input is all whitespace. Otherwise it neither starts nor ends with whitespace. |
| Text.StripRemovesOnlyEnds | generation/gemini_generator.py:64 | The stripped text is a contiguous piece of the input, and everything before and after it is whitespace. |
| Text.StripIdempotent | generation/gemini_generator.py:70 | Stripping twice is stripping once. |
| Transcription.IsRemote | transcription/assembly_ai.py:23 | A source is remote exactly when it has at least four characters and they begin with the lower-case letters `h`, `t`, `t`, `p`. |
| Transcription.DispatchExamples | transcription/assembly_ai.py:23 | The remote test is a case-sensitive prefix test on `"http"`: `"httpdocs/…"` counts as remote; `"HTTP://…"`, `"/tmp/http.mp3"` and `""` count as local. |
| Transcription.ReadFile | transcription/assembly_ai.py:32-38 | With a positive chunk size the chunks are non-empty, at most the chunk size, all full but the last, and in order they concatenate to the file. A chunk size of 0 yields nothing. |
| Transcription.ChunkingUnique | transcription/assembly_ai.py:32-38 | Only one chunking meets that description, so the chunks are determined by the file. |
| Transcription.ChunkTail | transcription/assembly_ai.py:32-38 | There is one chunk exactly when the file fits in one. Otherwise the first chunk is the first full piece and the rest chunk the remainder. |
| Transcription.ReadLocalFile | transcription/assembly_ai.py:32-39 | The local branch chunks the file with the default chunk size of 5242880 bytes, and the chunks are the unique chunking that `Transcription.ReadFile` describes. |
| Transcription.UploadReply | transcription/assembly_ai.py:41-44 | A status other than 200 raises with the reply text. A 200 reply without `upload_url` raises a KeyError for that key. The upload succeeds exactly on a 200 reply with `upload_url`, and returns its value. |
| Transcription.UploadResult | transcription/assembly_ai.py:23-44 | A remote source whose download status is not 200 raises with that status. Every other case takes the upload reply's result. |
| Transcription.UploadFile | transcription/assembly_ai.py:21-44 | Remote source: a GET, then, only after a 200 response, a POST of the stream. Local source: one POST of the file's chunks. The result is the one given by `UploadResult`. |
| Transcription.NewTranscriptRequest | transcription/assembly_ai.py:51-57 | Definition of the fixed payload, field by field: the upload URL, with chapters and speaker labels off and punctuation and formatting on. It holds no proof of its own; `Transcription.TranscribeAudio` sends it. |
| Transcription.SubmitReply | transcription/assembly_ai.py:59-63 | A status other than 200 raises with the reply text. A 200 reply without `id` raises a KeyError for that key, and one whose `id` is not a string fails with `NotText`. Success is exactly a 200 reply with a string `id`, and returns it. |
| Transcription.PollingEndpoint | transcription/assembly_ai.py:64 | The endpoint starts with the transcript URL and a slash, and the job id can be read back from what follows. |
| Transcription.Lookup | transcription/assembly_ai.py:72-76 | Definition of `dict.get`: a value exactly when the key is present, and then the stored value. It holds no proof of its own; `Transcription.PollStep` relies on it. |
| Transcription.PollStep | transcription/assembly_ai.py:68-78 | A reply keeps the loop going exactly when its status is neither `completed` nor `error`. It raises with the reported error exactly on `error`, and a reply without `status` raises a KeyError for it. A `completed` reply returns its `text` stripped, or `""` when it has no `text`, and fails with `NotText` when `text` is not a string. A returned text is already stripped. |
| Transcription.FirstTerminal | transcription/assembly_ai.py:67-78 | The index of the first terminal reply: every reply before it continues. |
| Transcription.Poll | transcription/assembly_ai.py:67-78 | The loop stops at the first terminal reply, after that index plus one polls, with that reply's result. If no reply is terminal it has produced no result after every reply. |
| Transcription.LaterRepliesIgnored | transcription/assembly_ai.py:67-76 | Replies after the first terminal one never matter. |
| Transcription.PendingRepliesPostpone | transcription/assembly_ai.py:67-78 | There is no bound on attempts: any number of pending replies only postpones the first terminal reply. |
| Transcription.CompletedReply | transcription/assembly_ai.py:71-74 | A `completed` reply with text t returns t stripped. |
| Transcription.ErrorReply | transcription/assembly_ai.py:75-76 | An `error` reply raises, carrying the reported message. |
| Transcription.PollExampleCompleted | transcription/assembly_ai.py:67-78 | For two pending replies and then `completed`, the first terminal reply is the third, and its result is the stripped text. |
| Transcription.TranscribeResult | transcription/assembly_ai.py:46-78 | The outcome of `transcribe_audio` as a function of the replies: the upload's error, else the transcript request's error, else the result of the first terminal poll reply. A transcript it returns is already stripped. |
| Transcription.TranscribeAudio | transcription/assembly_ai.py:46-78 | A failed upload, or a failed transcript request, ends the run with that error and sends nothing more. Otherwise, after the upload requests and one POST of the payload, it sends one GET of the polling endpoint per poll and finishes as the polling loop does. Its outcome is the one `Transcription.TranscribeResult` gives. |
| Generation.Format | generation/gemini_generator.py:63-66 | Formatting succeeds exactly when every field of the template has a value. A failure names a field of the template that has no value. |
| Generation.FormatFailsAtFirstMissing | generation/gemini_generator.py:63-66 | The KeyError names the first field without a value: every field before it has one. |
| Generation.FormatTwoFields | generation/gemini_generator.py:63-66 | A literal/field/literal/field/literal template is filled by splicing the two values in between the literals. |
| Generation.FillTwoFields | generation/gemini_generator.py:63-66 | Given two distinct field names, formatting with exactly those two values succeeds with the spliced text. |
| Generation.Prompt | generation/gemini_generator.py:63-66 | The prompt is what `ARTICLE_PROMPT_TEMPLATE.format` returns for the style guide and the stripped transcript, and that formatting succeeds. |
| Generation.PromptLayout | generation/gemini_generator.py:28-66 | The prompt is `ARTICLE_PROMPT_TEMPLATE` formatted with the style guide and the stripped transcript. That is the template's head, the style guide, its middle, the stripped transcript and its tail. |
| Generation.GenerateArticle | generation/gemini_generator.py:54-72 | A blank transcript raises before the model is consulted. A model failure is re-raised with the `"Error in Gemini API: "` prefix. Otherwise the result is the model's reply to the prompt, stripped, which is its own strip. |
| Generation.BlankRejectedBeforeModel | generation/gemini_generator.py:60-61 | On a blank transcript every model gives the same outcome: the model is never called. |
| Generation.ModelSeesOnlyPrompt | generation/gemini_generator.py:63-72 | Two models that answer the prompt alike give the same outcome. |
| Generation.PromptIgnoresPadding | generation/gemini_generator.py:63-64 | Whitespace around the transcript does not reach the prompt. |
| Generation.BlankReplyGivesEmptyArticle | generation/gemini_generator.py:70 | A non-blank transcript whose model reply is blank gives an empty article, not an error. |
| StyleCheck.CorrectorInput | style_check/style_enforcer.py:8 | The corrector input is the marker `"gec: "` followed by the draft, unchanged. |
| StyleCheck.CorrectorInputInjective | style_check/style_enforcer.py:8 | Distinct drafts reach the corrector as distinct inputs. |
| StyleCheck.ApplyStyleGuide | style_check/style_enforcer.py:6-8 | The refiner's outcome is the corrector's answer on `"gec: "` followed by the draft, success or failure, passed on unchanged. |
| StyleCheck.CorrectorSeesMarkedDraft | style_check/style_enforcer.py:6-8 | The refiner's outcome is the corrector's answer on the marked draft, passed on unchanged. |
| Pipeline.RunPipeline | main.py:17-49 | On success, the four stages succeeded in order, each on the previous stage's output, with generation on the default style guide. The bundle holds exactly those outputs. When a stage fails after its predecessors succeeded, the run fails with that stage's error, for each of the four stages. |
| Pipeline.AllStagesSucceed | main.py:21-49 | When every stage succeeds on its predecessor's output, the run returns exactly those four outputs. |
| Pipeline.FailingStage | main.py:21-33 | The stage that raised is at most 4, and is 4 (none) exactly when the run succeeds. |
| Pipeline.FirstFailureEndsRun | main.py:17-49 | On a failed run, replacing the stages after the failing one changes neither the result nor the failing stage: later stages never run. |
| Pipeline.SystemStages | main.py:21-33 | The repository's four stages wired together, each stage's exception tagged with the stage. It has no contract of its own: `Pipeline.SystemRunShape` and `Pipeline.BlankTranscriptFailsInGeneration` state what a run with these stages does. |
| Pipeline.ScoreStage | main.py:33 | Scoring succeeds exactly when both back ends do, and then yields `score_article` of the refined article. A similarity exception is the one raised; a readability exception is raised only when the similarity succeeded. |
| Pipeline.SystemRunShape | main.py:21-33 | With the repository's stages, a successful run has a non-blank transcript. Its draft is the model's stripped reply to the prompt, its final article is the corrector's answer on `"gec: " + draft`, and the report counts the final article's headings. |
| Pipeline.BlankTranscriptFailsInGeneration | main.py:21-25 | A blank transcript stops the run in the generation stage with the empty-transcript error. |

## Left out

- HTTP, file access and sleeping are not performed. Replies (status code, text, decoded JSON body) and the file's bytes are inputs, and the requests are returned as values. The API-key header goes unmodelled, and so does `time.sleep(3)`.
- A reply body that is not JSON is not modelled: `json()` would raise on it.
- The remote stream `response.raw` is forwarded as an opaque `RemoteStream(source)`, and its bytes are not modelled.
- Transcription.ReadFile: the generator's laziness and `open()` failures (for example a missing file) are not modelled; the chunk list is computed at once from the given bytes.
- Transcription.Poll: a loop that never returns cannot be a value. With no terminal reply among the finitely many given, the result is `StillPolling` after all of them.
- Transcription.SubmitReply: an `id` that is not a JSON string is a `NotText` failure here. Python would format any JSON value into the endpoint, and the decoded form of a non-string value is not modelled.
- Exception messages are modelled as error constructors that carry their detail: status code, reply text, reported error or missing key. The formatted f-strings are not modelled, except the `"Error in Gemini API: "` prefix, which is kept.
- Python's `round()` to 3 and 2 decimals is floating-point rounding and is left out. The score properties are stated on the unrounded value, over `real` rather than binary floats.
- The sentence-embedding similarity and `flesch_reading_ease` are foreign models. Their outputs are inputs: `structure` and `readability`, or the `similarity` and `readability` functions in `Pipeline.ScoreStage`.
- Gemini and the grammar-correction model are functions returning text or an error message. Which exception type they raise is not modelled.
- Generation.Format: only `{name}` fields are supported. Format specs, conversions, positional fields and `{{` escapes are not modelled, and the template uses none of them.
- Pipeline.SystemStages: transcription enters as a function of the audio path. `Transcription.TranscribeAudio` is a method because of its loops, and a function cannot call a method. `Transcription.TranscribeResult` is the function form, but its `StillPolling` outcome (a loop that has not returned) has no `Result` value that `run_pipeline` could receive, so it is not plugged in.
- Pipeline.SystemStages: `main.py` passes each stage's exception on unchanged. The model tags it with the stage only to give the four stages one error type; the tag carries no behaviour of the source.
- Import-time configuration is not modelled: dotenv loading, API-key checks, the Gemini model name and model construction. Printing and logging are not modelled either.
- `streamlit_app.py` is not part of this model; it is a user interface that repeats the pipeline order.
