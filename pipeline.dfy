/**
 * The pipeline orchestrator (main.py): transcribe, generate the draft,
 * refine it, score the refined article, and return the four results.
 * Each stage is a function returning its output or the exception it
 * raised; nothing is caught, so the first exception ends the run.
 */
module Pipeline {
  import opened Wrappers
  import Text
  import Scoring
  import Transcription
  import Generation
  import StyleCheck

  /** The dictionary `run_pipeline` returns. */
  datatype PipelineResult = PipelineResult(
    transcript: string,
    draft: string,
    final: string,
    score: Scoring.ScoreReport)

  /** The four stages as seen from `run_pipeline`. */
  datatype Stages<E> = Stages(
    transcribe: string -> Result<string, E>,
    generate: (string, string) -> Result<string, E>,
    refine: string -> Result<string, E>,
    score: string -> Result<Scoring.ScoreReport, E>)

  /**
   * `run_pipeline`: each stage is fed the previous stage's output, the
   * draft is generated with the default style guide, and the score is
   * taken on the refined article.
   */
  function RunPipeline<E>(audioPath: string, stages: Stages<E>): (r: Result<PipelineResult, E>)
    ensures r.Success? ==>
      && stages.transcribe(audioPath) == Success(r.value.transcript)
      && stages.generate(r.value.transcript, Generation.DefaultStyleGuide) == Success(r.value.draft)
      && stages.refine(r.value.draft) == Success(r.value.final)
      && stages.score(r.value.final) == Success(r.value.score)
    ensures stages.transcribe(audioPath).Failure? ==> r == Failure(stages.transcribe(audioPath).error)
    ensures var t := stages.transcribe(audioPath);
      t.Success? && stages.generate(t.value, Generation.DefaultStyleGuide).Failure? ==>
        r == Failure(stages.generate(t.value, Generation.DefaultStyleGuide).error)
    ensures var t := stages.transcribe(audioPath);
      var d := if t.Success? then stages.generate(t.value, Generation.DefaultStyleGuide) else Failure(t.error);
      d.Success? && stages.refine(d.value).Failure? ==> r == Failure(stages.refine(d.value).error)
    ensures var t := stages.transcribe(audioPath);
      var d := if t.Success? then stages.generate(t.value, Generation.DefaultStyleGuide) else Failure(t.error);
      var f := if d.Success? then stages.refine(d.value) else Failure(d.error);
      f.Success? && stages.score(f.value).Failure? ==> r == Failure(stages.score(f.value).error)
  {
    var transcript :- stages.transcribe(audioPath);
    var draft :- stages.generate(transcript, Generation.DefaultStyleGuide);
    var final :- stages.refine(draft);
    var score :- stages.score(final);
    Success(PipelineResult(transcript, draft, final, score))
  }

  /** When every stage succeeds on its predecessor's output, the run returns exactly those outputs. */
  lemma AllStagesSucceed<E>(audioPath: string, stages: Stages<E>,
                            transcript: string, draft: string, final: string, score: Scoring.ScoreReport)
    requires stages.transcribe(audioPath) == Success(transcript)
    requires stages.generate(transcript, Generation.DefaultStyleGuide) == Success(draft)
    requires stages.refine(draft) == Success(final)
    requires stages.score(final) == Success(score)
    ensures RunPipeline(audioPath, stages) == Success(PipelineResult(transcript, draft, final, score))
  {
  }

  /**
   * The first failing stage decides the run: its error is returned and the
   * stages after it are never consulted, so replacing them changes nothing.
   */
  lemma FirstFailureEndsRun<E>(audioPath: string, stages: Stages<E>, other: Stages<E>, failing: nat)
    requires failing < 4
    requires other.transcribe == stages.transcribe
    requires failing >= 1 ==> other.generate == stages.generate
    requires failing >= 2 ==> other.refine == stages.refine
    requires failing >= 3 ==> other.score == stages.score
    requires RunPipeline(audioPath, stages).Failure?
    requires FailingStage(audioPath, stages) == failing
    ensures RunPipeline(audioPath, other) == RunPipeline(audioPath, stages)
    ensures FailingStage(audioPath, other) == failing
  {
  }

  /** The stage that raised: 0 transcribe, 1 generate, 2 refine, 3 score; 4 when none did. */
  function FailingStage<E>(audioPath: string, stages: Stages<E>): (k: nat)
    ensures k <= 4
    ensures k == 4 <==> RunPipeline(audioPath, stages).Success?
  {
    match stages.transcribe(audioPath)
    case Failure(_) => 0
    case Success(t) =>
      match stages.generate(t, Generation.DefaultStyleGuide)
      case Failure(_) => 1
      case Success(d) =>
        match stages.refine(d)
        case Failure(_) => 2
        case Success(f) =>
          match stages.score(f)
          case Failure(_) => 3
          case Success(_) => 4
  }

  // ---------------------------------------------------------------------
  // The stages of this repository plugged in
  // ---------------------------------------------------------------------

  /** An exception of one of the stages. */
  datatype PipelineError =
    | TranscriptionStage(transcriptionError: Transcription.TranscriptionError)
    | GenerationStage(generationError: Generation.GenerationError)
    | RefinementStage(message: string)
    | ScoringStage(message: string)

  /**
   * The repository's stages: transcription as a given function of the
   * path, the generator with the given model, the style refiner with the
   * given corrector, and the scorer with the given similarity and
   * readability back ends.
   */
  function SystemStages(
    transcribe: string -> Result<string, Transcription.TranscriptionError>,
    model: string -> Result<string, string>,
    corrector: string -> Result<string, string>,
    similarity: string -> Result<real, string>,
    readability: string -> Result<Option<real>, string>): Stages<PipelineError>
  {
    Stages(
      path => transcribe(path).MapFailure(e => TranscriptionStage(e)),
      (t, g) => Generation.GenerateArticle(t, g, model).MapFailure(e => GenerationStage(e)),
      d => StyleCheck.ApplyStyleGuide(d, corrector).MapFailure(e => RefinementStage(e)),
      f => ScoreStage(f, similarity, readability))
  }

  /** `score_article` with its two back ends, either of which may raise. */
  function ScoreStage(
    article: string,
    similarity: string -> Result<real, string>,
    readability: string -> Result<Option<real>, string>): (r: Result<Scoring.ScoreReport, PipelineError>)
    ensures r.Success? <==> similarity(article).Success? && readability(article).Success?
    ensures r.Success? ==>
      r.value == Scoring.ScoreArticle(article, similarity(article).value, readability(article).value)
    ensures similarity(article).Failure? ==> r == Failure(ScoringStage(similarity(article).error))
    ensures similarity(article).Success? && readability(article).Failure? ==>
      r == Failure(ScoringStage(readability(article).error))
  {
    match similarity(article)
    case Failure(e) => Failure(ScoringStage(e))
    case Success(s) =>
      match readability(article)
      case Failure(e) => Failure(ScoringStage(e))
      case Success(v) => Success(Scoring.ScoreArticle(article, s, v))
  }

  /**
   * A successful run of the repository's stages: the draft is the model's
   * stripped reply to the prompt built from the transcript and the
   * default style guide, the final article is the corrector's output on
   * "gec: " + draft, and the report counts the final article's headings.
   */
  lemma SystemRunShape(
    audioPath: string,
    transcribe: string -> Result<string, Transcription.TranscriptionError>,
    model: string -> Result<string, string>,
    corrector: string -> Result<string, string>,
    similarity: string -> Result<real, string>,
    readability: string -> Result<Option<real>, string>)
    requires RunPipeline(audioPath, SystemStages(transcribe, model, corrector, similarity, readability)).Success?
    ensures var out := RunPipeline(audioPath, SystemStages(transcribe, model, corrector, similarity, readability)).value;
      && transcribe(audioPath) == Success(out.transcript)
      && !Text.AllSpace(out.transcript)
      && model(Generation.Prompt(out.transcript, Generation.DefaultStyleGuide)).Success?
      && out.draft == Text.Strip(model(Generation.Prompt(out.transcript, Generation.DefaultStyleGuide)).value)
      && corrector(StyleCheck.CorrectorInput(out.draft)) == Success(out.final)
      && out.score.sectionCount == Scoring.CountSections(out.final)
  {
    var stages := SystemStages(transcribe, model, corrector, similarity, readability);
    var out := RunPipeline(audioPath, stages).value;
    TranscribeStageSucceeds(audioPath, transcribe, model, corrector, similarity, readability, out.transcript);
    GenerateStageSucceeds(out.transcript, transcribe, model, corrector, similarity, readability, out.draft);
    RefineStageSucceeds(out.draft, transcribe, model, corrector, similarity, readability, out.final);
    ScoreStageSucceeds(out.final, transcribe, model, corrector, similarity, readability, out.score);
  }

  lemma TranscribeStageSucceeds(
    audioPath: string,
    transcribe: string -> Result<string, Transcription.TranscriptionError>,
    model: string -> Result<string, string>,
    corrector: string -> Result<string, string>,
    similarity: string -> Result<real, string>,
    readability: string -> Result<Option<real>, string>,
    transcript: string)
    requires SystemStages(transcribe, model, corrector, similarity, readability).transcribe(audioPath) == Success(transcript)
    ensures transcribe(audioPath) == Success(transcript)
  {
    MapFailureSuccess(transcribe(audioPath), (e: Transcription.TranscriptionError) => TranscriptionStage(e));
  }

  lemma GenerateStageSucceeds(
    transcript: string,
    transcribe: string -> Result<string, Transcription.TranscriptionError>,
    model: string -> Result<string, string>,
    corrector: string -> Result<string, string>,
    similarity: string -> Result<real, string>,
    readability: string -> Result<Option<real>, string>,
    draft: string)
    requires SystemStages(transcribe, model, corrector, similarity, readability)
      .generate(transcript, Generation.DefaultStyleGuide) == Success(draft)
    ensures Generation.GenerateArticle(transcript, Generation.DefaultStyleGuide, model) == Success(draft)
  {
    MapFailureSuccess(Generation.GenerateArticle(transcript, Generation.DefaultStyleGuide, model),
                      (e: Generation.GenerationError) => GenerationStage(e));
  }

  lemma RefineStageSucceeds(
    draft: string,
    transcribe: string -> Result<string, Transcription.TranscriptionError>,
    model: string -> Result<string, string>,
    corrector: string -> Result<string, string>,
    similarity: string -> Result<real, string>,
    readability: string -> Result<Option<real>, string>,
    final: string)
    requires SystemStages(transcribe, model, corrector, similarity, readability).refine(draft) == Success(final)
    ensures corrector(StyleCheck.CorrectorInput(draft)) == Success(final)
  {
    MapFailureSuccess(StyleCheck.ApplyStyleGuide(draft, corrector), (e: string) => RefinementStage(e));
  }

  lemma ScoreStageSucceeds(
    final: string,
    transcribe: string -> Result<string, Transcription.TranscriptionError>,
    model: string -> Result<string, string>,
    corrector: string -> Result<string, string>,
    similarity: string -> Result<real, string>,
    readability: string -> Result<Option<real>, string>,
    score: Scoring.ScoreReport)
    requires SystemStages(transcribe, model, corrector, similarity, readability).score(final) == Success(score)
    ensures score.sectionCount == Scoring.CountSections(final)
  {
  }

  /** Wrapping the error leaves a success as it was, and keeps a failure a failure. */
  lemma MapFailureSuccess<R, E, F>(r: Result<R, E>, wrap: E -> F)
    ensures r.MapFailure(wrap).Success? <==> r.Success?
    ensures r.Success? ==> r.MapFailure(wrap) == Success(r.value)
  {
  }

  /** A blank transcript stops the run in the generation stage, before refinement and scoring. */
  lemma BlankTranscriptFailsInGeneration(
    audioPath: string,
    transcribe: string -> Result<string, Transcription.TranscriptionError>,
    model: string -> Result<string, string>,
    corrector: string -> Result<string, string>,
    similarity: string -> Result<real, string>,
    readability: string -> Result<Option<real>, string>)
    requires transcribe(audioPath).Success? && Text.AllSpace(transcribe(audioPath).value)
    ensures RunPipeline(audioPath, SystemStages(transcribe, model, corrector, similarity, readability))
         == Failure(GenerationStage(Generation.EmptyTranscript))
  {
    var stages := SystemStages(transcribe, model, corrector, similarity, readability);
    var transcript := transcribe(audioPath).value;
    TranscribeStagePasses(audioPath, transcribe, model, corrector, similarity, readability);
    BlankGenerateStage(transcript, transcribe, model, corrector, similarity, readability);
  }

  lemma TranscribeStagePasses(
    audioPath: string,
    transcribe: string -> Result<string, Transcription.TranscriptionError>,
    model: string -> Result<string, string>,
    corrector: string -> Result<string, string>,
    similarity: string -> Result<real, string>,
    readability: string -> Result<Option<real>, string>)
    requires transcribe(audioPath).Success?
    ensures SystemStages(transcribe, model, corrector, similarity, readability).transcribe(audioPath)
         == Success(transcribe(audioPath).value)
  {
  }

  lemma BlankGenerateStage(
    transcript: string,
    transcribe: string -> Result<string, Transcription.TranscriptionError>,
    model: string -> Result<string, string>,
    corrector: string -> Result<string, string>,
    similarity: string -> Result<real, string>,
    readability: string -> Result<Option<real>, string>)
    requires Text.AllSpace(transcript)
    ensures SystemStages(transcribe, model, corrector, similarity, readability)
      .generate(transcript, Generation.DefaultStyleGuide) == Failure(GenerationStage(Generation.EmptyTranscript))
  {
  }
}
