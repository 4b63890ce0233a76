/**
 * The draft generator (generation/gemini_generator.py): the blank-input
 * guard, the prompt built from the template, and the call to the
 * generative model, which is a function parameter here.
 */
module Generation {
  import opened Wrappers
  import Text

  /** The default `style_guide` argument of `generate_article`. */
  const DefaultStyleGuide: string := "formal_business"

  /** A template for `str.format`: literal text and `{name}` replacement fields. */
  datatype Segment = Literal(text: string) | Field(name: string)

  /** Every field the template names has a value. */
  predicate Covers(template: seq<Segment>, args: map<string, string>) {
    forall i | 0 <= i < |template| :: template[i].Field? ==> template[i].name in args
  }

  /**
   * `template.format(**args)`: fields replaced by their values, or the
   * KeyError of the first field without one.
   */
  function Format(template: seq<Segment>, args: map<string, string>): (r: Result<string, string>)
    ensures r.Success? <==> Covers(template, args)
    ensures r.Failure? ==> r.error !in args && exists i | 0 <= i < |template| :: template[i] == Field(r.error)
    decreases |template|
  {
    if |template| == 0 then Success("")
    else
      var head :- match template[0]
        case Literal(t) => Success(t)
        case Field(name) => if name in args then Success(args[name]) else Failure(name);
      var tail :- Format(template[1..], args);
      assert forall i | 1 <= i < |template| :: template[i] == template[1..][i - 1];
      Success(head + tail)
  }

  /** The KeyError names the first field of the template that has no value: every field before it has one. */
  lemma {:induction false} FormatFailsAtFirstMissing(template: seq<Segment>, args: map<string, string>)
    requires Format(template, args).Failure?
    ensures exists i | 0 <= i < |template| ::
      template[i] == Field(Format(template, args).error) && Covers(template[..i], args)
    decreases |template|
  {
    var e := Format(template, args).error;
    if template[0] == Field(e) {
      assert Covers(template[..0], args);
    } else {
      var rest := template[1..];
      assert Format(rest, args).Failure? && Format(rest, args).error == e;
      FormatFailsAtFirstMissing(rest, args);
      var j :| 0 <= j < |rest| && rest[j] == Field(e) && Covers(rest[..j], args);
      assert template[j + 1] == Field(e);
      assert template[..j + 1] == [template[0]] + rest[..j];
    }
  }

  const PromptHead: string :=
    "\nSYSTEM:\nYou are a professional AI writer producing polished articles aligned with our style guide.\n\nTASK:\n- Read the following style guide.\n- Write an article with: Title, Intro, subheadings, clear structure, bullet points where appropriate, formal tone, no personal opinions or vague phrases, correct grammar.\n\nSTYLE GUIDE:\n"

  const PromptMiddle: string :=
    "  # e.g., include voice, grammar rules, avoid jargon, sentence length, vocabulary\n\nTRANSCRIPT:\n\"\"\"\n"

  const PromptTail: string :=
    "\n\"\"\"\n\nOUTPUT FORMAT:\n1. Title (<=10 words)\n2. Intro (50\U{2013}100 words)\n3. Sections with headings and body text\n4. Conclusion (<=100 words)\n\nDo not label sections \U{201C}Section 1\U{201D} etc. Start right with content.\n\n"

  /** A template of the shape literal, field, literal, field, literal. */
  function TwoFieldTemplate(a: string, f1: string, b: string, f2: string, c: string): seq<Segment> {
    [Literal(a), Field(f1), Literal(b), Field(f2), Literal(c)]
  }

  /** `ARTICLE_PROMPT_TEMPLATE` */
  const ArticleTemplate: seq<Segment> :=
    TwoFieldTemplate(PromptHead, "style_guide", PromptMiddle, "transcript", PromptTail)

  /** Formatting a two-field template with both fields given splices the two values in. */
  function FillTwoFields(a: string, f1: string, b: string, f2: string, c: string, v1: string, v2: string): (p: string)
    requires f1 != f2
    ensures Format(TwoFieldTemplate(a, f1, b, f2, c), map[f1 := v1, f2 := v2]) == Success(p)
    ensures p == a + v1 + b + v2 + c
  {
    var args := map[f1 := v1, f2 := v2];
    FormatTwoFields(a, f1, b, f2, c, args);
    Format(TwoFieldTemplate(a, f1, b, f2, c), args).value
  }

  /**
   * The prompt sent to the model: the template with `{style_guide}` and
   * `{transcript}` filled in, the transcript stripped first.
   */
  function Prompt(transcript: string, styleGuide: string): (p: string)
    ensures Format(ArticleTemplate, map["style_guide" := styleGuide, "transcript" := Text.Strip(transcript)]) == Success(p)
  {
    FillTwoFields(PromptHead, "style_guide", PromptMiddle, "transcript", PromptTail, styleGuide, Text.Strip(transcript))
  }

  /** The prompt is `ARTICLE_PROMPT_TEMPLATE` formatted with the style guide and the stripped transcript. */
  lemma PromptLayout(transcript: string, styleGuide: string)
    ensures Format(ArticleTemplate, map["style_guide" := styleGuide, "transcript" := Text.Strip(transcript)])
         == Success(Prompt(transcript, styleGuide))
    ensures Prompt(transcript, styleGuide) == PromptHead + styleGuide + PromptMiddle + Text.Strip(transcript) + PromptTail
  {
  }

  /** Format of literal, field, literal, field, literal. */
  lemma FormatTwoFields(a: string, f1: string, b: string, f2: string, c: string, args: map<string, string>)
    requires f1 in args && f2 in args
    ensures Format(TwoFieldTemplate(a, f1, b, f2, c), args)
         == Success(a + args[f1] + b + args[f2] + c)
  {
    var t := TwoFieldTemplate(a, f1, b, f2, c);
    assert t[1..] == [Field(f1), Literal(b), Field(f2), Literal(c)];
    assert t[1..][1..] == [Literal(b), Field(f2), Literal(c)];
    assert t[1..][1..][1..] == [Field(f2), Literal(c)];
    assert t[1..][1..][1..][1..] == [Literal(c)];
    assert [Literal(c)][1..] == [];
    assert Format([Literal(c)], args) == Success(c + "");
    assert c + "" == c;
    assert Format(t[1..][1..][1..], args) == Success(args[f2] + c);
    assert Format(t[1..][1..], args) == Success(b + (args[f2] + c));
    assert Format(t[1..], args) == Success(args[f1] + (b + (args[f2] + c)));
    assert Format(t, args) == Success(a + (args[f1] + (b + (args[f2] + c))));
    assert a + (args[f1] + (b + (args[f2] + c))) == a + args[f1] + b + args[f2] + c;
  }

  /** The exceptions `generate_article` raises. */
  datatype GenerationError =
    | EmptyTranscript          // ValueError: the transcript is empty or blank
    | ModelError(message: string)  // RuntimeError: the model's failure, behind a fixed prefix

  const ModelErrorPrefix: string := "Error in Gemini API: "

  /**
   * `generate_article` with the model's `generate_content(prompt).text` as
   * a function that returns the text or the exception raised.
   */
  function GenerateArticle(transcript: string, styleGuide: string, model: string -> Result<string, string>)
    : (r: Result<string, GenerationError>)
    ensures Text.AllSpace(transcript) ==> r == Failure(EmptyTranscript)
    ensures !Text.AllSpace(transcript) && model(Prompt(transcript, styleGuide)).Failure? ==>
      r == Failure(ModelError(ModelErrorPrefix + model(Prompt(transcript, styleGuide)).error))
    ensures r.Success? <==> !Text.AllSpace(transcript) && model(Prompt(transcript, styleGuide)).Success?
    ensures r.Success? ==> r.value == Text.Strip(model(Prompt(transcript, styleGuide)).value)
    ensures r.Success? ==> Text.Strip(r.value) == r.value
  {
    if |transcript| == 0 || |Text.Strip(transcript)| == 0 then
      Failure(EmptyTranscript)
    else
      var prompt := Prompt(transcript, styleGuide);
      match model(prompt)
      case Success(text) =>
        Text.StripIdempotent(text);
        Success(Text.Strip(text))
      case Failure(cause) => Failure(ModelError(ModelErrorPrefix + cause))
  }

  /** A blank transcript is rejected before the model is consulted: no model changes the outcome. */
  lemma BlankRejectedBeforeModel(transcript: string, styleGuide: string,
                                 m1: string -> Result<string, string>, m2: string -> Result<string, string>)
    requires Text.AllSpace(transcript)
    ensures GenerateArticle(transcript, styleGuide, m1) == GenerateArticle(transcript, styleGuide, m2)
  {
  }

  /** The model sees only the prompt: two models that answer it alike give the same outcome. */
  lemma ModelSeesOnlyPrompt(transcript: string, styleGuide: string,
                            m1: string -> Result<string, string>, m2: string -> Result<string, string>)
    requires m1(Prompt(transcript, styleGuide)) == m2(Prompt(transcript, styleGuide))
    ensures GenerateArticle(transcript, styleGuide, m1) == GenerateArticle(transcript, styleGuide, m2)
  {
  }

  /** Surrounding whitespace in the transcript does not reach the prompt. */
  lemma PromptIgnoresPadding(transcript: string, styleGuide: string)
    ensures Prompt(Text.Strip(transcript), styleGuide) == Prompt(transcript, styleGuide)
  {
    Text.StripIdempotent(transcript);
  }

  /** A non-blank transcript can still give an empty article: a blank reply strips to "". */
  lemma BlankReplyGivesEmptyArticle(transcript: string, styleGuide: string,
                                    model: string -> Result<string, string>, reply: string)
    requires !Text.AllSpace(transcript)
    requires model(Prompt(transcript, styleGuide)) == Success(reply) && Text.AllSpace(reply)
    ensures GenerateArticle(transcript, styleGuide, model) == Success("")
  {
  }
}
