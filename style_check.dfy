/**
 * The style refiner (style_check/style_enforcer.py): one call of the
 * grammar-correction model on the draft behind the prefix "gec: ".
 * The model is a function parameter returning its text or the exception.
 */
module StyleCheck {
  import opened Wrappers

  const TaskMarker: string := "gec: "

  /** The model input: the marker, then the draft unchanged. */
  function CorrectorInput(text: string): (input: string)
    ensures |input| == |TaskMarker| + |text|
    ensures input[..|TaskMarker|] == TaskMarker && input[|TaskMarker|..] == text
  {
    TaskMarker + text
  }

  /** The marker is a fixed prefix, so distinct drafts reach the model as distinct inputs. */
  lemma CorrectorInputInjective(a: string, b: string)
    requires CorrectorInput(a) == CorrectorInput(b)
    ensures a == b
  {
    assert a == CorrectorInput(a)[|TaskMarker|..];
  }

  /** `apply_style_guide`: the model's output verbatim, or its exception unchanged. */
  function ApplyStyleGuide<E>(text: string, corrector: string -> Result<string, E>): (r: Result<string, E>)
    ensures r == corrector(TaskMarker + text)
  {
    corrector(CorrectorInput(text))
  }

  /** The corrector is consulted once, on the marked draft only; its answer is passed on as it is. */
  lemma CorrectorSeesMarkedDraft<E>(text: string, c1: string -> Result<string, E>, c2: string -> Result<string, E>)
    requires c1(CorrectorInput(text)) == c2(CorrectorInput(text))
    ensures ApplyStyleGuide(text, c1) == ApplyStyleGuide(text, c2) == c1(TaskMarker + text)
  {
  }
}
