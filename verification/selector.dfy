/**
 * The style and model validators of strategies/selector.py: lower-case the
 * input, accept it when it is one of a fixed list, otherwise raise
 * `ValueError` (modelled as `Invalid` carrying the error text).
 */
module Selector {
  import opened Strings

  datatype Validated = Valid(value: string) | Invalid(message: string)

  const Styles: seq<string> := ["conventional", "short", "verbose"]
  const Models: seq<string> := ["openai", "huggingface"]

  /** `select_style` */
  function SelectStyle(style: string): (r: Validated)
    ensures r.Valid? <==> Lower(style) in Styles
    ensures r.Valid? ==> r.value == Lower(style)
    ensures r.Invalid? ==> r.message == "Invalid style: " + Lower(style)
  {
    var s := Lower(style);
    if s in Styles then Valid(s) else Invalid("Invalid style: " + s)
  }

  /** `seelct_model` (the name is spelt that way in the source) */
  function SelectModel(model: string): (r: Validated)
    ensures r.Valid? <==> Lower(model) in Models
    ensures r.Valid? ==> r.value == Lower(model)
    ensures r.Invalid? ==> r.message == "Invalid model: " + Lower(model)
  {
    var m := Lower(model);
    if m in Models then Valid(m) else Invalid("Invalid model: " + m)
  }

  /** No invalid style is ever returned. */
  lemma SelectStyleReturnsKnownStyle(style: string)
    ensures SelectStyle(style).Valid? ==> SelectStyle(style).value in Styles
  {
  }

  /** Inputs that differ only in letter case give the same result or the same error. */
  lemma SelectStyleCaseInsensitive(a: string, b: string)
    requires Lower(a) == Lower(b)
    ensures SelectStyle(a) == SelectStyle(b)
  {
  }

  /** Every accepted style is already lower case. */
  lemma {:induction false} StylesAreLower(s: string)
    requires s in Styles
    ensures Lower(s) == s
  {
    assert s == "conventional" || s == "short" || s == "verbose";
  }

  /** Feeding an accepted style back in gives the same answer. */
  lemma SelectStyleIdempotent(style: string)
    requires SelectStyle(style).Valid?
    ensures SelectStyle(SelectStyle(style).value) == SelectStyle(style)
  {
    StylesAreLower(Lower(style));
  }

  /** Inputs that differ only in letter case give the same model or the same error. */
  lemma SelectModelCaseInsensitive(a: string, b: string)
    requires Lower(a) == Lower(b)
    ensures SelectModel(a) == SelectModel(b)
  {
  }

  /**
   * The model validator refuses the two model names the orchestration layer
   * itself uses, `rule-based` and `auto`, in any letter case.
   */
  lemma SelectModelRejectsOrchestratorNames(model: string)
    requires Lower(model) == "rule-based" || Lower(model) == "auto"
    ensures SelectModel(model).Invalid?
  {
  }
}
