/** Driver narrative template selection (`driver_interpreter`): a driver's templates are tried in
    order, and the first whose `when` rule admits the evidence strength supplies the narrative.

    Templates are an ordered list of (name, template) pairs because the selector iterates them. A
    rule's bounds are numbers here; a template's `text` may be missing, which raises only when
    that template is chosen. Loading the definitions from YAML and formatting the chosen text are
    not part of this model.
 */
module DriverInterpreter {
  import opened Values

  /** The keys a `when` rule may carry: `strength_gte`, `strength_between [low, high]`,
      `strength_lt`. */
  datatype Rules = Rules(strengthGte: Option<real>, strengthBetween: Option<(real, real)>, strengthLt: Option<real>)

  datatype Template = Template(when: Option<Rules>, text: Option<string>)

  datatype Driver = Driver(templates: seq<(string, Template)>)

  /** `template.get("when", {})`. */
  function RulesOf(t: Template): Rules
  {
    if t.when.Some? then t.when.value else Rules(None, None, None)
  }

  /** Whether any of the three tests of the selector admits the strength. */
  predicate Matches(t: Template, strength: real)
  {
    var rules := RulesOf(t);
    || (rules.strengthGte.Some? && strength >= rules.strengthGte.value)
    || (rules.strengthBetween.Some? && rules.strengthBetween.value.0 <= strength < rules.strengthBetween.value.1)
    || (rules.strengthLt.Some? && strength < rules.strengthLt.value)
  }

  /** The index of the first template that admits the strength, if any. */
  function FirstMatch(templates: seq<(string, Template)>, strength: real): (r: Option<nat>)
    ensures r.Some? ==> r.value < |templates| && Matches(templates[r.value].1, strength)
    ensures r.Some? ==> forall j :: 0 <= j < r.value ==> !Matches(templates[j].1, strength)
    ensures r.None? <==> forall j :: 0 <= j < |templates| ==> !Matches(templates[j].1, strength)
    decreases |templates|
  {
    if templates == [] then None
    else if Matches(templates[0].1, strength) then Some(0)
    else match FirstMatch(templates[1..], strength)
      case None => None
      case Some(i) => Some(i + 1)
  }

  /** `template["text"]`. */
  function TextOf(t: Template): Result<string, PyError>
  {
    if t.text.Some? then Ok(t.text.value) else Err(KeyError("text"))
  }

  /** `select_template`: returns at the first template that admits the strength, with its text;
      None when none does. */
  function SelectTemplate(templates: seq<(string, Template)>, strength: real): (r: Result<Option<string>, PyError>)
    ensures FirstMatch(templates, strength).None? ==> r == Ok(None)
    ensures FirstMatch(templates, strength).Some? ==>
      var t := templates[FirstMatch(templates, strength).value].1;
      && (t.text.Some? ==> r == Ok(Some(t.text.value)))
      && (t.text.None? ==> r == Err(KeyError("text")))
    decreases |templates|
  {
    if templates == [] then Ok(None)
    else if Matches(templates[0].1, strength) then
      match TextOf(templates[0].1)
      case Err(e) => Err(e)
      case Ok(text) => Ok(Some(text))
    else SelectTemplate(templates[1..], strength)
  }

  /** `strength_between [low, high]` is half-open: it admits `low` and excludes `high`. */
  lemma BetweenIsHalfOpen(low: real, high: real, strength: real, text: Option<string>)
    ensures Matches(Template(Some(Rules(None, Some((low, high)), None)), text), strength) <==> low <= strength < high
  {
  }

  /** A template without a `when` rule never matches. */
  lemma NoRuleNeverMatches(t: Template, strength: real)
    requires t.when.None?
    ensures !Matches(t, strength)
  {
  }

  /** Three bands that meet at their bounds, `strength_gte high`, `strength_between [low, high]`
      and `strength_lt low`, cover every strength: the selector always finds exactly the band the
      strength lies in. */
  lemma {:induction false} ContiguousBandsAlwaysSelect(low: real, high: real, strength: real, strong: string, moderate: string, weak: string)
    requires low <= high
    ensures
      var templates := [("strong", Template(Some(Rules(Some(high), None, None)), Some(strong))),
                        ("moderate", Template(Some(Rules(None, Some((low, high)), None)), Some(moderate))),
                        ("weak", Template(Some(Rules(None, None, Some(low))), Some(weak)))];
      SelectTemplate(templates, strength)
        == Ok(Some(if strength >= high then strong else if strength >= low then moderate else weak))
  {
    var templates := [("strong", Template(Some(Rules(Some(high), None, None)), Some(strong))),
                      ("moderate", Template(Some(Rules(None, Some((low, high)), None)), Some(moderate))),
                      ("weak", Template(Some(Rules(None, None, Some(low))), Some(weak)))];
    assert templates[1..] == [templates[1], templates[2]];
    assert templates[1..][1..] == [templates[2]];
  }

  /** `generate_driver_narrative` up to formatting: None for an unknown driver, None when no
      template admits the strength (which defaults to 0) or the chosen text is empty, otherwise
      the chosen template text. */
  function GenerateDriverNarrative(driverId: string, strength: Option<real>, definitions: map<string, Driver>)
    : (r: Result<Option<string>, PyError>)
    ensures driverId !in definitions ==> r == Ok(None)
    ensures driverId in definitions ==>
      var selected := SelectTemplate(definitions[driverId].templates, if strength.Some? then strength.value else 0.0);
      && (selected.Err? ==> r == selected)
      && (selected.Ok? ==> (r.Ok? && (r.value.Some? <==> selected.value.Some? && selected.value.value != "")))
      && (r.Ok? && r.value.Some? ==> r == selected)
  {
    if driverId !in definitions then Ok(None)
    else
      var s := if strength.Some? then strength.value else 0.0;
      match SelectTemplate(definitions[driverId].templates, s)
      case Err(e) => Err(e)
      case Ok(text) => if text.None? || text.value == "" then Ok(None) else Ok(text)
  }

  /** A driver none of whose templates admits the strength yields no narrative. */
  lemma NoMatchNoNarrative(driverId: string, strength: real, definitions: map<string, Driver>)
    requires driverId in definitions
    requires forall j :: 0 <= j < |definitions[driverId].templates| ==> !Matches(definitions[driverId].templates[j].1, strength)
    ensures GenerateDriverNarrative(driverId, Some(strength), definitions) == Ok(None)
  {
  }
}
