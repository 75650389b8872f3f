/**
 * The structured decision an agent's brain returns, and the validation a
 * parsed JSON document goes through to become one (`AgentDecision(**data)`).
 */
module DecisionSchema {
  import opened Wrappers

  /** A parsed JSON document; object keys are unique, a repeated key keeps its last value. */
  datatype Json =
    | JNull
    | JBool(b: bool)
    | JNum(n: real)
    | JStr(s: string)
    | JArr(items: seq<Json>)
    | JObj(fields: map<string, Json>)

  datatype Decision = Accept | Reject | Hold

  datatype AgentDecision = AgentDecision(
    decision: Decision,
    confidenceScore: real,
    reasoning: string,
    generatedMessage: Option<string>)

  datatype ValidationError =
    | NotAMapping
    | MissingField(name: string)
    | WrongType(name: string)
    | ScoreOutOfRange

  /** The literal each decision is written as. */
  function Label(d: Decision): string
  {
    match d
    case Accept => "ACCEPT"
    case Reject => "REJECT"
    case Hold => "HOLD"
  }

  /** The `Literal["ACCEPT", "REJECT", "HOLD"]` field: exactly one of the three words. */
  function DecisionFromLabel(s: string): (d: Option<Decision>)
    ensures d.Some? <==> s == "ACCEPT" || s == "REJECT" || s == "HOLD"
    ensures d.Some? ==> Label(d.value) == s
  {
    if s == "ACCEPT" then Some(Accept)
    else if s == "REJECT" then Some(Reject)
    else if s == "HOLD" then Some(Hold)
    else None
  }

  lemma LabelRoundTrip(d: Decision)
    ensures DecisionFromLabel(Label(d)) == Some(d)
  {
  }

  /** The `check_score` validator: both ends of [0, 1] are accepted, the value is kept. */
  function CheckScore(v: real): (r: Result<real, ValidationError>)
    ensures r.Ok? <==> 0.0 <= v <= 1.0
    ensures r.Ok? ==> r.value == v
    ensures r.Err? ==> r.error == ScoreOutOfRange
  {
    if !(0.0 <= v && v <= 1.0) then Err(ScoreOutOfRange) else Ok(v)
  }

  /** The three required fields are present with the right JSON types; the optional one is absent, null or a string. */
  predicate WellTyped(data: Json)
  {
    && data.JObj?
    && "decision" in data.fields && data.fields["decision"].JStr?
    && DecisionFromLabel(data.fields["decision"].s).Some?
    && "confidence_score" in data.fields && data.fields["confidence_score"].JNum?
    && "reasoning" in data.fields && data.fields["reasoning"].JStr?
    && ("generated_message" in data.fields ==>
          data.fields["generated_message"].JNull? || data.fields["generated_message"].JStr?)
  }

  /** The optional `generated_message`: absent and null are both `None`. */
  function GeneratedMessage(fields: map<string, Json>): (r: Result<Option<string>, ValidationError>)
    ensures r.Ok? <==> "generated_message" !in fields || fields["generated_message"].JNull? || fields["generated_message"].JStr?
    ensures r.Ok? && r.value.Some? ==> "generated_message" in fields && fields["generated_message"] == JStr(r.value.value)
    ensures "generated_message" in fields && fields["generated_message"].JStr? ==> r == Ok(Some(fields["generated_message"].s))
    ensures r.Err? ==> r.error == WrongType("generated_message")
  {
    if "generated_message" !in fields then Ok(None)
    else match fields["generated_message"]
      case JNull => Ok(None)
      case JStr(m) => Ok(Some(m))
      case _ => Err(WrongType("generated_message"))
  }

  /** `AgentDecision(**data)`: the first failing field decides the error. */
  function Validate(data: Json): (r: Result<AgentDecision, ValidationError>)
    ensures r.Ok? <==> WellTyped(data) && 0.0 <= data.fields["confidence_score"].n <= 1.0
    ensures r.Ok? ==> Label(r.value.decision) == data.fields["decision"].s
    ensures r.Ok? ==> r.value.confidenceScore == data.fields["confidence_score"].n
    ensures r.Ok? ==> r.value.reasoning == data.fields["reasoning"].s
    ensures r.Ok? ==> (r.value.generatedMessage.None? <==>
              "generated_message" !in data.fields || data.fields["generated_message"].JNull?)
    ensures r.Ok? && "generated_message" in data.fields && data.fields["generated_message"].JStr? ==>
              r.value.generatedMessage == Some(data.fields["generated_message"].s)
  {
    if !data.JObj? then Err(NotAMapping)
    else
      var f := data.fields;
      if "decision" !in f then Err(MissingField("decision"))
      else if !f["decision"].JStr? || DecisionFromLabel(f["decision"].s).None? then Err(WrongType("decision"))
      else if "confidence_score" !in f then Err(MissingField("confidence_score"))
      else if !f["confidence_score"].JNum? then Err(WrongType("confidence_score"))
      else if CheckScore(f["confidence_score"].n).Err? then Err(ScoreOutOfRange)
      else if "reasoning" !in f then Err(MissingField("reasoning"))
      else if !f["reasoning"].JStr? then Err(WrongType("reasoning"))
      else if GeneratedMessage(f).Err? then Err(GeneratedMessage(f).error)
      else Ok(AgentDecision(
        DecisionFromLabel(f["decision"].s).value,
        CheckScore(f["confidence_score"].n).value,
        f["reasoning"].s,
        GeneratedMessage(f).value))
  }

  /** The JSON form of a decision, as the prompt's schema shows it. */
  function ToJson(d: AgentDecision): Json
  {
    var base := map[
      "decision" := JStr(Label(d.decision)),
      "confidence_score" := JNum(d.confidenceScore),
      "reasoning" := JStr(d.reasoning)];
    match d.generatedMessage
    case None => JObj(base)
    case Some(m) => JObj(base["generated_message" := JStr(m)])
  }

  /** A decision with a confidence in [0, 1] survives its JSON form unchanged. */
  lemma ValidateToJson(d: AgentDecision)
    requires 0.0 <= d.confidenceScore <= 1.0
    ensures Validate(ToJson(d)) == Ok(d)
  {
    LabelRoundTrip(d.decision);
  }
}
