/**
 * The brain's handling of model output: recovering a JSON document from a
 * chatty reply (`_clean_and_parse_json`) and the fail-closed contract of
 * `decide_on_candidate`.
 *
 * `json.loads` is the parameter `loads`: `None` stands for `JSONDecodeError`.
 * The prompt construction and the HTTP call are inputs: whether the prompt
 * could be built, and the reply's `message.content` when the call succeeded.
 */
module AgentBrain {
  import opened Wrappers
  import opened DecisionSchema

  datatype ParseFailure =
    | JsonDecodeError  // raised by the second `json.loads`
    | NoJsonFound      // the `ValueError` for a reply without any `{`

  /** `str.find`: the first index of `c`, or -1. */
  function Find(s: string, c: char): (r: int)
    ensures -1 <= r < |s|
    ensures r == -1 <==> c !in s
    ensures r >= 0 ==> s[r] == c && c !in s[..r]
  {
    if s == [] then -1
    else if s[0] == c then 0
    else
      var k := Find(s[1..], c);
      if k == -1 then -1
      else
        assert s[..k + 1] == [s[0]] + s[1..][..k];
        k + 1
  }

  /** `str.rfind`: the last index of `c`, or -1. */
  function RFind(s: string, c: char): (r: int)
    ensures -1 <= r < |s|
    ensures r == -1 <==> c !in s
    ensures r >= 0 ==> s[r] == c && c !in s[r + 1..]
  {
    if s == [] then -1
    else if s[|s| - 1] == c then |s| - 1
    else
      var k := RFind(s[..|s| - 1], c);
      assert s == s[..|s| - 1] + [s[|s| - 1]];
      assert k >= 0 ==> s[k + 1..] == s[..|s| - 1][k + 1..] + [s[|s| - 1]];
      k
  }

  /** A first occurrence is where `find` reports it. */
  lemma FindAt(s: string, c: char, i: nat)
    requires i < |s| && s[i] == c && c !in s[..i]
    ensures Find(s, c) == i
  {
  }

  /** A last occurrence is where `rfind` reports it. */
  lemma RFindAt(s: string, c: char, i: nat)
    requires i < |s| && s[i] == c && c !in s[i + 1..]
    ensures RFind(s, c) == i
  {
  }

  /** Python's `s[start:end]` for non-negative bounds: clamped to the text, empty when reversed. */
  function PySlice(s: string, start: nat, end: nat): (r: string)
    ensures start <= end <= |s| ==> r == s[start..end]
    ensures end <= start ==> r == ""
    ensures start <= |s| <= end ==> r == s[start..]
    ensures |s| <= start ==> r == ""
  {
    var lo := if start < |s| then start else |s|;
    var hi := if end < |s| then end else |s|;
    if hi <= lo then "" else s[lo..hi]
  }

  /**
   * The text the fallback hands to `json.loads`: from the first `{` through
   * the last `}`, or the empty text when no `}` follows the first `{`.
   */
  function BraceSpan(raw: string): (span: string)
    requires '{' in raw
    ensures Find(raw, '{') < RFind(raw, '}') ==>
              && span == raw[Find(raw, '{')..RFind(raw, '}') + 1]
              && span[0] == '{' && span[|span| - 1] == '}'
              && '{' !in raw[..Find(raw, '{')] && '}' !in raw[RFind(raw, '}') + 1..]
    ensures RFind(raw, '}') < Find(raw, '{') ==> span == ""
  {
    var start := Find(raw, '{');
    var end := RFind(raw, '}') + 1;
    PySlice(raw, start, end)
  }

  /**
   * `_clean_and_parse_json`: the reply itself if it parses, otherwise the
   * brace span. The guard `end != -1` can never fail, because `rfind` plus
   * one is at least 0, so only a reply without `{` raises the `ValueError`.
   */
  function CleanAndParseJson(raw: string, loads: string -> Option<Json>): (r: Result<Json, ParseFailure>)
    ensures loads(raw).Some? ==> r == Ok(loads(raw).value)
    ensures r == Err(NoJsonFound) <==> loads(raw).None? && '{' !in raw
    ensures loads(raw).None? && '{' in raw ==>
              if loads(BraceSpan(raw)).Some? then r == Ok(loads(BraceSpan(raw)).value) else r == Err(JsonDecodeError)
  {
    match loads(raw)
    case Some(doc) => Ok(doc)
    case None =>
      var start := Find(raw, '{');
      var end := RFind(raw, '}') + 1;
      if start != -1 && end != -1 then
        match loads(PySlice(raw, start, end))
        case Some(doc) => Ok(doc)
        case None => Err(JsonDecodeError)
      else
        Err(NoJsonFound)
  }

  /**
   * A reply whose only braces outside the object are an opening-brace-free
   * preamble and a closing-brace-free trailer (markdown fences, chatter)
   * yields the object itself.
   */
  lemma ChatterAroundObjectIsStripped(pre: string, obj: string, post: string, loads: string -> Option<Json>)
    requires |obj| >= 2 && obj[0] == '{' && obj[|obj| - 1] == '}'
    requires '{' !in pre && '}' !in post
    requires loads(pre + obj + post).None?
    ensures CleanAndParseJson(pre + obj + post, loads)
            == (if loads(obj).Some? then Ok(loads(obj).value) else Err(JsonDecodeError))
  {
    var raw := pre + obj + post;
    assert raw[..|pre|] == pre;
    assert raw[|pre|] == '{';
    FindAt(raw, '{', |pre|);
    var last := |pre| + |obj| - 1;
    assert raw[last] == '}';
    assert raw[last + 1..] == post;
    RFindAt(raw, '}', last);
    assert raw[|pre|..last + 1] == obj;
  }

  /** A reply with `{` but no `}` fails with a decode error, never with the `ValueError`. */
  lemma UnclosedBraceIsDecodeError(raw: string, loads: string -> Option<Json>)
    requires '{' in raw && '}' !in raw
    requires loads(raw).None? && loads("").None?
    ensures CleanAndParseJson(raw, loads) == Err(JsonDecodeError)
  {
  }

  /**
   * `decide_on_candidate`: every failure (prompt, call, extraction,
   * validation) is caught and yields `None`; a decision is returned only when
   * every step succeeds, and then its confidence is in [0, 1].
   */
  function DecideOnCandidate(promptBuilt: bool, content: Option<string>, loads: string -> Option<Json>)
    : (r: Option<AgentDecision>)
    ensures r.Some? <==>
              && promptBuilt && content.Some?
              && CleanAndParseJson(content.value, loads).Ok?
              && Validate(CleanAndParseJson(content.value, loads).value).Ok?
    ensures r.Some? ==> r.value == Validate(CleanAndParseJson(content.value, loads).value).value
    ensures r.Some? ==> 0.0 <= r.value.confidenceScore <= 1.0
  {
    if !promptBuilt || content.None? then None
    else match CleanAndParseJson(content.value, loads)
      case Err(_) => None
      case Ok(data) =>
        match Validate(data)
        case Err(_) => None
        case Ok(decision) => Some(decision)
  }
}
