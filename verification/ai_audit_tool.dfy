/**
 * The business-audit tool (components/AIAuditTool.tsx): a free-text
 * description is sent to a generative-AI service, which answers with a
 * roadmap; failures are classified into user-facing messages. The API key and
 * the service call's outcome are inputs.
 */
module AIAuditTool {
  import opened Wrappers
  import Text

  datatype RoadmapStep = RoadmapStep(title: string, description: string, tool: string)

  /** The parsed reply (`AuditResult`). */
  datatype Roadmap = Roadmap(title: string, steps: seq<RoadmapStep>, potential: string)

  /** The three error messages the tool can show. */
  datatype AuditError = KeyMissing | FilterBlocked | Generic
  {
    /** The message shown to the user. */
    function Shown(): string {
      match this
      case KeyMissing => "מפתח ה-API חסר. נא לפנות לטויבי."
      case FilterBlocked => "סינון האינטרנט (NetFree) חוסם את הגישה ל-AI. יש לבקש פתיחה של generativelanguage.googleapis.com."
      case Generic => "אופס, ה-AI שלנו לקח רגע לעצמו. נסה שוב או פנה ישירות לטויבי ב-052-7179418."
    }
  }

  datatype AuditState = AuditState(input: string, loading: bool, result: Option<Roadmap>, error: Option<AuditError>)

  const Initial: AuditState := AuditState("", false, None, None)

  /** How the generation ended: a parsed roadmap, or an error with its `JSON.stringify` text. */
  datatype Outcome = Generated(roadmap: Roadmap) | Failed(serialized: string)

  /** `!apiKey`: unset or empty. */
  predicate KeyAbsent(apiKey: Option<string>) {
    apiKey == None || apiKey == Some("")
  }

  /** What the synchronous part of `generateStrategy` did. */
  datatype Begun = Refused(state: AuditState) | Requesting(state: AuditState)

  function Begin(s: AuditState, apiKey: Option<string>): (b: Begun)
    ensures b.Refused? <==> Text.IsBlank(s.input) || KeyAbsent(apiKey)
    ensures b.Refused? && KeyAbsent(apiKey) ==> b.state == s.(error := Some(KeyMissing))
    ensures b.Refused? && !KeyAbsent(apiKey) ==> b.state == s
    ensures b.Requesting? ==> b.state == s.(loading := true, error := None)
  {
    if Text.Trim(s.input) == [] || KeyAbsent(apiKey) then
      Refused(if KeyAbsent(apiKey) then s.(error := Some(KeyMissing)) else s)
    else
      Requesting(s.(loading := true, error := None))
  }

  /** The catch block's test: an internet filter (HTTP 418 or "blocked") in the lower-cased serialisation. */
  function Classify(serialized: string): (e: AuditError)
    ensures e == FilterBlocked <==>
              Text.Contains(Text.ToLower(serialized), "418") || Text.Contains(Text.ToLower(serialized), "blocked")
    ensures e != KeyMissing
  {
    var lower := Text.ToLower(serialized);
    if Text.Contains(lower, "418") || Text.Contains(lower, "blocked") then FilterBlocked else Generic
  }

  /** The asynchronous part, after the service answered. */
  function Finish(s: AuditState, outcome: Outcome): (r: AuditState)
    ensures !r.loading && r.input == s.input
    ensures outcome.Generated? ==> r.result == Some(outcome.roadmap) && r.error == s.error
    ensures outcome.Failed? ==> r.result == s.result && r.error == Some(Classify(outcome.serialized))
  {
    match outcome
    case Generated(roadmap) => s.(result := Some(roadmap), loading := false)
    case Failed(serialized) => s.(error := Some(Classify(serialized)), loading := false)
  }

  /** The whole of `generateStrategy`. */
  function Generate(s: AuditState, apiKey: Option<string>, outcome: Outcome): AuditState {
    match Begin(s, apiKey)
    case Refused(t) => t
    case Requesting(t) => Finish(t, outcome)
  }

  /** Without a key, or with a blank description, nothing is requested and `loading` is untouched. */
  lemma RefusedLeavesLoading(s: AuditState, apiKey: Option<string>, outcome: Outcome)
    requires Text.IsBlank(s.input) || KeyAbsent(apiKey)
    ensures Generate(s, apiKey, outcome).loading == s.loading
    ensures Generate(s, apiKey, outcome).result == s.result
  {
  }

  /** Whenever a request was made, `loading` is off afterwards and at most one of result and error changed. */
  lemma RequestEndsNotLoading(s: AuditState, apiKey: Option<string>, outcome: Outcome)
    requires !Text.IsBlank(s.input) && !KeyAbsent(apiKey)
    ensures var r := Generate(s, apiKey, outcome);
            && !r.loading
            && (outcome.Generated? ==> r.error == None && r.result == Some(outcome.roadmap))
            && (outcome.Failed? ==> r.result == s.result && r.error.Some?)
  {
  }

  /** The test ignores case: an upper-case "BLOCKED" in the error is recognised as the filter. */
  lemma UpperCaseBlockedRecognised(pre: string, post: string)
    ensures Classify(pre + "BLOCKED" + post) == FilterBlocked
  {
    var s := pre + "BLOCKED" + post;
    var lower := Text.ToLower(s);
    assert lower[|pre|..|pre| + 7] == "blocked";
    assert Text.OccursAt(lower, "blocked", |pre|);
  }

  /** A status 418 anywhere in the error is recognised as the filter. */
  lemma Status418Recognised(pre: string, post: string)
    ensures Classify(pre + "418" + post) == FilterBlocked
  {
    var s := pre + "418" + post;
    var lower := Text.ToLower(s);
    assert lower[|pre|..|pre| + 3] == "418";
    assert Text.OccursAt(lower, "418", |pre|);
  }

  /** "Another analysis": clear the roadmap and the description. */
  function AnotherAnalysis(s: AuditState): (r: AuditState)
    ensures r.result == None && r.input == []
    ensures r.loading == s.loading && r.error == s.error
  {
    s.(result := None, input := [])
  }

  /** The generate button is disabled while loading or while the description is blank. */
  predicate GenerateEnabled(s: AuditState) {
    !s.loading && Text.Trim(s.input) != []
  }

  /** The button is enabled exactly when nothing is loading and the description is not blank. */
  lemma EnabledIffNotBlank(s: AuditState)
    ensures GenerateEnabled(s) <==> !s.loading && !Text.IsBlank(s.input)
  {
  }

  /** Through the button, a blank description can never reach the service. */
  lemma EnabledMeansRequestUnlessKeyMissing(s: AuditState, apiKey: Option<string>)
    requires !s.loading && !Text.IsBlank(s.input)
    ensures GenerateEnabled(s)
    ensures Begin(s, apiKey).Requesting? <==> !KeyAbsent(apiKey)
  {
    EnabledIffNotBlank(s);
  }
}
