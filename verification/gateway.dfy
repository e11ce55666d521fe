/**
 The two failure policies of the model gateway. The request, the prompt and
 the JSON parser are outside the model: a parse result is an `Option`, with
 `None` standing for a thrown parse error.
 */
module Gateway {
  import opened Types

  /** Roles: a parse failure is swallowed and yields an empty list. */
  function RolesFromResponse(parsed: Option<seq<RecommendedRole>>): (roles: seq<RecommendedRole>)
    ensures parsed.None? ==> roles == []
    ensures parsed.Some? ==> roles == parsed.value
  {
    match parsed
    case Some(rs) => rs
    case None => []
  }

  /** Blueprint: a parse failure is raised to the caller; there is no empty blueprint. */
  function BlueprintFromResponse(parsed: Option<TechnicalBlueprint>): (outcome: GenerationOutcome)
    ensures outcome.GenerationFailed? <==> parsed.None?
    ensures outcome.Generated? ==> outcome.techSpec == parsed.value
  {
    match parsed
    case Some(bp) => Generated(bp)
    case None => GenerationFailed
  }
}
