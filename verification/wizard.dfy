/**
 The wizard in the application root: the current step, the accumulated team
 data, roles and blueprint, the generating flag, the four forward handlers,
 and the page rendering that decides which handler the user can reach.

 The blueprint request is not executed: `handleTemplateSelected` takes its
 outcome as an argument and runs as one atomic step, with `Pending` as the
 state the page is rendered in while the request is outstanding.
 */
module Wizard {
  import opened Types
  import CreateTeam
  import TemplateSelection
  import Gateway

  datatype State = State(
    step: Step,
    teamData: Option<TeamData>,
    roles: seq<RecommendedRole>,
    blueprint: Option<ProjectBlueprint>,
    isGenerating: bool)

  /** On load: landing page, no team, no roles, no blueprint, not generating. */
  const Initial := State(LANDING, None, [], None, false)

  /** The number the step indicator shows for a step. */
  function StepNumber(step: Step): (n: nat)
    ensures n <= 4
  {
    match step
    case LANDING => 0
    case CREATE_TEAM => 1
    case ROLE_RECO => 2
    case TEMPLATE => 3
    case DASHBOARD => 4
  }

  /** The steps in the order a user walks through them. */
  const WizardOrder: seq<Step> := [LANDING, CREATE_TEAM, ROLE_RECO, TEMPLATE, DASHBOARD]

  /**
   The step number is the step's position in the wizard order, so the map is
   injective and strictly increasing along the walk.
   */
  lemma StepNumberIsPosition(step: Step)
    ensures StepNumber(step) < |WizardOrder| && WizardOrder[StepNumber(step)] == step
    ensures forall i :: 0 <= i < |WizardOrder| ==> StepNumber(WizardOrder[i]) == i
  {
  }

  lemma StepNumberInjective(a: Step, b: Step)
    ensures StepNumber(a) == StepNumber(b) ==> a == b
  {
    StepNumberIsPosition(a);
    StepNumberIsPosition(b);
  }

  /** The landing page's start button. */
  function HandleStart(s: State): (r: State)
    ensures r.step == CREATE_TEAM
    ensures r.(step := s.step) == s
  {
    s.(step := CREATE_TEAM)
  }

  /** The team form's submission: the record is stored as given. */
  function HandleTeamCreated(s: State, data: TeamData): (r: State)
    ensures r.step == ROLE_RECO && r.teamData == Some(data)
    ensures r.roles == s.roles && r.blueprint == s.blueprint && r.isGenerating == s.isGenerating
  {
    s.(teamData := Some(data), step := ROLE_RECO)
  }

  /** The role page's confirmation: the list is stored as given, even when empty. */
  function HandleRolesConfirmed(s: State, confirmed: seq<RecommendedRole>): (r: State)
    ensures r.step == TEMPLATE && r.roles == confirmed
    ensures r.teamData == s.teamData && r.blueprint == s.blueprint && r.isGenerating == s.isGenerating
  {
    s.(roles := confirmed, step := TEMPLATE)
  }

  /** The state while the blueprint request is outstanding. */
  function Pending(s: State): State {
    s.(isGenerating := true)
  }

  /**
   The end of the request: a blueprint commits the aggregate and the last
   step, an error commits nothing, and the flag is cleared either way.
   */
  function Settle(p: State, template: TemplateChoice, outcome: GenerationOutcome): State
    requires p.teamData.Some?
  {
    var committed :=
      match outcome
      case Generated(spec) =>
        p.(blueprint := Some(ProjectBlueprint(p.teamData.value, p.roles, template, spec)),
           step := DASHBOARD)
      case GenerationFailed => p;
    committed.(isGenerating := false)
  }

  /**
   The template page's confirmation. Without team data nothing happens; with
   it, a successful request yields the blueprint of the stored team, the
   stored roles, the given template and the generated spec, and a failed one
   leaves step, team data, roles and blueprint as they were.
   */
  function HandleTemplateSelected(s: State, template: TemplateChoice, outcome: GenerationOutcome): (r: State)
    ensures s.teamData.None? ==> r == s
    ensures s.teamData.Some? && outcome.Generated? ==>
              && r.step == DASHBOARD
              && r.blueprint == Some(ProjectBlueprint(s.teamData.value, s.roles, template, outcome.techSpec))
              && r.teamData == s.teamData && r.roles == s.roles
    ensures s.teamData.Some? && outcome.GenerationFailed? ==>
              r.step == s.step && r.teamData == s.teamData && r.roles == s.roles && r.blueprint == s.blueprint
    ensures s.teamData.Some? ==> !r.isGenerating
  {
    if s.teamData.None? then s else Settle(Pending(s), template, outcome)
  }

  /** What the root renders; the non-null assertions pass on whatever is stored. */
  datatype Page =
    | Spinner
    | LandingPage
    | CreateTeamPage
    | RoleRecoPage(team: Option<TeamData>)
    | TemplatePage
    | DashboardPage(shown: Option<ProjectBlueprint>)

  /**
   The spinner while generating, otherwise the current step's page; the role
   page and the dashboard are handed whatever team data and blueprint are stored.
   */
  function RenderPage(s: State): (p: Page)
    ensures p.Spinner? <==> s.isGenerating
    ensures !s.isGenerating ==>
              && (p.LandingPage? <==> s.step == LANDING)
              && (p.CreateTeamPage? <==> s.step == CREATE_TEAM)
              && (p.RoleRecoPage? <==> s.step == ROLE_RECO)
              && (p.TemplatePage? <==> s.step == TEMPLATE)
              && (p.DashboardPage? <==> s.step == DASHBOARD)
    ensures p.RoleRecoPage? ==> p.team == s.teamData
    ensures p.DashboardPage? ==> p.shown == s.blueprint
  {
    if s.isGenerating then Spinner
    else match s.step
      case LANDING => LandingPage
      case CREATE_TEAM => CreateTeamPage
      case ROLE_RECO => RoleRecoPage(s.teamData)
      case TEMPLATE => TemplatePage
      case DASHBOARD => DashboardPage(s.blueprint)
  }

  /** A user action reaching the root through one of the four handlers. */
  datatype Action =
    | Start
    | SubmitTeam(data: TeamData)
    | ConfirmRoles(confirmed: seq<RecommendedRole>)
    | SelectTemplate(template: TemplateChoice, outcome: GenerationOutcome)

  /**
   A page offers only its own handler, with the inputs that page can produce:
   the form submits only valid teams, the template page only valid choices.
   The spinner and the dashboard offer nothing.
   */
  predicate Offers(p: Page, a: Action) {
    match a
    case Start => p.LandingPage?
    case SubmitTeam(d) => p.CreateTeamPage? && CreateTeam.ValidTeam(d)
    case ConfirmRoles(_) => p.RoleRecoPage?
    case SelectTemplate(t, _) => p.TemplatePage? && TemplateSelection.ValidChoice(t)
  }

  function Handle(s: State, a: Action): State {
    match a
    case Start => HandleStart(s)
    case SubmitTeam(d) => HandleTeamCreated(s, d)
    case ConfirmRoles(rs) => HandleRolesConfirmed(s, rs)
    case SelectTemplate(t, o) => HandleTemplateSelected(s, t, o)
  }

  /**
   One user action on the rendered page: rejected unless the page offers it.
   An accepted action is the current step's own handler; nothing is accepted
   while generating or on the dashboard, and an accepted action either leaves
   the state as it was or advances the step by exactly one.
   */
  function Next(s: State, a: Action): (r: Option<State>)
    ensures r.Some? <==> Offers(RenderPage(s), a)
    ensures r.Some? ==> !s.isGenerating && s.step != DASHBOARD
    ensures r.Some? ==>
              && (a.Start? ==> s.step == LANDING)
              && (a.SubmitTeam? ==> s.step == CREATE_TEAM)
              && (a.ConfirmRoles? ==> s.step == ROLE_RECO)
              && (a.SelectTemplate? ==> s.step == TEMPLATE)
    ensures r.Some? ==> r.value == s || StepNumber(r.value.step) == StepNumber(s.step) + 1
  {
    if Offers(RenderPage(s), a) then Some(Handle(s, a)) else None
  }

  /** A sequence of user actions; `None` as soon as one is not on offer. */
  function Run(s: State, actions: seq<Action>): Option<State>
    decreases |actions|
  {
    if |actions| == 0 then Some(s)
    else match Next(s, actions[0])
      case None => None
      case Some(t) => Run(t, actions[1..])
  }

  /**
   The invariant of every reachable state: not generating; a blueprint
   exactly at the dashboard; team data exactly from the role step on, and
   always one the form could submit; no roles before the template step; and
   a blueprint that aggregates the stored team, the stored roles and a
   choice the template page could hand over.
   */
  predicate Inv(s: State) {
    && !s.isGenerating
    && (s.blueprint.Some? <==> s.step == DASHBOARD)
    && (s.teamData.Some? <==> StepNumber(s.step) >= 2)
    && (StepNumber(s.step) < 3 ==> s.roles == [])
    && (s.teamData.Some? ==> CreateTeam.ValidTeam(s.teamData.value))
    && (s.blueprint.Some? ==>
          && s.teamData == Some(s.blueprint.value.team)
          && s.blueprint.value.roles == s.roles
          && TemplateSelection.ValidChoice(s.blueprint.value.template))
  }

  lemma InitialSatisfiesInv()
    ensures Inv(Initial)
  {
  }

  /** Every accepted action keeps the invariant. */
  lemma NextKeepsInv(s: State, a: Action)
    requires Inv(s)
    ensures Next(s, a).Some? ==> Inv(Next(s, a).value)
  {
  }

  /**
   With the invariant, the only accepted action that leaves the state as it
   was is a failed generation; every other one advances by exactly one step.
   */
  lemma NextAdvancesUnlessFailed(s: State, a: Action)
    requires Inv(s)
    requires Next(s, a).Some?
    ensures Next(s, a).value == s <==> a.SelectTemplate? && a.outcome.GenerationFailed?
    ensures Next(s, a).value != s ==> StepNumber(Next(s, a).value.step) == StepNumber(s.step) + 1
  {
  }

  /** A failed generation on the template page commits nothing: the state is unchanged. */
  lemma FailedGenerationCommitsNothing(s: State, t: TemplateChoice)
    requires Inv(s) && s.step == TEMPLATE
    requires TemplateSelection.ValidChoice(t)
    ensures Next(s, SelectTemplate(t, GenerationFailed)) == Some(s)
  {
  }

  /** Every state reached from a state satisfying the invariant satisfies it. */
  lemma {:induction false} RunKeepsInv(s: State, actions: seq<Action>)
    requires Inv(s)
    ensures Run(s, actions).Some? ==> Inv(Run(s, actions).value)
    decreases |actions|
  {
    if |actions| > 0 {
      NextKeepsInv(s, actions[0]);
      if Next(s, actions[0]).Some? {
        RunKeepsInv(Next(s, actions[0]).value, actions[1..]);
      }
    }
  }

  /**
   The step never moves backwards along a run, and each action advances it
   by at most one.
   */
  lemma {:induction false} RunNeverMovesBack(s: State, actions: seq<Action>)
    ensures Run(s, actions).Some? ==>
              && StepNumber(s.step) <= StepNumber(Run(s, actions).value.step)
              && StepNumber(Run(s, actions).value.step) <= StepNumber(s.step) + |actions|
    decreases |actions|
  {
    if |actions| > 0 && Next(s, actions[0]).Some? {
      RunNeverMovesBack(Next(s, actions[0]).value, actions[1..]);
    }
  }

  /**
   In every state reachable from the initial one, the invariant holds, so the
   `if (teamData)` guard of the template handler never blocks and both
   non-null assertions in the rendering are passed a present value.
   */
  lemma ReachableStatesAreSafe(actions: seq<Action>)
    requires Run(Initial, actions).Some?
    ensures Inv(Run(Initial, actions).value)
    ensures Run(Initial, actions).value.step == TEMPLATE ==> Run(Initial, actions).value.teamData.Some?
    ensures RenderPage(Run(Initial, actions).value).RoleRecoPage? ==>
              RenderPage(Run(Initial, actions).value).team.Some?
    ensures RenderPage(Run(Initial, actions).value).DashboardPage? ==>
              RenderPage(Run(Initial, actions).value).shown.Some?
  {
    InitialSatisfiesInv();
    RunKeepsInv(Initial, actions);
  }

  /** While the request is outstanding the spinner is shown and no handler is reachable. */
  lemma PendingOffersNothing(s: State, a: Action)
    ensures RenderPage(Pending(s)) == Spinner
    ensures Next(Pending(s), a).None?
  {
  }

  /**
   The gateway's two failure policies meet the wizard differently: an
   unparsable role list becomes an empty list that the role page still
   confirms, moving on to the template step; an unparsable blueprint fails
   generation and the wizard stays where it was.
   */
  lemma GatewayFailuresAsymmetric(s: State, t: TemplateChoice)
    requires Inv(s)
    requires TemplateSelection.ValidChoice(t)
    ensures s.step == ROLE_RECO ==>
              Next(s, ConfirmRoles(Gateway.RolesFromResponse(None))) == Some(s.(step := TEMPLATE))
    ensures s.step == TEMPLATE ==>
              Next(s, SelectTemplate(t, Gateway.BlueprintFromResponse(None))) == Some(s)
  {
  }

  /**
   A full walk: team "Quzz" with a three-entry Java stack, three confirmed
   roles, the atomic structure, and a generated blueprint ends on the
   dashboard with a blueprint for that team and those three roles.
   */
  lemma EndToEndWalk(roles: seq<RecommendedRole>, spec: TechnicalBlueprint)
    requires |roles| == 3
    ensures
      var team := TeamData("Quzz", "MSA backend", ["Java", "Spring Boot", "MySQL"], "");
      var choice := TemplateChoice("atomic", ["eslint", "prettier"]);
      var final := Run(Initial, [Start, SubmitTeam(team), ConfirmRoles(roles), SelectTemplate(choice, Generated(spec))]);
      && final.Some?
      && final.value.step == DASHBOARD
      && final.value.blueprint.Some?
      && final.value.blueprint.value.team.name == "Quzz"
      && |final.value.blueprint.value.roles| == 3
      && final.value.blueprint.value.techSpec == spec
  {
    var team := TeamData("Quzz", "MSA backend", ["Java", "Spring Boot", "MySQL"], "");
    var choice := TemplateChoice("atomic", ["eslint", "prettier"]);
    assert CreateTeam.ValidTeam(team) by {
      assert team.techStack[0] != team.techStack[1];
      assert team.techStack[0] != team.techStack[2];
      assert team.techStack[1] != team.techStack[2];
      assert "Java" == CreateTeam.AvailableTech[4];
      assert "Spring Boot" == CreateTeam.AvailableTech[5];
      assert "MySQL" == CreateTeam.AvailableTech[21];
    }
    assert TemplateSelection.ValidChoice(choice) by {
      assert choice.conventions[0] != choice.conventions[1];
      assert "atomic" == TemplateSelection.StructureIds[0];
      assert "eslint" == TemplateSelection.ConventionIds[0];
    }
    var s1 := HandleStart(Initial);
    var s2 := HandleTeamCreated(s1, team);
    var s3 := HandleRolesConfirmed(s2, roles);
    var s4 := HandleTemplateSelected(s3, choice, Generated(spec));
    var acts := [Start, SubmitTeam(team), ConfirmRoles(roles), SelectTemplate(choice, Generated(spec))];
    assert Next(Initial, acts[0]) == Some(s1);
    assert Next(s1, acts[1]) == Some(s2);
    assert Next(s2, acts[2]) == Some(s3);
    assert Next(s3, acts[3]) == Some(s4);
    assert Run(s4, acts[4..]) == Some(s4);
    assert acts[3..][1..] == acts[4..];
    assert Run(s3, acts[3..]) == Some(s4);
    assert acts[2..][1..] == acts[3..];
    assert Run(s2, acts[2..]) == Some(s4);
    assert acts[1..][1..] == acts[2..];
    assert Run(s1, acts[1..]) == Some(s4);
    assert Run(Initial, acts) == Some(s4);
  }
}
