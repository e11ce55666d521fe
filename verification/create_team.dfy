/**
 The team form: four fields, a catalogue of technologies the user toggles
 on and off, and the submission guard that decides whether a `TeamData`
 record is emitted at all.
 */
module CreateTeam {
  import opened Types
  import opened ToggleList

  /** The only technologies the form renders a button for, in display order. */
  const AvailableTech: seq<string> := [
    "React", "Next.js", "TypeScript", "JavaScript",
    "Java", "Spring Boot", "JPA",
    "Python", "Django", "FastAPI", "PyTorch",
    "C", "C++", "C#", "Unity", "Unreal Engine",
    "Go", "Rust", "Swift", "Kotlin", "Flutter",
    "MySQL", "PostgreSQL", "MongoDB", "Redis",
    "Docker", "Kubernetes", "AWS", "GCP", "Azure",
    "Tailwind CSS", "ESLint"
  ]

  /** The form's state: the three text fields and the selected stack in selection order. */
  datatype Form = Form(name: string, goal: string, description: string, techStack: seq<string>)

  /** Every field empty, nothing selected. */
  const InitialForm := Form("", "", "", [])

  /** What the user can do on the page: type into a field or click a technology button. */
  datatype FormEvent =
    | EditName(name: string)
    | EditGoal(goal: string)
    | EditDescription(description: string)
    | ClickTech(tech: string)

  /** Only catalogue entries have a button, so only they can be clicked. */
  predicate Offered(e: FormEvent) {
    e.ClickTech? ==> e.tech in AvailableTech
  }

  function Apply(f: Form, e: FormEvent): Form {
    match e
    case EditName(n) => f.(name := n)
    case EditGoal(g) => f.(goal := g)
    case EditDescription(d) => f.(description := d)
    case ClickTech(t) => f.(techStack := Toggle(f.techStack, t))
  }

  function Run(f: Form, events: seq<FormEvent>): Form
    decreases |events|
  {
    if |events| == 0 then f else Run(Apply(f, events[0]), events[1..])
  }

  /** The selected stack holds catalogue entries only, each at most once. */
  predicate StackInCatalogue(stack: seq<string>) {
    && NoDup(stack)
    && forall t :: t in stack ==> t in AvailableTech
  }

  /** A team the form can submit: name, goal and stack non-empty, stack drawn from the catalogue. */
  predicate ValidTeam(d: TeamData) {
    && d.name != ""
    && d.goal != ""
    && |d.techStack| > 0
    && StackInCatalogue(d.techStack)
  }

  /**
   The submit handler: emits the record only when name, goal and stack are
   all non-empty (an empty string is falsy), and emits the fields unchanged.
   */
  function HandleSubmit(f: Form): (r: Option<TeamData>)
    ensures r.Some? <==> f.name != "" && f.goal != "" && |f.techStack| > 0
    ensures r.Some? ==> && r.value.name == f.name && r.value.goal == f.goal
                        && r.value.description == f.description
                        && r.value.techStack == f.techStack
  {
    if |f.name| > 0 && |f.goal| > 0 && |f.techStack| > 0 then
      Some(TeamData(f.name, f.goal, f.techStack, f.description))
    else None
  }

  /** One click on a catalogue button keeps the stack inside the catalogue and duplicate-free. */
  lemma ApplyKeepsStack(f: Form, e: FormEvent)
    requires StackInCatalogue(f.techStack)
    requires Offered(e)
    ensures StackInCatalogue(Apply(f, e).techStack)
  {
    if e.ClickTech? {
      ToggleKeepsNoDup(f.techStack, e.tech);
    }
  }

  /**
   Starting from the empty selection and clicking only rendered buttons, the
   stack is always a duplicate-free subset of the catalogue.
   */
  lemma {:induction false} RunKeepsStack(f: Form, events: seq<FormEvent>)
    requires StackInCatalogue(f.techStack)
    requires forall i :: 0 <= i < |events| ==> Offered(events[i])
    ensures StackInCatalogue(Run(f, events).techStack)
    decreases |events|
  {
    if |events| > 0 {
      ApplyKeepsStack(f, events[0]);
      RunKeepsStack(Apply(f, events[0]), events[1..]);
    }
  }

  /** Whatever the page submits after any sequence of user actions is a valid team. */
  lemma {:induction false} SubmittedTeamIsValid(events: seq<FormEvent>)
    requires forall i :: 0 <= i < |events| ==> Offered(events[i])
    ensures HandleSubmit(Run(InitialForm, events)).Some? ==>
              ValidTeam(HandleSubmit(Run(InitialForm, events)).value)
  {
    assert InitialForm.techStack == [];
    RunKeepsStack(InitialForm, events);
    var f := Run(InitialForm, events);
    assert StackInCatalogue(f.techStack);
  }
}
