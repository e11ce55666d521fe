/**
 The shared record shapes of the wizard. Generated file `content` and the
 database `schema` are opaque text: nothing in the wizard inspects them.
 */
module Types {

  /** A value that may be absent (a nullable `T | null` field of the application). */
  datatype Option<+T> = None | Some(value: T)

  /** The five wizard steps, in the order the enum declares them. */
  datatype Step = LANDING | CREATE_TEAM | ROLE_RECO | TEMPLATE | DASHBOARD

  datatype TeamData = TeamData(
    name: string,
    goal: string,
    techStack: seq<string>,
    description: string)

  datatype RecommendedRole = RecommendedRole(
    title: string,
    responsibilities: seq<string>,
    requiredSkills: seq<string>)

  datatype SourceFile = SourceFile(name: string, path: string, content: string)

  /** One side of the generated scaffold: a directory and its files, in response order. */
  datatype Scaffold = Scaffold(directory: string, files: seq<SourceFile>)

  datatype DatabaseSpec = DatabaseSpec(schema: string)

  datatype TechnicalBlueprint = TechnicalBlueprint(
    backend: Scaffold,
    frontend: Scaffold,
    database: DatabaseSpec)

  /** What the template page hands over: a structure id and the convention ids. */
  datatype TemplateChoice = TemplateChoice(structure: string, conventions: seq<string>)

  datatype ProjectBlueprint = ProjectBlueprint(
    team: TeamData,
    roles: seq<RecommendedRole>,
    template: TemplateChoice,
    techSpec: TechnicalBlueprint)

  /** How the one blueprint request ended: a parsed blueprint, or a thrown error. */
  datatype GenerationOutcome = Generated(techSpec: TechnicalBlueprint) | GenerationFailed
}
