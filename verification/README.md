# Team-orchestrator wizard: a verified model of the local logic

The application is a five-step web wizard (landing, team form, role
recommendation, template choice, dashboard). The role list and the technical
blueprint come from an external generative model; the local logic around
those calls is what this project models:

- `types.dfy` (module `Types`): the record shapes — `Step`, `TeamData`,
  `RecommendedRole`, `TechnicalBlueprint` (file contents and the database
  schema as opaque strings), `TemplateChoice`, `ProjectBlueprint` — plus the
  outcome of the blueprint request, `Generated(techSpec)` or
  `GenerationFailed`.
- `toggle_list.dfy` (module `ToggleList`): the ordered list used as a set by
  `toggleTech` and `toggleConv` — remove every occurrence when present,
  append at the end when absent — with its membership, order and
  no-duplicates properties.
- `create_team.dfy` (module `CreateTeam`): the team form, the 32-entry
  technology catalogue, the form's user events, and the submit guard.
- `template_selection.dfy` (module `TemplateSelection`): the structure and
  convention cards, the defaults `atomic` and `eslint, prettier`, and the
  record handed to the wizard.
- `gateway.dfy` (module `Gateway`): only the two failure policies of the
  model gateway — a role list that does not parse becomes `[]`, a blueprint
  that does not parse is an error.
- `wizard.dfy` (module `Wizard`): the root's state record, the step-number
  map, the four handlers, the rendering that gives each page only its own
  handler (and none while generating), the gated `Next` and `Run`, and the
  reachable-state invariant.

The blueprint request is a parameter: `HandleTemplateSelected` takes the
request's outcome and runs as one step (set the generating flag, commit on
success, commit nothing on error, clear the flag). `Pending` is the state
rendered while the request is outstanding. A user action is accepted only if
the page on screen offers it: the team form submits only teams that pass its
guard and whose stack was built by clicking catalogue buttons, and the
template page hands over only choices its cards can produce.

In three places the code behaves otherwise than one might expect, and the model
follows the code:

- On a failed blueprint request the code only logs the error; nothing is
  reported back to the page. The model leaves the state as it was.
- No card carries the id `prettier`, yet it is preselected. So every choice
  the page can hand over contains `prettier`, and it is never a subset of the
  three toggleable ids. A choice such as conventions `["eslint"]` alone can
  never be produced. The end-to-end walk therefore uses `["eslint", "prettier"]`.
- The card labelled "ESLint / Prettier" toggles only the id `eslint`.

## Model

| member | source | states |
|---|---|---|
| ToggleList.Without | src/pages/CreateTeam.tsx:28 | the filtered list lacks the tech, keeps the count of every other string, is a subsequence of the input, and is shorter by exactly the number of occurrences removed |
| ToggleList.Toggle | src/pages/CreateTeam.tsx:26-32 | the toggled tech is a member afterwards iff it was not before; every other string keeps its membership; an absent tech is appended after the unchanged old list; a present one is removed everywhere, the rest kept in relative order with their counts |
| ToggleList.WithoutKeepsNoDup | src/pages/CreateTeam.tsx:28 | filtering a duplicate-free list leaves it duplicate-free |
| ToggleList.ToggleKeepsNoDup | src/pages/CreateTeam.tsx:26-32 | toggling keeps a duplicate-free selection duplicate-free |
| ToggleList.ToggleTwiceAbsent | src/pages/CreateTeam.tsx:26-32 | toggling an absent tech twice returns the original list |
| ToggleList.ToggleTwicePresent | src/pages/CreateTeam.tsx:26-32 | toggling a present tech twice gives the list with every copy removed and one copy appended at the end; this restores the list only when the tech occurs once, in last position |
| CreateTeam.HandleSubmit | src/pages/CreateTeam.tsx:34-39 | a record is emitted iff name, goal and stack are all non-empty, and it carries name, goal, description and stack unchanged, in selection order |
| CreateTeam.ApplyKeepsStack | src/pages/CreateTeam.tsx:26-90 | `Apply` models the three field handlers (lines 57, 69, 79) and a catalogue button click (line 90, through `toggleTech`); any one of these keeps the stack a duplicate-free subset of the catalogue |
| CreateTeam.RunKeepsStack | src/pages/CreateTeam.tsx:12-90 | `Run` folds `Apply` over the user's events; after any sequence of edits and catalogue clicks the stack stays a duplicate-free subset of the catalogue |
| CreateTeam.SubmittedTeamIsValid | src/pages/CreateTeam.tsx:11-38 | from the empty form, any record the page submits has non-empty name, goal and stack, the stack drawn from the catalogue without duplicates |
| TemplateSelection.Confirm | pages/TemplateSelection.tsx:101 | the confirm button hands over exactly the current structure and conventions |
| TemplateSelection.ApplyKeepsValid | pages/TemplateSelection.tsx:50-83 | `Apply` models a structure card click (line 66) and a convention card click (line 83, through `toggleConv`); either click keeps the structure among the three ids and the conventions duplicate-free, holding `prettier` and otherwise only card ids |
| TemplateSelection.RunKeepsValid | pages/TemplateSelection.tsx:8-83 | `Run` folds `Apply` over the clicks; the same holds after any sequence of clicks on rendered cards |
| TemplateSelection.ConfirmedChoiceIsValid | pages/TemplateSelection.tsx:8-48 | from the defaults every confirmed choice is valid, and its conventions always hold an id no card offers, so they are never a subset of the toggleable ids |
| Gateway.RolesFromResponse | services/geminiService.ts:50-55 | an unparsable role response yields the empty list; a parsed one is passed through |
| Gateway.BlueprintFromResponse | services/geminiService.ts:134-138 | generation fails iff the blueprint response does not parse; otherwise the parsed blueprint is the outcome |
| Wizard.StepNumber | App.tsx:19-28 | every step number lies in 0..4 |
| Wizard.StepNumberIsPosition | App.tsx:19-28 | the step number is the step's position in the order LANDING, CREATE_TEAM, ROLE_RECO, TEMPLATE, DASHBOARD |
| Wizard.StepNumberInjective | App.tsx:19-28 | distinct steps have distinct numbers |
| Wizard.HandleStart | App.tsx:30 | moves to CREATE_TEAM and changes nothing else |
| Wizard.HandleTeamCreated | App.tsx:32-35 | stores the team verbatim and moves to ROLE_RECO; roles, blueprint and the generating flag are unchanged |
| Wizard.HandleRolesConfirmed | App.tsx:37-40 | stores the roles verbatim, empty list included, and moves to TEMPLATE; team data, blueprint and flag unchanged |
| Wizard.HandleTemplateSelected | App.tsx:42-60 | without team data nothing happens; on success the blueprint is the stored team, stored roles, given template and generated spec, at DASHBOARD; on failure step, team, roles and blueprint are unchanged; with team data the flag ends false |
| Wizard.RenderPage | App.tsx:62-86 | the spinner is shown exactly while generating; otherwise each step renders its own page and no other, and the role page and dashboard receive the stored team data and blueprint as they are |
| Wizard.Next | App.tsx:62-86 | an action is accepted iff the rendered page offers it; an accepted start, team submission, role confirmation or template selection happens only at LANDING, CREATE_TEAM, ROLE_RECO or TEMPLATE respectively; nothing is accepted while generating or on the dashboard; an accepted action leaves the state as it was or raises the step number by exactly one |
| Wizard.InitialSatisfiesInv | App.tsx:13-17 | the initial state (LANDING, no team, no roles, no blueprint, not generating) satisfies the invariant |
| Wizard.NextKeepsInv | App.tsx:30-60 | every accepted action keeps the invariant: blueprint exactly at DASHBOARD, team data exactly from ROLE_RECO on and valid, no roles before TEMPLATE, the blueprint aggregating the stored team and roles |
| Wizard.NextAdvancesUnlessFailed | App.tsx:30-58 | in a reachable state an accepted action leaves the state unchanged iff it is a failed generation; otherwise it raises the step number by one |
| Wizard.FailedGenerationCommitsNothing | App.tsx:54-58 | a failed generation on the template page is accepted and leaves the whole state unchanged |
| Wizard.RunKeepsInv | App.tsx:13-60 | every state reached by a run from a state with the invariant has it |
| Wizard.RunNeverMovesBack | App.tsx:30-53 | along a run the step number never decreases and grows by at most the number of actions |
| Wizard.ReachableStatesAreSafe | App.tsx:43-83 | in every reachable state the invariant holds, the team-data guard of the template handler never blocks, and the role page and dashboard are given present values |
| Wizard.PendingOffersNothing | App.tsx:43-71 | while the request is outstanding the spinner is rendered and no action is accepted |
| Wizard.GatewayFailuresAsymmetric | App.tsx:37-58 | an unparsable role response still lets the role page move on to TEMPLATE with no roles; an unparsable blueprint leaves the wizard unchanged |
| Wizard.EndToEndWalk | App.tsx:30-53 | the walk start, team "Quzz", three roles, atomic template, generated spec ends on DASHBOARD with a blueprint for "Quzz", three roles and that spec |

## Left out

- Prompt construction, the external client, the API key and the request itself: the gateway is reduced to its two parse-failure policies over an already-parsed `Option`.
- The `as` casts after `JSON.parse` check no field: a response that parses but has the wrong shape passes through unchecked. The model's parse result is already typed, so this is not represented.
- Asynchrony and React state scheduling: `handleTemplateSelected` is one atomic step, and the pending period is the separate state `Pending`; the role page's fetch on mount is not modelled, only its hand-off of the roles to the root.
- Logging (`console.error`) on both failure paths.
- The unreachable `default` branches of the step-number map and of the page switch: the step datatype has exactly five values.
- The form's unused `currentTech` state and the browser's `required` attribute on the name and goal inputs; the model keeps only the script's own guard.
- Markup and styling of every page, the layout's step indicator colouring, the dashboard's display fallbacks and copy button, and DOM mounting.
- Wizard.StepNumber: its own contract only bounds the number; the exact mapping is stated by `Wizard.StepNumberIsPosition`.
