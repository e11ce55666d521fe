/**
 The template page: one structure picked out of three cards, and a list of
 convention ids that starts as `eslint, prettier` and is toggled by three
 convention cards. No card carries the id `prettier`, so it can never be
 removed, and the list is not a subset of the toggleable ids.
 */
module TemplateSelection {
  import opened Types
  import opened ToggleList

  /** Ids of the three structure cards. */
  const StructureIds: seq<string> := ["atomic", "feature", "standard"]

  /** Ids of the three convention cards, the only ones a click can toggle. */
  const ConventionIds: seq<string> := ["eslint", "gitflow", "commit"]

  /** Preselected but not offered as a card. */
  const Prettier: string := "prettier"

  datatype Selection = Selection(structure: string, conventions: seq<string>)

  /** Structure `atomic`, conventions `eslint` then `prettier`. */
  const InitialSelection := Selection("atomic", ["eslint", Prettier])

  /** A click on a structure card or on a convention card. */
  datatype SelectionEvent = PickStructure(structureId: string) | ToggleConvention(conventionId: string)

  /** Only the rendered cards can be clicked. */
  predicate Offered(e: SelectionEvent) {
    match e
    case PickStructure(id) => id in StructureIds
    case ToggleConvention(id) => id in ConventionIds
  }

  function Apply(s: Selection, e: SelectionEvent): Selection {
    match e
    case PickStructure(id) => s.(structure := id)
    case ToggleConvention(id) => s.(conventions := Toggle(s.conventions, id))
  }

  function Run(s: Selection, events: seq<SelectionEvent>): Selection
    decreases |events|
  {
    if |events| == 0 then s else Run(Apply(s, events[0]), events[1..])
  }

  /**
   What the confirm button hands over: the current structure and conventions,
   unmodified.
   */
  function Confirm(s: Selection): (t: TemplateChoice)
    ensures t.structure == s.structure && t.conventions == s.conventions
  {
    TemplateChoice(s.structure, s.conventions)
  }

  /**
   The conventions the page can hold: no duplicates, `prettier` always
   present, every other entry one of the convention card ids.
   */
  predicate ValidConventions(cs: seq<string>) {
    && NoDup(cs)
    && Prettier in cs
    && forall c :: c in cs ==> c in ConventionIds || c == Prettier
  }

  /** A choice the page can hand over. */
  predicate ValidChoice(t: TemplateChoice) {
    t.structure in StructureIds && ValidConventions(t.conventions)
  }

  /** One click on a rendered card keeps the selection valid. */
  lemma ApplyKeepsValid(s: Selection, e: SelectionEvent)
    requires ValidChoice(Confirm(s))
    requires Offered(e)
    ensures ValidChoice(Confirm(Apply(s, e)))
  {
    if e.ToggleConvention? {
      ToggleKeepsNoDup(s.conventions, e.conventionId);
      assert e.conventionId != Prettier;
    }
  }

  /**
   From the defaults, any sequence of clicks on rendered cards leaves a
   structure among the three ids and a duplicate-free convention list that
   keeps `prettier` and otherwise holds only convention card ids.
   */
  lemma {:induction false} RunKeepsValid(s: Selection, events: seq<SelectionEvent>)
    requires ValidChoice(Confirm(s))
    requires forall i :: 0 <= i < |events| ==> Offered(events[i])
    ensures ValidChoice(Confirm(Run(s, events)))
    decreases |events|
  {
    if |events| > 0 {
      ApplyKeepsValid(s, events[0]);
      RunKeepsValid(Apply(s, events[0]), events[1..]);
    }
  }

  /**
   Every choice the page confirms is valid, and its conventions always
   contain an id that no card offers, so they are never a subset of the
   toggleable ids.
   */
  lemma {:induction false} ConfirmedChoiceIsValid(events: seq<SelectionEvent>)
    requires forall i :: 0 <= i < |events| ==> Offered(events[i])
    ensures ValidChoice(Confirm(Run(InitialSelection, events)))
    ensures exists c :: c in Confirm(Run(InitialSelection, events)).conventions && c !in ConventionIds
  {
    var init := InitialSelection;
    assert init.conventions[0] != init.conventions[1];
    assert ValidConventions(init.conventions);
    RunKeepsValid(init, events);
    assert Prettier !in ConventionIds;
  }
}
