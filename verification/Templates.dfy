/** Creating a task with subtasks from a template: `createFromTemplate` in web/src/pages/templates.tsx
    over the server's idempotent creation.

    Any number of tabs work on one attempt. Responses may get lost, saving progress may fail, tabs may
    reload, start over or race each other, and everything else the account is used for goes on
    around them, except that nothing is deleted and nobody else uses the attempt's keys. */
module Templates {
  import opened Basics
  import opened Boards
  import opened Storage
  import opened Store
  import opened StoreInvariants
  import Decisions

  // ---------------------------------------------------------------- templates

  datatype TemplateStep = TemplateStep(id: Text, phase: Text, title: Text)

  /** A template as it is loaded: phases are distinct, every step names one of them, and step
      identifiers are distinct. */
  datatype Template = Template(phases: seq<Text>, steps: seq<TemplateStep>)

  ghost predicate TemplateOk(template: Template) {
    && Distinct(template.phases)
    && (forall i :: 0 <= i < |template.steps| ==> template.steps[i].phase in template.phases)
    && DistinctIds(template.steps)
  }

  ghost predicate DistinctIds(steps: seq<TemplateStep>) {
    forall i, j :: 0 <= i < j < |steps| ==> steps[i].id != steps[j].id
  }

  // ---------------------------------------------------------------- loading a template

  /** A stored template as it is read back. A field that is not a string is missing. */
  datatype RawPhase = NoPhase | RawPhase(id: Option<Text>, name: Option<Text>)
  datatype RawPhases = PhaseNames(names: seq<Text>) | PhaseRecords(records: seq<RawPhase>)
  datatype RawStep =
    | NoStep
    | RawStep(id: Option<Text>, phaseId: Option<Text>, phase: Option<Text>, title: Option<Text>, instruction: Option<Text>, executor: Option<Text>)
  datatype RawTemplate = NoTemplate | RawTemplate(id: Text, phases: RawPhases, steps: seq<RawStep>)

  datatype Phase = Phase(id: Text, name: Text)

  /** What the language's library says about texts: whether one is blank, how a number is written, and which
      executors are known. */
  datatype Library = Library(blank: Text -> bool, digits: nat -> Text, executor: Text -> bool)

  const MAX_TEMPLATE_STEP_ID_BYTES := 150

  /** The bytes of "-phase-", "-step-" and "step-". */
  const PHASE_INFIX: Text := [45, 112, 104, 97, 115, 101, 45]
  const STEP_ID_INFIX: Text := [45, 115, 116, 101, 112, 45]
  const STEP_PREFIX: Text := [115, 116, 101, 112, 45]

  function LoadedPhases(raw: RawTemplate, library: Library): Option<seq<Phase>>
    requires raw.RawTemplate?
  {
    match raw.phases
    case PhaseNames(names) =>
      Some(seq(|names|, i requires 0 <= i < |names| => Phase(raw.id + PHASE_INFIX + library.digits(i), names[i])))
    case PhaseRecords(records) =>
      if exists i :: 0 <= i < |records| && !(records[i].RawPhase? && records[i].id.Some? && records[i].name.Some?) then None
      else Some(seq(|records|, i requires 0 <= i < |records| && records[i].RawPhase? && records[i].id.Some? && records[i].name.Some? =>
                                 Phase(records[i].id.value, records[i].name.value)))
  }

  /** The identifier of the first phase of that name. */
  function PhaseNamed(phases: seq<Phase>, name: Option<Text>): Option<Text> {
    if phases == [] || name.None? then None
    else if phases[0].name == name.value then Some(phases[0].id)
    else PhaseNamed(phases[1..], name)
  }

  function IdsOf(phases: seq<Phase>): seq<Text> {
    seq(|phases|, i requires 0 <= i < |phases| => phases[i].id)
  }

  function LoadedStep(raw: RawTemplate, phases: seq<Phase>, step: RawStep, index: nat, library: Library): Option<TemplateStep>
    requires raw.RawTemplate?
  {
    if step.NoStep? then None
    else
      var phase := if step.phaseId.Some? then step.phaseId else PhaseNamed(phases, step.phase);
      var preferred := if step.id.Some? && !library.blank(step.id.value) then step.id.value else raw.id + STEP_ID_INFIX + library.digits(index + 1);
      var id := if |preferred| <= MAX_TEMPLATE_STEP_ID_BYTES then preferred else STEP_PREFIX + library.digits(index + 1);
      if phase.None? || phase.value == [] || phase.value !in IdsOf(phases) then None
      else if step.title.None? || library.blank(step.title.value) || step.instruction.None? then None
      else if step.executor.None? || !library.executor(step.executor.value) then None
      else Some(TemplateStep(id, phase.value, step.title.value))
  }

  /** The template, if all of it can be used: at least one phase, no two of the same identifier, every step in
      one of them, and no two steps of the same identifier. */
  ghost function MigrateTemplate(raw: RawTemplate, library: Library): Option<Template> {
    if raw.NoTemplate? || LoadedPhases(raw, library).None? then None
    else
      var phases := LoadedPhases(raw, library).value;
      if phases == [] || !Distinct(IdsOf(phases)) then None
      else if exists i :: 0 <= i < |raw.steps| && LoadedStep(raw, phases, raw.steps[i], i, library).None? then None
      else
        var steps := seq(|raw.steps|, i requires 0 <= i < |raw.steps| && LoadedStep(raw, phases, raw.steps[i], i, library).Some? =>
                                        LoadedStep(raw, phases, raw.steps[i], i, library).value);
        if !DistinctIds(steps) then None else Some(Template(IdsOf(phases), steps))
  }

  /** What a loaded step takes over from the stored one: its title, its phase by identifier if it names one and else
      by name, and its identifier unless that is blank or too long. */
  ghost predicate StepLoaded(template: RawTemplate, i: nat, phases: seq<Text>, step: TemplateStep, library: Library)
    requires template.RawTemplate? && i < |template.steps|
  {
    var raw, number := template.steps[i], library.digits(i + 1);
    && raw.RawStep? && raw.title == Some(step.title) && !library.blank(step.title)
    && raw.instruction.Some? && raw.executor.Some? && library.executor(raw.executor.value)
    && step.phase in phases && (raw.phaseId.Some? ==> step.phase == raw.phaseId.value)
    && |step.phase| > 0 && (raw.phaseId.None? ==> raw.phase.Some? && FirstNamed(template.phases, phases, raw.phase, step.phase))
    && (|step.id| <= MAX_TEMPLATE_STEP_ID_BYTES || step.id == STEP_PREFIX + number)
    && (raw.id.None? ==> step.id in {template.id + STEP_ID_INFIX + number, STEP_PREFIX + number})
    && (raw.id.Some? && !library.blank(raw.id.value) && |raw.id.value| <= MAX_TEMPLATE_STEP_ID_BYTES ==> step.id == raw.id.value)
  }

  function NameAt(phases: RawPhases, u: nat): Option<Text> {
    match phases
    case PhaseNames(names) => if u < |names| then Some(names[u]) else None
    case PhaseRecords(records) => if u < |records| && records[u].RawPhase? then records[u].name else None
  }

  /** The identifier is that of the first phase of the name. */
  ghost predicate FirstNamed(raw: RawPhases, phases: seq<Text>, name: Option<Text>, id: Text) {
    exists u :: 0 <= u < |phases| && phases[u] == id && NameAt(raw, u) == name && forall v :: 0 <= v < u ==> NameAt(raw, v) != name
  }

  lemma {:induction false} PhaseNamedFirst(phases: seq<Phase>, name: Option<Text>) returns (u: nat)
    requires PhaseNamed(phases, name).Some?
    ensures u < |phases| && phases[u].id == PhaseNamed(phases, name).value && Some(phases[u].name) == name
    ensures forall v :: 0 <= v < u ==> Some(phases[v].name) != name
  {
    if phases[0].name == name.value {
      u := 0;
    } else {
      u := PhaseNamedFirst(phases[1..], name);
      u := u + 1;
    }
  }

  /** Every template that loads is sound, and its steps are the stored ones in their order. */
  lemma {:induction false} MigratedIsSound(raw: RawTemplate, library: Library)
    ensures var r := MigrateTemplate(raw, library);
      r.Some? ==>
        && TemplateOk(r.value) && r.value.phases != [] && |r.value.steps| == |raw.steps|
        && (forall i :: 0 <= i < |raw.steps| ==> StepLoaded(raw, i, r.value.phases, r.value.steps[i], library))
        && (raw.phases.PhaseRecords? ==>
              |r.value.phases| == |raw.phases.records|
              && forall i :: 0 <= i < |r.value.phases| ==> raw.phases.records[i].RawPhase? && raw.phases.records[i].id == Some(r.value.phases[i]))
  {
    hide LoadedStep, StepLoaded, FirstNamed;
    if MigrateTemplate(raw, library).Some? {
      var phases := LoadedPhases(raw, library).value;
      forall i | 0 <= i < |raw.steps|
        ensures var step := LoadedStep(raw, phases, raw.steps[i], i, library);
                step.Some? && StepLoaded(raw, i, IdsOf(phases), step.value, library) && step.value.phase in IdsOf(phases)
      {
        assert LoadedStep(raw, phases, raw.steps[i], i, library).Some?;
        StepIsLoaded(raw, phases, i, library);
      }
    }
  }

  lemma {:induction false} StepIsLoaded(raw: RawTemplate, phases: seq<Phase>, i: nat, library: Library)
    requires raw.RawTemplate? && i < |raw.steps| && LoadedPhases(raw, library) == Some(phases)
    requires LoadedStep(raw, phases, raw.steps[i], i, library).Some?
    ensures var step := LoadedStep(raw, phases, raw.steps[i], i, library).value;
      StepLoaded(raw, i, IdsOf(phases), step, library) && step.phase in IdsOf(phases)
  {
    if raw.steps[i].phaseId.None? {
      var u := PhaseNamedFirst(phases, raw.steps[i].phase);
      assert forall v :: 0 <= v < |phases| ==> NameAt(raw.phases, v) == Some(phases[v].name);
      assert IdsOf(phases)[u] == LoadedStep(raw, phases, raw.steps[i], i, library).value.phase;
    }
  }

  /** The stored form of a template: its phases as records and its steps with their phases and identifiers. */
  ghost predicate StoredAs(template: Template, raw: RawTemplate, library: Library) {
    && raw.RawTemplate? && raw.phases.PhaseRecords? && |raw.phases.records| == |template.phases| && |raw.steps| == |template.steps|
    && (forall i :: 0 <= i < |template.phases| ==>
          raw.phases.records[i].RawPhase? && raw.phases.records[i].id == Some(template.phases[i]) && raw.phases.records[i].name.Some?)
    && forall i :: 0 <= i < |template.steps| ==>
         var step, stored := template.steps[i], raw.steps[i];
         && stored.RawStep? && stored.id == Some(step.id) && stored.phaseId == Some(step.phase) && stored.title == Some(step.title)
         && stored.instruction.Some? && stored.executor.Some? && library.executor(stored.executor.value)
  }

  /** A template that was loaded and stored again loads as the same template: migration is done once. */
  lemma {:induction false} ReloadsUnchanged(first: RawTemplate, raw: RawTemplate, library: Library)
    requires MigrateTemplate(first, library).Some? && StoredAs(MigrateTemplate(first, library).value, raw, library)
    requires forall i :: 0 <= i < |raw.steps| ==> raw.steps[i].id.Some? && !library.blank(raw.steps[i].id.value) && |raw.steps[i].id.value| <= MAX_TEMPLATE_STEP_ID_BYTES
    ensures MigrateTemplate(raw, library) == MigrateTemplate(first, library)
  {
    hide MigrateTemplate;
    MigratedIsSound(first, library);
    StoredLoads(MigrateTemplate(first, library).value, raw, library);
  }

  lemma {:induction false} StoredLoads(template: Template, raw: RawTemplate, library: Library)
    requires StoredAs(template, raw, library) && TemplateOk(template) && template.phases != []
    requires forall i :: 0 <= i < |raw.steps| ==>
      && raw.steps[i].id.Some? && !library.blank(raw.steps[i].id.value) && |raw.steps[i].id.value| <= MAX_TEMPLATE_STEP_ID_BYTES
      && !library.blank(template.steps[i].title) && template.steps[i].phase != []
    ensures MigrateTemplate(raw, library) == Some(template)
  {
    var phases := LoadedPhases(raw, library).value;
    assert IdsOf(phases) == template.phases;
    forall i | 0 <= i < |raw.steps|
      ensures LoadedStep(raw, phases, raw.steps[i], i, library) == Some(template.steps[i])
    {
      assert template.steps[i].phase in template.phases;
    }
    assert seq(|raw.steps|, i requires 0 <= i < |raw.steps| && LoadedStep(raw, phases, raw.steps[i], i, library).Some? =>
                              LoadedStep(raw, phases, raw.steps[i], i, library).value) == template.steps;
  }

  function InPhase(steps: seq<TemplateStep>, phase: Text): seq<TemplateStep> {
    if steps == [] then []
    else (if steps[0].phase == phase then [steps[0]] else []) + InPhase(steps[1..], phase)
  }

  /** The steps phase by phase. */
  function OrderedSteps(phases: seq<Text>, steps: seq<TemplateStep>): seq<TemplateStep> {
    if phases == [] then [] else InPhase(steps, phases[0]) + OrderedSteps(phases[1..], steps)
  }

  lemma {:induction false} InPhaseCount(steps: seq<TemplateStep>, phase: Text, step: TemplateStep)
    ensures multiset(InPhase(steps, phase))[step] == if step.phase == phase then multiset(steps)[step] else 0
  {
    if steps == [] {
    } else {
      InPhaseCount(steps[1..], phase, step);
      assert steps == [steps[0]] + steps[1..];
    }
  }

  lemma {:induction false} DistinctRest(phases: seq<Text>, phase: Text)
    requires Distinct(phases) && phases != []
    ensures Distinct(phases[1..])
    ensures phase in phases <==> phase == phases[0] || phase in phases[1..]
    ensures !(phase == phases[0] && phase in phases[1..])
  {
    assert phases == [phases[0]] + phases[1..];
  }

  lemma {:induction false} OrderedStepsCount(phases: seq<Text>, steps: seq<TemplateStep>, step: TemplateStep)
    requires Distinct(phases)
    ensures multiset(OrderedSteps(phases, steps))[step] == if step.phase in phases then multiset(steps)[step] else 0
  {
    hide InPhase;
    if phases == [] {
    } else {
      InPhaseCount(steps, phases[0], step);
      OrderedStepsCount(phases[1..], steps, step);
      DistinctRest(phases, step.phase);
      assert multiset(InPhase(steps, phases[0]) + OrderedSteps(phases[1..], steps))[step]
          == multiset(InPhase(steps, phases[0]))[step] + multiset(OrderedSteps(phases[1..], steps))[step];
    }
  }

  /** Ordering the steps loses none and repeats none. */
  lemma {:induction false} OrderedStepsPermute(template: Template)
    requires TemplateOk(template)
    ensures multiset(OrderedSteps(template.phases, template.steps)) == multiset(template.steps)
  {
    var ordered := OrderedSteps(template.phases, template.steps);
    forall step: TemplateStep
      ensures multiset(ordered)[step] == multiset(template.steps)[step]
    {
      OrderedStepsCount(template.phases, template.steps, step);
      if step in template.steps {
        var i :| 0 <= i < |template.steps| && template.steps[i] == step;
        assert template.steps[i].phase in template.phases;
      }
    }
  }

  /** Every step of an earlier phase comes before every step of a later one, and the steps of one phase are in the
      order they have in the template. */
  ghost predicate InTemplateOrder(template: Template, ordered: seq<TemplateStep>) {
    forall i, j :: 0 <= i < j < |ordered| ==>
      && PhaseNoLater(template.phases, ordered[i].phase, ordered[j].phase)
      && (ordered[i].phase == ordered[j].phase ==> StepBefore(template.steps, ordered[i], ordered[j]))
  }

  ghost predicate PhaseNoLater(phases: seq<Text>, one: Text, two: Text) {
    forall u, v | 0 <= u < |phases| && 0 <= v < |phases| && phases[u] == one && phases[v] == two :: u <= v
  }

  ghost predicate StepBefore(steps: seq<TemplateStep>, one: TemplateStep, two: TemplateStep) {
    forall p, q | 0 <= p < |steps| && 0 <= q < |steps| && steps[p] == one && steps[q] == two :: p < q
  }

  lemma {:induction false} InPhaseFrom(steps: seq<TemplateStep>, phase: Text, i: nat)
    requires i < |InPhase(steps, phase)|
    ensures InPhase(steps, phase)[i].phase == phase && InPhase(steps, phase)[i] in steps
  {
    if steps[0].phase == phase && i == 0 {
    } else {
      InPhaseFrom(steps[1..], phase, if steps[0].phase == phase then i - 1 else i);
    }
  }

  lemma {:induction false} InPhaseUnfolds(steps: seq<TemplateStep>, phase: Text, i: nat)
    requires i < |InPhase(steps, phase)|
    ensures steps != []
    ensures var first := if steps[0].phase == phase then 1 else 0;
      if i < first then InPhase(steps, phase)[i] == steps[0]
      else i - first < |InPhase(steps[1..], phase)| && InPhase(steps, phase)[i] == InPhase(steps[1..], phase)[i - first]
  {
  }

  lemma {:induction false} TheFirst(steps: seq<TemplateStep>, p: nat)
    requires DistinctIds(steps) && p < |steps| && steps[p] == steps[0]
    ensures p == 0
  {
  }

  lemma {:induction false} NotTheFirst(steps: seq<TemplateStep>, p: nat)
    requires DistinctIds(steps) && p < |steps| && steps[p] in steps[1..]
    ensures p >= 1 && DistinctIds(steps[1..])
  {
  }

  /** The steps of one phase keep their order. */
  lemma {:induction false} InPhaseOrder(steps: seq<TemplateStep>, phase: Text, i: nat, j: nat, p: nat, q: nat)
    requires DistinctIds(steps) && i < j < |InPhase(steps, phase)| && p < |steps| && q < |steps|
    requires steps[p] == InPhase(steps, phase)[i] && steps[q] == InPhase(steps, phase)[j]
    ensures p < q
    decreases steps
  {
    hide DistinctIds, InPhase;
    InPhaseUnfolds(steps, phase, i);
    InPhaseUnfolds(steps, phase, j);
    var first := if steps[0].phase == phase then 1 else 0;
    InPhaseFrom(steps[1..], phase, j - first);
    NotTheFirst(steps, q);
    if first == 1 && i == 0 {
      TheFirst(steps, p);
    } else {
      InPhaseFrom(steps[1..], phase, i - first);
      NotTheFirst(steps, p);
      InPhaseOrder(steps[1..], phase, i - first, j - first, p - 1, q - 1);
    }
  }

  lemma {:induction false} OrderedStepsFrom(phases: seq<Text>, steps: seq<TemplateStep>, i: nat)
    requires i < |OrderedSteps(phases, steps)|
    ensures OrderedSteps(phases, steps)[i].phase in phases
  {
    var first := InPhase(steps, phases[0]);
    if i < |first| {
      InPhaseFrom(steps, phases[0], i);
    } else {
      OrderedStepsFrom(phases[1..], steps, i - |first|);
    }
  }

  lemma {:induction false} OrderedStepsPair(phases: seq<Text>, steps: seq<TemplateStep>, i: nat, j: nat, u: nat, v: nat)
    requires Distinct(phases) && DistinctIds(steps) && i < j < |OrderedSteps(phases, steps)| && u < |phases| && v < |phases|
    requires phases[u] == OrderedSteps(phases, steps)[i].phase && phases[v] == OrderedSteps(phases, steps)[j].phase
    ensures u <= v
    ensures u == v ==> StepBefore(steps, OrderedSteps(phases, steps)[i], OrderedSteps(phases, steps)[j])
    decreases phases
  {
    var first := InPhase(steps, phases[0]);
    if j < |first| {
      InPhaseFrom(steps, phases[0], i);
      InPhaseFrom(steps, phases[0], j);
      forall p, q | 0 <= p < |steps| && 0 <= q < |steps| && steps[p] == first[i] && steps[q] == first[j]
        ensures p < q
      {
        InPhaseOrder(steps, phases[0], i, j, p, q);
      }
    } else {
      OrderedStepsFrom(phases[1..], steps, j - |first|);
      if i < |first| {
        InPhaseFrom(steps, phases[0], i);
      } else {
        OrderedStepsFrom(phases[1..], steps, i - |first|);
        OrderedStepsPair(phases[1..], steps, i - |first|, j - |first|, u - 1, v - 1);
      }
    }
  }

  lemma {:induction false} OrderedStepsInOrder(template: Template)
    requires TemplateOk(template)
    ensures InTemplateOrder(template, OrderedSteps(template.phases, template.steps))
  {
    hide StepBefore;
    var ordered := OrderedSteps(template.phases, template.steps);
    forall i, j, u, v | 0 <= i < j < |ordered| && 0 <= u < |template.phases| && 0 <= v < |template.phases|
      && template.phases[u] == ordered[i].phase && template.phases[v] == ordered[j].phase
      ensures u <= v
      ensures u == v ==> StepBefore(template.steps, ordered[i], ordered[j])
    {
      OrderedStepsPair(template.phases, template.steps, i, j, u, v);
    }
    forall i | 0 <= i < |ordered|
      ensures ordered[i].phase in template.phases
    {
      OrderedStepsFrom(template.phases, template.steps, i);
    }
  }

  lemma {:induction false} IdsStayDistinct(steps: seq<TemplateStep>, ordered: seq<TemplateStep>)
    requires DistinctIds(steps) && multiset(ordered) == multiset(steps)
    ensures DistinctIds(ordered)
  {
    forall i, j | 0 <= i < j < |ordered|
      ensures ordered[i].id != ordered[j].id
    {
      if ordered[i].id == ordered[j].id {
        var a, b := ordered[i], ordered[j];
        assert a in multiset(ordered) && b in multiset(ordered);
        var k :| 0 <= k < |steps| && steps[k] == a;
        var l :| 0 <= l < |steps| && steps[l] == b;
        assert k == l;
        TwiceMeansTwo(ordered, i, j);
        OnceEach(steps, a);
        assert false;
      }
    }
  }

  lemma {:induction false} TwiceMeansTwo(s: seq<TemplateStep>, i: nat, j: nat)
    requires i < j < |s| && s[i] == s[j]
    ensures multiset(s)[s[i]] >= 2
  {
    assert s == s[..i] + [s[i]] + s[i + 1..j] + [s[j]] + s[j + 1..];
  }

  lemma {:induction false} OnceEach(s: seq<TemplateStep>, step: TemplateStep)
    requires DistinctIds(s)
    ensures multiset(s)[step] <= 1
  {
    if s == [] {
    } else {
      assert s == [s[0]] + s[1..];
      OnceEach(s[1..], step);
      forall k | 0 <= k < |s[1..]|
        ensures s[1..][k] != s[0]
      {
        assert s[1..][k] == s[k + 1];
      }
    }
  }

  // ---------------------------------------------------------------- keys

  /** The bytes of ":parent" and ":step:". */
  const PARENT_SUFFIX: Text := [58, 112, 97, 114, 101, 110, 116]
  const STEP_INFIX: Text := [58, 115, 116, 101, 112, 58]

  function ParentKey(attempt: Text): Text {
    attempt + PARENT_SUFFIX
  }

  function StepKey(attempt: Text, step: Text): Text {
    attempt + STEP_INFIX + step
  }

  lemma {:induction false} KeysDiffer(attempt: Text, one: Text, two: Text)
    ensures ParentKey(attempt) != StepKey(attempt, one)
    ensures StepKey(attempt, one) == StepKey(attempt, two) ==> one == two
  {
    assert ParentKey(attempt)[|attempt| + 1] == 112;
    assert StepKey(attempt, one)[|attempt| + 1] == 115;
    assert StepKey(attempt, one)[|attempt| + 6..] == one;
    assert StepKey(attempt, two)[|attempt| + 6..] == two;
  }

  // ---------------------------------------------------------------- an attempt and its tabs

  /** What the browser remembers of an attempt: the parent it knows of and the next step to create. */
  datatype Progress = Progress(parent: Option<Id>, next: nat)

  datatype Attempt = Attempt(id: Text, list: Option<Id>, title: Text, description: Text, date: Text, steps: seq<TemplateStep>)

  /** `created` lists the tasks the attempt's requests have created, in the order of their creation. */
  datatype System = System(board: Board, saved: Progress, tabs: map<nat, Progress>, created: seq<Id>)

  /** What happens to a response: it arrives and progress is saved, or the tab learns nothing from it. */
  datatype Delivery = Saved | Lost

  /** The description and the assignee of a subtask depend on the agents a tab knows at the time. */
  datatype Event =
    | Elsewhere(step: Step)
    | Reload(tab: nat)
    | StartOver(tab: nat)
    | PostParent(tab: nat, inbox: Id, task: Id, now: int, delivery: Delivery)
    | PostStep(tab: nat, description: Text, assignee: Option<Id>, inbox: Id, task: Id, now: int, delivery: Delivery)

  function ParentDraft(a: Attempt): Draft {
    Draft(a.title, a.description, Parsed(a.date), Parsed(Action), Some(Parsed(New)), Parsed(P1), None, None, Some(ParentKey(a.id)), false)
  }

  function StepDraft(a: Attempt, step: TemplateStep, description: Text, assignee: Option<Id>): Draft {
    Draft(step.title, description, Parsed([]), Parsed(Action), Some(Parsed(New)), Parsed(P1), assignee, None, Some(StepKey(a.id, step.id)), false)
  }

  function Endpoint(a: Attempt): Store.Endpoint {
    if a.list.Some? then ListEndpoint(a.list.value) else InboxEndpoint
  }

  /** What the first post of an attempt stores: the parent as drafted, new, in the chosen list or else the inbox. */
  lemma {:induction false} ParentStored(a: Attempt, b: Board, inbox: Id, task: Id, now: int)
    requires ParentKey(a.id) !in b.keys && CreateTask(b, ParentDraft(a), Endpoint(a), inbox, task, now).Ok?
    ensures var b' := CreateTask(b, ParentDraft(a), Endpoint(a), inbox, task, now).value.0;
      && task in b'.tasks && b'.tasks[task].content == Content(a.title, a.description, a.date, Action, P1)
      && b'.tasks[task].place.parent == None && b'.tasks[task].place.bucket == (if a.list.Some? then a.list.value else inbox)
      && b'.tasks[task].flow == Flow(New, None, None, NoReason)
  {
    hide CreateTask;
    Decisions.CreateStored(b, ParentDraft(a), Endpoint(a), inbox, task, now);
  }

  /** What the post of a step stores: a subtask as drafted in the parent's list, queued if it is for an agent. */
  lemma {:induction false} StepStored(a: Attempt, b: Board, step: TemplateStep, description: Text, assignee: Option<Id>, parent: Id, inbox: Id, task: Id, now: int)
    requires StepKey(a.id, step.id) !in b.keys
    requires CreateTask(b, StepDraft(a, step, description, assignee), ParentEndpoint(parent), inbox, task, now).Ok?
    ensures var b' := CreateTask(b, StepDraft(a, step, description, assignee), ParentEndpoint(parent), inbox, task, now).value.0;
      && task in b'.tasks && parent in b.tasks && b'.tasks[task].content == Content(step.title, description, [], Action, P1)
      && b'.tasks[task].place.parent == Some(parent) && b'.tasks[task].place.bucket == b.tasks[parent].place.bucket
      && b'.tasks[task].flow == Flow(if assignee.Some? then Queued else New, assignee, None, NoReason)
  {
    hide CreateTask;
    Decisions.CreateStored(b, StepDraft(a, step, description, assignee), ParentEndpoint(parent), inbox, task, now);
  }

  ghost predicate IsKey(a: Attempt, key: Text) {
    key == ParentKey(a.id) || exists i :: 0 <= i < |a.steps| && key == StepKey(a.id, a.steps[i].id)
  }

  /** Nothing is deleted, and nobody else uses the attempt's keys. */
  ghost predicate Harmless(a: Attempt, step: Step) {
    && !step.RemoveTask? && !step.RemoveBucket?
    && (step.Create? && step.draft.key.Some? ==> !IsKey(a, step.draft.key.value))
  }

  ghost predicate Enabled(a: Attempt, s: System, e: Event) {
    match e
    case Elsewhere(step) => Harmless(a, step)
    case Reload(tab) => true
    case StartOver(tab) => true
    case PostParent(tab, _, _, _, _) => tab in s.tabs && s.tabs[tab].parent.None?
    case PostStep(tab, _, _, _, _, _, _) => tab in s.tabs && s.tabs[tab].parent.Some? && s.tabs[tab].next < |a.steps|
  }

  /** The tab `tab` learned `progress` and saved it, unless the response was lost. */
  function Learned(s: System, tab: nat, progress: Progress, delivery: Delivery): System {
    if delivery == Saved then s.(saved := progress, tabs := s.tabs[tab := progress]) else s
  }

  /** The account and the log after a creation under `key` was answered. */
  ghost function Posted(s: System, key: Text, answer: (Board, Id)): System {
    s.(board := answer.0, created := if key in s.board.keys then s.created else s.created + [answer.1])
  }

  ghost function Next(a: Attempt, s: System, e: Event): System
    requires Enabled(a, s, e)
  {
    match e
    case Elsewhere(step) => s.(board := After(s.board, step))
    case Reload(tab) => s.(tabs := s.tabs[tab := s.saved])
    case StartOver(tab) => s.(tabs := s.tabs[tab := Progress(None, 0)])
    case PostParent(tab, inbox, task, now, delivery) =>
      var r := CreateTask(s.board, ParentDraft(a), Endpoint(a), inbox, task, now);
      if r.Err? then s
      else Learned(Posted(s, ParentKey(a.id), r.value), tab, s.tabs[tab].(parent := Some(r.value.1)), delivery)
    case PostStep(tab, description, assignee, inbox, task, now, delivery) =>
      var progress := s.tabs[tab];
      var step := a.steps[progress.next];
      var r := CreateTask(s.board, StepDraft(a, step, description, assignee), ParentEndpoint(progress.parent.value), inbox, task, now);
      if r.Err? then s
      else Learned(Posted(s, StepKey(a.id, step.id), r.value), tab, progress.(next := progress.next + 1), delivery)
  }

  /** A history of the attempt. */
  ghost predicate History(a: Attempt, systems: seq<System>, events: seq<Event>) {
    && |systems| == |events| + 1
    && forall i :: 0 <= i < |events| ==> Enabled(a, systems[i], events[i]) && systems[i + 1] == Next(a, systems[i], events[i])
  }

  ghost predicate Begins(a: Attempt, s: System) {
    && Inv(s.board) && (forall key :: IsKey(a, key) ==> key !in s.board.keys)
    && s.saved == Progress(None, 0) && s.tabs == map[] && s.created == []
  }

  /** The attempt is complete for this tab. */
  predicate Complete(a: Attempt, progress: Progress) {
    progress.parent.Some? && progress.next == |a.steps|
  }

  // ---------------------------------------------------------------- one tab

  datatype Post = ParentPost | StepPost(parent: Id, index: nat)

  /** The posts still to be made below a known parent. */
  function Remaining(a: Attempt, parent: Id, next: nat): seq<Post>
    requires next <= |a.steps|
  {
    seq(|a.steps| - next, i requires 0 <= i => StepPost(parent, next + i))
  }

  /** The posts of a tab that starts at `start`, knows `parent` in the end and had `made` steps answered;
      `broken` says that one more post was made and not answered. */
  function ExpectedPosts(a: Attempt, start: Progress, parent: Option<Id>, made: nat, broken: bool): seq<Post>
    requires parent.Some? ==> start.next + made + (if broken then 1 else 0) <= |a.steps|
  {
    (if start.parent.None? then [ParentPost] else []) +
    (if parent.None? then [] else Remaining(a, parent.value, start.next)[..made + (if broken then 1 else 0)])
  }

  /** One browser tab and the local storage it writes. */
  class Tab {
    var progress: Progress
    var saved: Progress

    constructor (progress: Progress, saved: Progress)
      ensures this.progress == progress && this.saved == saved
    {
      this.progress, this.saved := progress, saved;
    }

    /** The resume loop. `parent` is the answer about the parent, found or created; `answers` says
        which of the following responses arrive and let progress be saved. The tab posts each step
        only after the one before it was answered and saved, and never skips one; it is done exactly
        if all were. */
    method CreateFromTemplate(a: Attempt, parent: Option<Id>, answers: nat) returns (done: bool, posts: seq<Post>)
      requires progress.next <= |a.steps| && (progress.parent.None? ==> progress.next == 0)
      requires progress.parent.Some? && parent.Some? ==> parent == progress.parent
      modifies this
      ensures done ==> Complete(a, progress)
      ensures done <==> parent.Some? && answers >= |a.steps| - old(progress.next)
      ensures parent.None? ==> unchanged(this) && posts == (if old(progress).parent.None? then [ParentPost] else [])
      ensures parent.Some? ==>
        var made := if done then |a.steps| - old(progress.next) else answers;
        && progress == Progress(parent, old(progress.next) + made)
        && posts == ExpectedPosts(a, old(progress), parent, made, !done)
        && saved == (if old(progress).parent.None? || made > 0 then progress else old(saved))
    {
      posts := [];
      if progress.parent.None? {
        posts := [ParentPost];
        if parent.None? {
          return false, posts;
        }
        progress := progress.(parent := parent);
        saved := progress;
      } else if parent.None? {
        return false, posts;
      }
      var first, start := posts, progress.next;
      var index := start;
      while index < |a.steps|
        invariant start == old(progress.next) <= index <= |a.steps| && index - start <= answers
        invariant progress == Progress(parent, index)
        invariant posts == first + Remaining(a, parent.value, start)[..index - start]
        invariant saved == (if old(progress).parent.None? || index > start then progress else old(saved))
      {
        posts := posts + [StepPost(parent.value, index)];
        if index - start == answers {
          return false, posts;
        }
        progress := progress.(next := index + 1);
        saved := progress;
        index := index + 1;
      }
      return true, posts;
    }
  }

  // ---------------------------------------------------------------- a tab among the others

  predicate Own(e: Event, tab: nat) {
    (e.PostParent? || e.PostStep?) && e.tab == tab
  }

  predicate Resets(e: Event, tab: nat) {
    (e.Reload? || e.StartOver?) && e.tab == tab
  }

  /** The server accepted the post, and the tab learned of it and saved it. */
  ghost predicate AnsweredPost(a: Attempt, s: System, e: Event)
    requires Enabled(a, s, e) && (e.PostParent? || e.PostStep?)
  {
    && e.delivery == Saved
    && if e.PostParent? then CreateTask(s.board, ParentDraft(a), Endpoint(a), e.inbox, e.task, e.now).Ok?
       else CreateTask(s.board, StepDraft(a, a.steps[s.tabs[e.tab].next], e.description, e.assignee),
                       ParentEndpoint(s.tabs[e.tab].parent.value), e.inbox, e.task, e.now).Ok?
  }

  function PostOf(s: System, e: Event): Post
    requires (e.PostParent? || e.PostStep?) && e.tab in s.tabs && (e.PostStep? ==> s.tabs[e.tab].parent.Some?)
  {
    if e.PostParent? then ParentPost else StepPost(s.tabs[e.tab].parent.value, s.tabs[e.tab].next)
  }

  lemma {:induction false} HistoryFront(a: Attempt, systems: seq<System>, events: seq<Event>)
    requires History(a, systems, events) && events != []
    ensures var n := |events| - 1;
            History(a, systems[..n + 1], events[..n]) && Enabled(a, systems[n], events[n]) && systems[n + 1] == Next(a, systems[n], events[n])
  {
    hide Enabled, Next;
  }

  /** The posts of one tab in a history. */
  ghost function TabPosts(a: Attempt, systems: seq<System>, events: seq<Event>, tab: nat): seq<Post>
    requires History(a, systems, events)
  {
    if events == [] then []
    else
      var n := |events| - 1;
      HistoryFront(a, systems, events);
      TabPosts(a, systems[..n + 1], events[..n], tab) + (if Own(events[n], tab) then [PostOf(systems[n], events[n])] else [])
  }

  /** The last post of the tab was not answered. */
  ghost predicate Broken(a: Attempt, systems: seq<System>, events: seq<Event>, tab: nat)
    requires History(a, systems, events)
  {
    events != [] &&
    (var n := |events| - 1;
     HistoryFront(a, systems, events);
     if Own(events[n], tab) then !AnsweredPost(a, systems[n], events[n]) else Broken(a, systems[..n + 1], events[..n], tab))
  }

  /** The tab runs its loop once: nobody reloads it, and it makes no post after one that was not answered. */
  ghost predicate OneRun(a: Attempt, systems: seq<System>, events: seq<Event>, tab: nat)
    requires History(a, systems, events)
  {
    events == [] ||
    (var n := |events| - 1;
     HistoryFront(a, systems, events);
     && OneRun(a, systems[..n + 1], events[..n], tab) && !Resets(events[n], tab)
     && (Own(events[n], tab) ==> !Broken(a, systems[..n + 1], events[..n], tab)))
  }

  lemma {:induction false} TabStep(a: Attempt, s: System, e: Event, tab: nat)
    requires Enabled(a, s, e) && tab in s.tabs && !Resets(e, tab)
    ensures var s' := Next(a, s, e);
      && tab in s'.tabs
      && (!Own(e, tab) || !AnsweredPost(a, s, e) ==> s'.tabs[tab] == s.tabs[tab])
      && (Own(e, tab) && AnsweredPost(a, s, e) && e.PostParent? ==> s'.tabs[tab].parent.Some? && s'.tabs[tab].next == s.tabs[tab].next)
      && (Own(e, tab) && AnsweredPost(a, s, e) && e.PostStep? ==> s'.tabs[tab] == s.tabs[tab].(next := s.tabs[tab].next + 1))
  {
    hide CreateTask, After;
  }

  /** What the posts and the progress of a tab are, wherever the events of the other tabs and of the rest of
      the account fall between its own: exactly what `CreateFromTemplate` says of a loop that ends
      with this parent after this many answers. */
  ghost predicate RanLoop(a: Attempt, start: Progress, end: Progress, posts: seq<Post>, broken: bool) {
    && start.next <= end.next <= |a.steps|
    && (end.parent.None? ==> end == start)
    && (start.parent.Some? ==> end.parent == start.parent)
    && (broken ==> posts != [] && (end.parent.Some? ==> end.next < |a.steps|))
    && (posts == [] ==> end == start)
    && (posts != [] && !broken ==> end.parent.Some?)
    && (posts != [] ==> posts == ExpectedPosts(a, start, end.parent, end.next - start.next, broken))
  }

  lemma {:induction false} TabFollowsLoop(a: Attempt, systems: seq<System>, events: seq<Event>, tab: nat)
    requires History(a, systems, events) && OneRun(a, systems, events, tab) && tab in systems[0].tabs
    requires var start := systems[0].tabs[tab]; start.next <= |a.steps| && (start.parent.None? ==> start.next == 0)
    ensures tab in systems[|events|].tabs
    ensures RanLoop(a, systems[0].tabs[tab], systems[|events|].tabs[tab], TabPosts(a, systems, events, tab), Broken(a, systems, events, tab))
    decreases |events|
  {
    hide Next, AnsweredPost;
    if events == [] {
    } else {
      var n := |events| - 1;
      HistoryFront(a, systems, events);
      TabFollowsLoop(a, systems[..n + 1], events[..n], tab);
      TabStep(a, systems[n], events[n], tab);
      if Own(events[n], tab) {
        LoopNext(a, systems[0].tabs[tab], systems[n].tabs[tab], systems[n + 1].tabs[tab], TabPosts(a, systems[..n + 1], events[..n], tab),
                 PostOf(systems[n], events[n]), AnsweredPost(a, systems[n], events[n]));
      }
    }
  }

  lemma {:induction false} LoopNext(a: Attempt, start: Progress, now: Progress, next: Progress, posts: seq<Post>, post: Post, answered: bool)
    requires start.next <= |a.steps| && (start.parent.None? ==> start.next == 0)
    requires RanLoop(a, start, now, posts, false)
    requires if post.ParentPost? then now.parent.None? else now.parent == Some(post.parent) && post.index == now.next < |a.steps|
    requires !answered ==> next == now
    requires answered && post.ParentPost? ==> next.parent.Some? && next.next == now.next
    requires answered && post.StepPost? ==> next == now.(next := now.next + 1)
    ensures RanLoop(a, start, next, posts + [post], !answered)
  {
    if post.StepPost? {
      var rest, made := Remaining(a, post.parent, start.next), now.next - start.next;
      assert rest[..made + 1] == rest[..made] + [post];
    }
  }

  // ---------------------------------------------------------------- the invariant

  /** `key` belongs to `task`, which was created for `title` below `parent`. */
  ghost predicate Holds(b: Board, key: Text, task: Id, title: Text, parent: Option<Id>) {
    key in b.keys && b.keys[key].task == Some(task) && b.keys[key].data.title == title && b.keys[key].data.parent == parent
  }

  /** The log is the parent followed by the subtasks of a prefix of the steps, each under its own key. */
  ghost predicate LogOk(a: Attempt, b: Board, created: seq<Id>) {
    && |created| <= |a.steps| + 1 && Distinct(created)
    && (created == [] ==> ParentKey(a.id) !in b.keys)
    && (created != [] ==> Holds(b, ParentKey(a.id), created[0], a.title, None))
    && (forall i :: 0 <= i < |a.steps| && i + 1 < |created| ==>
          Holds(b, StepKey(a.id, a.steps[i].id), created[i + 1], a.steps[i].title, Some(created[0])))
    && (forall i :: 0 <= i < |a.steps| && i + 1 >= |created| ==> StepKey(a.id, a.steps[i].id) !in b.keys)
  }

  /** Nobody is ahead of the log. */
  predicate ProgressOk(created: seq<Id>, p: Progress) {
    && (p.parent.Some? ==> created != [] && p.parent.value == created[0] && p.next < |created|)
    && (p.parent.None? ==> p.next == 0)
  }

  ghost predicate SystemOk(a: Attempt, s: System) {
    && Inv(s.board) && LogOk(a, s.board, s.created)
    && ProgressOk(s.created, s.saved)
    && forall tab :: tab in s.tabs ==> ProgressOk(s.created, s.tabs[tab])
  }

  // ---------------------------------------------------------------- what keeps it

  /** A creation under a key either finds the record and changes nothing, or stores a new one. */
  lemma {:induction false} CreateAnswers(b: Board, draft: Draft, endpoint: Store.Endpoint, inbox: Id, id: Id, now: int, key: Text)
    requires draft.key == Some(key) && CreateTask(b, draft, endpoint, inbox, id, now).Ok?
    ensures var (b', task) := CreateTask(b, draft, endpoint, inbox, id, now).value;
            var parent := if endpoint.ParentEndpoint? then Some(endpoint.id) else draft.parent;
            && (key in b.keys ==> b' == b && b.keys[key].task == Some(task))
            && (key !in b.keys ==>
                  && task == id && id !in b.tasks
                  && (forall other :: other != key ==> (other in b'.keys <==> other in b.keys))
                  && (forall other :: other in b.keys ==> other in b'.keys && b'.keys[other] == b.keys[other])
                  && Holds(b', key, task, draft.title, parent))
  {
    hide NextOrder;
  }

  /** What happens elsewhere leaves the attempt's records alone. */
  lemma {:induction false} HarmlessKeeps(a: Attempt, b: Board, step: Step, key: Text)
    requires Harmless(a, step) && IsKey(a, key)
    ensures key in After(b, step).keys <==> key in b.keys
    ensures key in b.keys ==> After(b, step).keys[key] == b.keys[key]
  {
    hide IsKey, NextOrder;
    if !step.Create? {
      hide Apply;
      KeysUntouched(b, step);
    }
  }

  lemma {:induction false} ElsewhereKeeps(a: Attempt, s: System, step: Step)
    requires SystemOk(a, s) && Harmless(a, step)
    ensures SystemOk(a, s.(board := After(s.board, step)))
  {
    hide After, Inv, Harmless, ParentKey, StepKey;
    StepKeeps(s.board, step);
    var b' := After(s.board, step);
    assert IsKey(a, ParentKey(a.id));
    HarmlessKeeps(a, s.board, step, ParentKey(a.id));
    forall i | 0 <= i < |a.steps|
      ensures StepKey(a.id, a.steps[i].id) in b'.keys <==> StepKey(a.id, a.steps[i].id) in s.board.keys
      ensures StepKey(a.id, a.steps[i].id) in s.board.keys ==> b'.keys[StepKey(a.id, a.steps[i].id)] == s.board.keys[StepKey(a.id, a.steps[i].id)]
    {
      assert IsKey(a, StepKey(a.id, a.steps[i].id));
      HarmlessKeeps(a, s.board, step, StepKey(a.id, a.steps[i].id));
    }
  }

  /** Every task in the log is stored. */
  lemma {:induction false} LoggedStored(a: Attempt, b: Board, created: seq<Id>, i: nat)
    requires Inv(b) && LogOk(a, b, created) && i < |created|
    ensures created[i] in b.tasks
    ensures b.tasks[created[i]].place.parent == if i == 0 then None else Some(created[0])
  {
    hide Measured, ParentKey, StepKey;
    if i > 0 {
      assert Holds(b, StepKey(a.id, a.steps[i - 1].id), created[i - 1 + 1], a.steps[i - 1].title, Some(created[0]));
    }
  }

  lemma {:induction false} LogGrows(a: Attempt, b: Board, created: seq<Id>, task: Id)
    requires Inv(b) && LogOk(a, b, created) && task !in b.tasks
    ensures Distinct(created + [task])
  {
    hide Inv, Holds;
    forall i | 0 <= i < |created|
      ensures created[i] != task
    {
      LoggedStored(a, b, created, i);
    }
  }

  lemma {:induction false} ParentLogged(a: Attempt, b: Board, b': Board, task: Id)
    requires LogOk(a, b, []) && Holds(b', ParentKey(a.id), task, a.title, None)
    requires forall other :: other != ParentKey(a.id) ==> (other in b'.keys <==> other in b.keys)
    ensures LogOk(a, b', [task])
  {
    hide ParentKey, StepKey;
    forall i | 0 <= i < |a.steps|
      ensures StepKey(a.id, a.steps[i].id) !in b'.keys
    {
      KeysDiffer(a.id, a.steps[i].id, a.steps[i].id);
    }
  }

  /** An answered post keeps the system sound if it keeps the log sound and the tab learns no more than
      the log says. */
  lemma {:induction false} AnswerKeeps(a: Attempt, s: System, tab: nat, b: Board, created: seq<Id>, progress: Progress, delivery: Delivery)
    requires SystemOk(a, s) && Inv(b) && LogOk(a, b, created) && s.created <= created && ProgressOk(created, progress)
    ensures SystemOk(a, Learned(s.(board := b, created := created), tab, progress, delivery))
  {
    hide Inv, LogOk;
  }

  lemma {:induction false} ParentKeeps(a: Attempt, s: System, e: Event)
    requires SystemOk(a, s) && e.PostParent? && Enabled(a, s, e)
    ensures SystemOk(a, Next(a, s, e))
  {
    hide CreateTask, Inv, LogOk, ParentKey, StepKey, Learned;
    var r := CreateTask(s.board, ParentDraft(a), Endpoint(a), e.inbox, e.task, e.now);
    if r.Ok? {
      CreateKeeps(s.board, ParentDraft(a), Endpoint(a), e.inbox, e.task, e.now);
      CreateAnswers(s.board, ParentDraft(a), Endpoint(a), e.inbox, e.task, e.now, ParentKey(a.id));
      ParentKeyLogged(a, s.board, s.created);
      if ParentKey(a.id) !in s.board.keys {
        ParentLogged(a, s.board, r.value.0, r.value.1);
        assert s.created + [r.value.1] == [r.value.1];
      }
      var after := Posted(s, ParentKey(a.id), r.value);
      AnswerKeeps(a, s, e.tab, after.board, after.created, s.tabs[e.tab].(parent := Some(r.value.1)), e.delivery);
    }
  }

  lemma {:induction false} ParentKeyLogged(a: Attempt, b: Board, created: seq<Id>)
    requires LogOk(a, b, created)
    ensures ParentKey(a.id) in b.keys <==> created != []
    ensures created != [] ==> b.keys[ParentKey(a.id)].task == Some(created[0])
  {
  }

  lemma {:induction false} StepKeyLogged(a: Attempt, b: Board, created: seq<Id>, i: nat)
    requires LogOk(a, b, created) && i < |a.steps| && i < |created|
    ensures StepKey(a.id, a.steps[i].id) in b.keys <==> i + 1 < |created|
  {
    hide StepKey, ParentKey;
    if i + 1 < |created| {
      assert Holds(b, StepKey(a.id, a.steps[i].id), created[i + 1], a.steps[i].title, Some(created[0]));
    }
  }

  lemma {:induction false} StepLogged(a: Attempt, b: Board, b': Board, created: seq<Id>, task: Id)
    requires DistinctIds(a.steps) && LogOk(a, b, created) && created != [] && |created| <= |a.steps| && Distinct(created + [task])
    requires var n := |created| - 1; Holds(b', StepKey(a.id, a.steps[n].id), task, a.steps[n].title, Some(created[0]))
    requires forall other :: other != StepKey(a.id, a.steps[|created| - 1].id) ==> (other in b'.keys <==> other in b.keys)
    requires forall other :: other in b.keys ==> other in b'.keys && b'.keys[other] == b.keys[other]
    ensures LogOk(a, b', created + [task])
  {
    hide ParentKey, StepKey;
    var n, more := |created| - 1, created + [task];
    forall i | 0 <= i < |a.steps| && i + 1 < |more|
      ensures Holds(b', StepKey(a.id, a.steps[i].id), more[i + 1], a.steps[i].title, Some(more[0]))
    {
      if i < n {
        assert Holds(b, StepKey(a.id, a.steps[i].id), created[i + 1], a.steps[i].title, Some(created[0]));
      }
    }
    forall i | 0 <= i < |a.steps| && i + 1 >= |more|
      ensures StepKey(a.id, a.steps[i].id) !in b'.keys
    {
      KeysDiffer(a.id, a.steps[i].id, a.steps[n].id);
    }
  }

  lemma {:induction false} StepEventKeeps(a: Attempt, s: System, e: Event)
    requires DistinctIds(a.steps) && SystemOk(a, s) && e.PostStep? && Enabled(a, s, e)
    ensures SystemOk(a, Next(a, s, e))
  {
    hide CreateTask, Inv, LogOk, ParentKey, StepKey, Learned;
    var progress := s.tabs[e.tab];
    var step := a.steps[progress.next];
    var draft, key := StepDraft(a, step, e.description, e.assignee), StepKey(a.id, step.id);
    var r := CreateTask(s.board, draft, ParentEndpoint(progress.parent.value), e.inbox, e.task, e.now);
    if r.Ok? {
      CreateKeeps(s.board, draft, ParentEndpoint(progress.parent.value), e.inbox, e.task, e.now);
      CreateAnswers(s.board, draft, ParentEndpoint(progress.parent.value), e.inbox, e.task, e.now, key);
      StepKeyLogged(a, s.board, s.created, progress.next);
      if key !in s.board.keys {
        LogGrows(a, s.board, s.created, r.value.1);
        StepLogged(a, s.board, r.value.0, s.created, r.value.1);
      }
      var after := Posted(s, key, r.value);
      AnswerKeeps(a, s, e.tab, after.board, after.created, progress.(next := progress.next + 1), e.delivery);
    }
  }

  lemma {:induction false} EventKeeps(a: Attempt, s: System, e: Event)
    requires DistinctIds(a.steps) && SystemOk(a, s) && Enabled(a, s, e)
    ensures SystemOk(a, Next(a, s, e))
  {
    hide Inv, LogOk, CreateTask, After;
    match e
    case Elsewhere(step) => ElsewhereKeeps(a, s, step);
    case Reload(tab) =>
    case StartOver(tab) =>
    case PostParent(_, _, _, _, _) => ParentKeeps(a, s, e);
    case PostStep(_, _, _, _, _, _, _) => StepEventKeeps(a, s, e);
  }

  lemma {:induction false} HistoryOk(a: Attempt, systems: seq<System>, events: seq<Event>, i: nat)
    requires DistinctIds(a.steps) && History(a, systems, events) && Begins(a, systems[0]) && i < |systems|
    ensures SystemOk(a, systems[i])
  {
    hide Inv, Next, Enabled;
    if i == 0 {
      assert IsKey(a, ParentKey(a.id));
      assert forall k :: 0 <= k < |a.steps| ==> IsKey(a, StepKey(a.id, a.steps[k].id));
    } else {
      HistoryOk(a, systems, events, i - 1);
      assert systems[i - 1 + 1] == Next(a, systems[i - 1], events[i - 1]);
      EventKeeps(a, systems[i - 1], events[i - 1]);
    }
  }

  /** What a completed attempt has created: one parent, and below it one subtask for each step, in the
      order of the template. */
  ghost predicate CreatedOnce(a: Attempt, b: Board, created: seq<Id>) {
    && |created| == |a.steps| + 1 && Distinct(created)
    && (forall i :: 0 <= i < |created| ==> created[i] in b.tasks)
    && b.tasks[created[0]].place.parent == None
    && Holds(b, ParentKey(a.id), created[0], a.title, None)
    && forall i :: 0 <= i < |a.steps| ==>
         && b.tasks[created[i + 1]].place.parent == Some(created[0])
         && Holds(b, StepKey(a.id, a.steps[i].id), created[i + 1], a.steps[i].title, Some(created[0]))
  }

  /** For any pattern of lost responses, reloads, restarts and concurrent tabs: once a tab is through, the
      requests of the attempt have created exactly one parent and exactly one subtask for each step,
      in template order, and nothing they do later creates anything more. */
  lemma {:induction false} CompletedAttempt(template: Template, a: Attempt, systems: seq<System>, events: seq<Event>, i: nat, tab: nat)
    requires TemplateOk(template) && a.steps == OrderedSteps(template.phases, template.steps)
    requires History(a, systems, events) && Begins(a, systems[0]) && i < |systems|
    requires tab in systems[i].tabs && Complete(a, systems[i].tabs[tab])
    ensures multiset(a.steps) == multiset(template.steps) && InTemplateOrder(template, a.steps)
    ensures CreatedOnce(a, systems[i].board, systems[i].created)
  {
    hide Inv, ParentKey, StepKey, Begins, History, InTemplateOrder;
    OrderedStepsPermute(template);
    OrderedStepsInOrder(template);
    IdsStayDistinct(template.steps, a.steps);
    HistoryOk(a, systems, events, i);
    var b, created := systems[i].board, systems[i].created;
    forall j | 0 <= j < |created|
      ensures created[j] in b.tasks && b.tasks[created[j]].place.parent == if j == 0 then None else Some(created[0])
    {
      LoggedStored(a, b, created, j);
    }
    forall j | 0 <= j < |a.steps|
      ensures b.tasks[created[j + 1]].place.parent == Some(created[0])
      ensures Holds(b, StepKey(a.id, a.steps[j].id), created[j + 1], a.steps[j].title, Some(created[0]))
    {
      LoggedStored(a, b, created, j + 1);
    }
  }

  /** The same for an attempt whose template was loaded, whatever was stored. */
  lemma {:induction false} CompletedLoadedAttempt(raw: RawTemplate, library: Library, a: Attempt, systems: seq<System>, events: seq<Event>, i: nat, tab: nat)
    requires MigrateTemplate(raw, library).Some?
    requires var template := MigrateTemplate(raw, library).value; a.steps == OrderedSteps(template.phases, template.steps)
    requires History(a, systems, events) && Begins(a, systems[0]) && i < |systems|
    requires tab in systems[i].tabs && Complete(a, systems[i].tabs[tab])
    ensures |a.steps| == |raw.steps| && InTemplateOrder(MigrateTemplate(raw, library).value, a.steps)
    ensures CreatedOnce(a, systems[i].board, systems[i].created)
  {
    hide InTemplateOrder, MigrateTemplate, History, Begins, CreatedOnce, TemplateOk;
    MigratedIsSound(raw, library);
    var template := MigrateTemplate(raw, library).value;
    CompletedAttempt(template, a, systems, events, i, tab);
    assert |multiset(a.steps)| == |multiset(template.steps)|;
  }

  /** The log only ever grows. */
  lemma {:induction false} LogPrefix(a: Attempt, systems: seq<System>, events: seq<Event>, i: nat, j: nat)
    requires History(a, systems, events) && i <= j < |systems|
    ensures systems[i].created <= systems[j].created
    decreases j - i
  {
    hide CreateTask, After;
    if i == j {
    } else {
      LogPrefix(a, systems, events, i, j - 1);
      assert systems[j - 1 + 1] == Next(a, systems[j - 1], events[j - 1]);
    }
  }

  /** After completion, further retries leave the log as it is. */
  lemma {:induction false} CompletedStays(template: Template, a: Attempt, systems: seq<System>, events: seq<Event>, i: nat, j: nat, tab: nat)
    requires TemplateOk(template) && a.steps == OrderedSteps(template.phases, template.steps)
    requires History(a, systems, events) && Begins(a, systems[0]) && i <= j < |systems|
    requires tab in systems[i].tabs && Complete(a, systems[i].tabs[tab])
    ensures systems[j].created == systems[i].created
  {
    hide Inv, ParentKey, StepKey, Begins, History, Holds, InTemplateOrder;
    CompletedAttempt(template, a, systems, events, i, tab);
    OrderedStepsPermute(template);
    IdsStayDistinct(template.steps, a.steps);
    HistoryOk(a, systems, events, j);
    LogPrefix(a, systems, events, i, j);
  }
}
