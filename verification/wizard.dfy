/** The branch-creation wizard of mis-react-web/src/pages/manageBranch.tsx: four
    modals, each shown by its own boolean, over form state they share. Every
    user action is an event; an event whose control is not on screen (its modal
    is hidden) changes nothing. */
module Wizard {
  import opened Wrappers
  import opened Json
  import opened BranchForm
  import opened SourceNameList
  import opened FieldChecklist

  datatype State = State(
    showModal: bool,          // step 1, AddBranchModal
    showSourceModal: bool,    // step 2, AddSourceNameModal
    showDailyModal: bool,     // step 3, daily DatasheetModal
    showMonthlyModal: bool,   // step 4, monthly DatasheetModal
    form: Form,
    sourceNames: seq<Entry>,
    newSourceName: string,
    selectedSourceType: string,
    dailyFields: FieldMap,
    monthlyFields: FieldMap)

  /** The page as first rendered. */
  const Init: State := State(false, false, false, false, EmptyForm, [], "", "", [], [])

  datatype Event =
    | AddBranchClicked
    | BranchInput(name: InputName, value: string)
    | BranchSourceTypeToggled(sourceType: string)
    | BranchNext
    | BranchClose
    | SourceNameTyped(text: string)
    | SourceNameAdded
    | SourceNameDeleted(id: int)
    | SourceNameRenamed(id: int, answer: Option<string>)
    | SourcePrevious
    | SourceNext
    | SourceClose
    | DailySourceTypeSelected(sourceType: string)
    | DailyFieldToggled(field: string)
    | DailyPrevious
    | DailyNext
    | DailyClose
    | MonthlyFieldToggled(field: string)
    | MonthlyPrevious
    | MonthlyClose
      /** The monthly Next button (`handleFullSave`) with the POST's outcome. */
    | MonthlySaved(succeeded: bool)

  /** No two modals are on screen together. */
  predicate AtMostOneOpen(s: State) {
    var open := (if s.showModal then 1 else 0) + (if s.showSourceModal then 1 else 0)
      + (if s.showDailyModal then 1 else 0) + (if s.showMonthlyModal then 1 else 0);
    open <= 1
  }

  predicate NoneOpen(s: State) {
    !s.showModal && !s.showSourceModal && !s.showDailyModal && !s.showMonthlyModal
  }

  /** The step on screen: 1 to 4, or 0 when the wizard is closed. */
  function Stage(s: State): nat {
    if s.showModal then 1
    else if s.showSourceModal then 2
    else if s.showDailyModal then 3
    else if s.showMonthlyModal then 4
    else 0
  }

  /** The request body `handleFullSave` posts. */
  datatype BranchPayload = BranchPayload(areaId: string, branchName: string, isActive: bool)
  datatype SavePayload = SavePayload(
    branch: BranchPayload,
    sourceNames: seq<string>,
    dailySourceType: string,
    dailyFields: FieldMap,
    monthlyFields: FieldMap)

  /** `sourceNames.map(sn => sn.sourceName)`. */
  function NamesOnly(names: seq<Entry>): (r: seq<string>)
    ensures |r| == |names|
    ensures forall i :: 0 <= i < |names| ==> r[i] == names[i].sourceName
  {
    if |names| == 0 then [] else [names[0].sourceName] + NamesOnly(names[1..])
  }

  /** What the save sends: the branch fields with `isActive` fixed to true, the
      source names in list order without their ids, the daily source type and
      both field maps. The selected source types are not sent. */
  function Payload(s: State): (p: SavePayload)
    ensures p.branch == BranchPayload(s.form.areaId, s.form.branchName, true)
    ensures |p.sourceNames| == |s.sourceNames|
    ensures forall i :: 0 <= i < |s.sourceNames| ==> p.sourceNames[i] == s.sourceNames[i].sourceName
    ensures p.dailySourceType == s.selectedSourceType
    ensures p.dailyFields == s.dailyFields && p.monthlyFields == s.monthlyFields
  {
    SavePayload(
      BranchPayload(s.form.areaId, s.form.branchName, true),
      NamesOnly(s.sourceNames),
      s.selectedSourceType,
      s.dailyFields,
      s.monthlyFields)
  }

  function FieldsJson(m: FieldMap): (r: seq<Member>)
    ensures |r| == |m|
    ensures forall i :: 0 <= i < |m| ==> r[i] == Member(m[i].field, Bool(m[i].checked))
  {
    if |m| == 0 then [] else [Member(m[0].field, Bool(m[0].checked))] + FieldsJson(m[1..])
  }

  function NamesJson(names: seq<string>): (r: seq<Json>)
    ensures |r| == |names|
    ensures forall i :: 0 <= i < |names| ==> r[i] == Obj([Member("sourceName", Str(names[i]))])
  {
    if |names| == 0 then [] else [Obj([Member("sourceName", Str(names[0]))])] + NamesJson(names[1..])
  }

  /** The payload as the JSON body axios sends; its top-level keys are
      `branch`, `sourceNames`, `daily` and `monthly`. */
  function PayloadJson(p: SavePayload): (j: Json)
    ensures j.Obj? && Keys(j.members) == ["branch", "sourceNames", "daily", "monthly"]
  {
    Obj([
      Member("branch", Obj([
        Member("areaId", Str(p.branch.areaId)),
        Member("branchName", Str(p.branch.branchName)),
        Member("isActive", Bool(p.branch.isActive))])),
      Member("sourceNames", Arr(NamesJson(p.sourceNames))),
      Member("daily", Obj([
        Member("selectedSourceType", Str(p.dailySourceType)),
        Member("fields", Obj(FieldsJson(p.dailyFields)))])),
      Member("monthly", Obj([
        Member("fields", Obj(FieldsJson(p.monthlyFields)))]))])
  }

  /** The two controls of step one marked `required` both hold a value; the
      browser's check accepts whitespace, so only the empty string fails. */
  predicate StepOneFilled(f: Form) {
    f.areaId != "" && f.branchName != ""
  }

  /** One user action. */
  function Step(s: State, e: Event): (r: State)
    ensures AtMostOneOpen(s) ==> AtMostOneOpen(r)
    ensures e == BranchNext && !StepOneFilled(s.form) ==> r == s
  {
    match e
    // the "Add Branch" button lies under the overlay of any open modal
    case AddBranchClicked => if NoneOpen(s) then s.(showModal := true) else s
    case BranchInput(name, value) =>
      if s.showModal then s.(form := HandleInput(s.form, name, value)) else s
    case BranchSourceTypeToggled(t) =>
      if s.showModal then s.(form := HandleSourceTypeChange(s.form, t)) else s
    // the browser submits only when both `required` controls hold a value;
    // handleSubmit then hides step 1, clears the form and shows step 2
    case BranchNext =>
      if s.showModal && StepOneFilled(s.form) then
        s.(showModal := false, form := EmptyForm, showSourceModal := true)
      else s
    case BranchClose => s.(showModal := false)
    case SourceNameTyped(text) => if s.showSourceModal then s.(newSourceName := text) else s
    case SourceNameAdded =>
      if s.showSourceModal then
        var ed := HandleAdd(Editor(s.sourceNames, s.newSourceName));
        s.(sourceNames := ed.names, newSourceName := ed.input)
      else s
    case SourceNameDeleted(id) =>
      if s.showSourceModal then s.(sourceNames := HandleDelete(s.sourceNames, id)) else s
    case SourceNameRenamed(id, answer) =>
      if s.showSourceModal then s.(sourceNames := HandleRename(s.sourceNames, id, answer)) else s
    case SourcePrevious =>
      if s.showSourceModal then s.(showSourceModal := false, showModal := true) else s
    case SourceNext =>
      if s.showSourceModal then s.(showSourceModal := false, showDailyModal := true) else s
    case SourceClose => s.(showSourceModal := false)
    case DailySourceTypeSelected(t) => if s.showDailyModal then s.(selectedSourceType := t) else s
    case DailyFieldToggled(f) =>
      if s.showDailyModal then s.(dailyFields := HandleCheckbox(s.dailyFields, f)) else s
    case DailyPrevious =>
      if s.showDailyModal then s.(showDailyModal := false, showSourceModal := true) else s
    case DailyNext =>
      if s.showDailyModal then s.(showDailyModal := false, showMonthlyModal := true) else s
    case DailyClose => s.(showDailyModal := false)
    case MonthlyFieldToggled(f) =>
      if s.showMonthlyModal then s.(monthlyFields := HandleCheckbox(s.monthlyFields, f)) else s
    case MonthlyPrevious =>
      if s.showMonthlyModal then s.(showMonthlyModal := false, showDailyModal := true) else s
    case MonthlyClose => s.(showMonthlyModal := false)
    case MonthlySaved(ok) =>
      if s.showMonthlyModal && ok then
        s.(showMonthlyModal := false, form := EmptyForm, sourceNames := [],
           dailyFields := [], monthlyFields := [])
      else s
  }

  /** A sequence of user actions. */
  function Run(s: State, es: seq<Event>): State
    decreases |es|
  {
    if |es| == 0 then s else Run(Step(s, es[0]), es[1..])
  }

  /** From the first render, no run of actions ever shows two modals together. */
  lemma {:induction false} RunKeepsAtMostOneOpen(s: State, es: seq<Event>)
    requires AtMostOneOpen(s)
    ensures AtMostOneOpen(Run(s, es))
    decreases |es|
  {
    if |es| > 0 {
      RunKeepsAtMostOneOpen(Step(s, es[0]), es[1..]);
    }
  }

  lemma InitHasNoneOpen()
    ensures NoneOpen(Init) && AtMostOneOpen(Init) && Stage(Init) == 0
  {
  }

  /** Next and Previous move exactly one step: 1->2, 2->1, 2->3, 3->2, 3->4, 4->3. */
  lemma NavigationMovesOneStep(s: State)
    requires AtMostOneOpen(s)
    ensures Stage(s) == 1 && StepOneFilled(s.form) ==> Stage(Step(s, BranchNext)) == 2
    ensures Stage(s) == 2 ==> Stage(Step(s, SourcePrevious)) == 1 && Stage(Step(s, SourceNext)) == 3
    ensures Stage(s) == 3 ==> Stage(Step(s, DailyPrevious)) == 2 && Stage(Step(s, DailyNext)) == 4
    ensures Stage(s) == 4 ==> Stage(Step(s, MonthlyPrevious)) == 3
  {
  }

  /** No action skips a step: the wizard moves at most one step, or closes. */
  lemma NoStepSkipped(s: State, e: Event)
    requires AtMostOneOpen(s)
    ensures var r := Step(s, e);
            Stage(r) == 0 || Stage(r) == Stage(s) || Stage(r) == Stage(s) + 1 || Stage(r) + 1 == Stage(s)
  {
  }

  /** Each Close hides its own modal and keeps every piece of form state. */
  lemma CloseKeepsData(s: State)
    ensures Step(s, BranchClose) == s.(showModal := false)
    ensures Step(s, SourceClose) == s.(showSourceModal := false)
    ensures Step(s, DailyClose) == s.(showDailyModal := false)
    ensures Step(s, MonthlyClose) == s.(showMonthlyModal := false)
  {
  }

  /** With the area or the branch name empty, step-one Next is refused by
      the browser and nothing changes. */
  lemma BranchNextNeedsBothFields(s: State)
    requires s.showModal
    requires s.form.areaId == "" || s.form.branchName == ""
    ensures Step(s, BranchNext) == s
    ensures Stage(Step(s, BranchNext)) == 1
  {
  }

  /** Step-one Next throws away what was typed into step one. */
  lemma BranchNextClearsForm(s: State)
    requires s.showModal && StepOneFilled(s.form)
    ensures Step(s, BranchNext).form == Form("", "", [])
  {
  }

  /** While step one stays hidden the form only changes by the save's reset. */
  predicate StepOneStaysHidden(s: State, es: seq<Event>)
    decreases |es|
  {
    !s.showModal && (|es| == 0 || StepOneStaysHidden(Step(s, es[0]), es[1..]))
  }

  /** So after step-one Next, any run that does not go back to step one saves
      an empty area id and an empty branch name, whatever was typed. */
  lemma {:induction false} ForwardPassSavesEmptyBranch(s: State, es: seq<Event>)
    requires s.form == EmptyForm
    requires StepOneStaysHidden(s, es)
    ensures Run(s, es).form == EmptyForm
    ensures Payload(Run(s, es)).branch == BranchPayload("", "", true)
    decreases |es|
  {
    if |es| > 0 {
      ForwardPassSavesEmptyBranch(Step(s, es[0]), es[1..]);
    }
  }

  /** The straight pass: area "3", branch "Main St", one source name "Well A",
      then Next through every step. */
  const MainStreetPass: seq<Event> := [
    AddBranchClicked, BranchInput(AreaIdInput, "3"), BranchInput(BranchNameInput, "Main St"),
    BranchNext, SourceNameTyped("Well A"), SourceNameAdded, SourceNext, DailyNext]

  /** The states the straight pass goes through, one per event. */
  function MainStreetStates(): seq<State> {
    var s1 := State(true, false, false, false, EmptyForm, [], "", "", [], []);
    var s4 := State(false, true, false, false, EmptyForm, [], "", "", [], []);
    var s6 := s4.(sourceNames := [Entry(1, "Well A")]);
    [s1, s1.(form := Form("3", "", [])), s1.(form := Form("3", "Main St", [])), s4,
     s4.(newSourceName := "Well A"), s6,
     s6.(showSourceModal := false, showDailyModal := true),
     s6.(showSourceModal := false, showMonthlyModal := true)]
  }

  lemma MainStreetBranchSteps(es: seq<Event>, ss: seq<State>)
    requires es == MainStreetPass && ss == MainStreetStates()
    ensures Step(Init, es[0]) == ss[0]
    ensures forall i :: 0 < i < 4 ==> Step(ss[i - 1], es[i]) == ss[i]
  {
    assert Step(Init, es[0]) == ss[0];
    assert Step(ss[0], es[1]) == ss[1];
    assert Step(ss[1], es[2]) == ss[2];
    assert Step(ss[2], es[3]) == ss[3];
  }

  lemma MainStreetLaterSteps(es: seq<Event>, ss: seq<State>)
    requires es == MainStreetPass && ss == MainStreetStates()
    ensures forall i :: 4 <= i < 8 ==> Step(ss[i - 1], es[i]) == ss[i]
  {
    MainStreetTyping(es, ss);
    MainStreetAdding(es, ss);
    MainStreetSourceNext(es, ss);
    MainStreetDailyNext(es, ss);
  }

  lemma MainStreetTyping(es: seq<Event>, ss: seq<State>)
    requires es == MainStreetPass && ss == MainStreetStates()
    ensures Step(ss[3], es[4]) == ss[4]
  {
  }

  lemma MainStreetAdding(es: seq<Event>, ss: seq<State>)
    requires es == MainStreetPass && ss == MainStreetStates()
    ensures Step(ss[4], es[5]) == ss[5]
  {
    AddingWellA(ss[4]);
  }

  lemma MainStreetSourceNext(es: seq<Event>, ss: seq<State>)
    requires es == MainStreetPass && ss == MainStreetStates()
    ensures Step(ss[5], es[6]) == ss[6]
  {
  }

  lemma MainStreetDailyNext(es: seq<Event>, ss: seq<State>)
    requires es == MainStreetPass && ss == MainStreetStates()
    ensures Step(ss[6], es[7]) == ss[7]
  {
  }

  lemma AddingWellA(s: State)
    requires s.showSourceModal && s.sourceNames == [] && s.newSourceName == "Well A"
    ensures Step(s, SourceNameAdded) == s.(sourceNames := [Entry(1, "Well A")], newSourceName := "")
  {
    assert !Text.IsJsWhitespace("Well A"[0]);
    var ed := HandleAdd(Editor([], "Well A"));
    assert ed.names == [Entry(1, "Well A")];
  }

  /** The straight pass reaches the save with the source name, but with an
      empty area id and branch name. */
  lemma MainStreetScenario(es: seq<Event>)
    requires es == MainStreetPass
    ensures Run(Init, es).showMonthlyModal
    ensures Payload(Run(Init, es)).branch == BranchPayload("", "", true)
    ensures Payload(Run(Init, es)).sourceNames == ["Well A"]
  {
    var ss := MainStreetStates();
    MainStreetBranchSteps(es, ss);
    MainStreetLaterSteps(es, ss);
    RunStepwise(Init, es, ss);
  }

  /** A run visits the states its steps produce, one by one. */
  lemma {:induction false} RunStepwise(s: State, es: seq<Event>, states: seq<State>)
    requires |states| == |es| > 0
    requires Step(s, es[0]) == states[0]
    requires forall i :: 0 < i < |es| ==> Step(states[i - 1], es[i]) == states[i]
    ensures Run(s, es) == states[|states| - 1]
    decreases |es|
  {
    if |es| > 1 {
      RunStepwise(states[0], es[1..], states[1..]);
    }
  }

  /** A successful save hides the monthly modal and resets the form, the
      source names and both field maps; the daily source type and the pending
      source-name text survive. */
  lemma SaveSucceeded(s: State)
    requires s.showMonthlyModal
    ensures var r := Step(s, MonthlySaved(true));
            && !r.showMonthlyModal
            && r.form == EmptyForm && r.sourceNames == []
            && r.dailyFields == [] && r.monthlyFields == []
            && r.selectedSourceType == s.selectedSourceType
            && r.newSourceName == s.newSourceName
  {
  }

  /** A failed save changes nothing and leaves the monthly modal open for a retry. */
  lemma SaveFailed(s: State)
    ensures Step(s, MonthlySaved(false)) == s
  {
  }

  /** The payload does not depend on the selected source types. */
  lemma PayloadIgnoresSourceTypes(s: State, types: seq<string>)
    ensures Payload(s.(form := s.form.(sourceTypes := types))) == Payload(s)
  {
  }

  /** An area as listed by the areas endpoint. */
  datatype Area = Area(id: int, areaName: string)

  /** `getAreaName`: the name of the first area with the id, or "" when none has it. */
  function GetAreaName(areas: seq<Area>, areaId: int): (r: string)
    ensures (forall i :: 0 <= i < |areas| ==> areas[i].id != areaId) ==> r == ""
    ensures forall i :: 0 <= i < |areas| && areas[i].id == areaId
                        && (forall j :: 0 <= j < i ==> areas[j].id != areaId)
                        ==> r == areas[i].areaName
  {
    if |areas| == 0 then ""
    else if areas[0].id == areaId then areas[0].areaName
    else
      var r := GetAreaName(areas[1..], areaId);
      forall i | 0 <= i < |areas| && areas[i].id == areaId && (forall j :: 0 <= j < i ==> areas[j].id != areaId)
        ensures r == areas[i].areaName
      {
        assert areas[i] == areas[1..][i - 1];
      }
      r
  }
}
