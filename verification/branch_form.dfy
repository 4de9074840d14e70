/** Step one of the branch wizard (mis-react-web/src/components/AddBranchModal.tsx):
    the area select, the branch-name input and the source-type checkboxes. */
module BranchForm {
  import opened Seqs

  /** The form the wizard shares with this step. The select and the input hold text. */
  datatype Form = Form(areaId: string, branchName: string, sourceTypes: seq<string>)

  /** The value `handleClear` and the save reset write back. */
  const EmptyForm: Form := Form("", "", [])

  /** The checkboxes this step offers. */
  const SourceTypeOptions: seq<string> := [
    "Deep Well - Electric", "Deep Well - Genset Operated", "Shallow Well", "Spring - Gravity",
    "Spring - Power-driven", "Bulk", "WTP", "Booster"
  ]

  /** The `name` attributes of the two text controls that call `handleInput`. */
  datatype InputName = AreaIdInput | BranchNameInput

  /** `handleInput`: the control's named field takes the typed value. */
  function HandleInput(form: Form, name: InputName, value: string): (r: Form)
    ensures name == AreaIdInput ==> r.areaId == value && r.branchName == form.branchName
    ensures name == BranchNameInput ==> r.branchName == value && r.areaId == form.areaId
    ensures r.sourceTypes == form.sourceTypes
  {
    match name
    case AreaIdInput => form.(areaId := value)
    case BranchNameInput => form.(branchName := value)
  }

  /** The test `t => t !== type` of the uncheck branch. */
  function OtherType(t: string): string -> bool {
    (u: string) => u != t
  }

  /** `sourceTypes.filter(t => t !== type)`. */
  function RemoveType(types: seq<string>, t: string): (r: seq<string>)
    ensures t !in r
    ensures forall u :: u != t ==> (u in r <==> u in types)
    ensures IsSubsequence(r, types)
    ensures forall u :: u != t ==> multiset(r)[u] == multiset(types)[u]
  {
    FilterMembers(types, OtherType(t));
    FilterIsSubsequence(types, OtherType(t));
    FilterMultiset(types, OtherType(t));
    Filter(types, OtherType(t))
  }

  /** The checkbox toggle: a checked type is removed (every copy of it), an
      unchecked one is appended at the end. */
  function ToggleType(types: seq<string>, t: string): (r: seq<string>)
    ensures t in r <==> t !in types
    ensures forall u :: u != t ==> (u in r <==> u in types)
    ensures t !in types ==> r == types + [t]
    ensures t in types ==> IsSubsequence(r, types)
    ensures t in types ==> forall u :: u != t ==> multiset(r)[u] == multiset(types)[u]
  {
    if t in types then RemoveType(types, t) else
      types + [t]
  }

  /** `handleSourceTypeChange`: only the source-type list changes. */
  function HandleSourceTypeChange(form: Form, t: string): (r: Form)
    ensures r.areaId == form.areaId && r.branchName == form.branchName
    ensures t in r.sourceTypes <==> t !in form.sourceTypes
    ensures forall u :: u != t ==> (u in r.sourceTypes <==> u in form.sourceTypes)
  {
    form.(sourceTypes := ToggleType(form.sourceTypes, t))
  }

  /** Checking and then unchecking a type that was not selected restores the list. */
  lemma ToggleTwiceAbsent(types: seq<string>, t: string)
    requires t !in types
    ensures ToggleType(ToggleType(types, t), t) == types
  {
    FilterAppend(types, [t], OtherType(t));
    FilterKeepsAll(types, OtherType(t));
    assert Filter([t], OtherType(t)) == [];
  }

  /** The converse fails: unchecking and re-checking a selected type moves it to the end. */
  lemma ToggleTwicePresentReorders()
    ensures ToggleType(ToggleType(["Bulk", "WTP"], "Bulk"), "Bulk") == ["WTP", "Bulk"]
  {
    assert "Bulk" != "WTP";
    assert Filter(["WTP"], OtherType("Bulk")) == ["WTP"];
    assert ["Bulk", "WTP"][1..] == ["WTP"];
  }

  /** A list without repeats keeps none under the toggle. */
  lemma ToggleKeepsDistinct(types: seq<string>, t: string)
    requires Distinct(types)
    ensures Distinct(ToggleType(types, t))
  {
    var r := ToggleType(types, t);
    if t in types {
      assert forall u :: multiset(r)[u] <= multiset(types)[u];
    } else {
      assert multiset(r) == multiset(types) + multiset{t};
    }
  }
}
