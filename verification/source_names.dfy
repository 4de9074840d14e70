/** Step two of the branch wizard (mis-react-web/src/components/AddSourceNameModal.tsx):
    a list editor for source names with add, delete and rename. */
module SourceNameList {
  import opened Wrappers
  import opened Seqs
  import opened Text

  /** A row of the list. The id is session-local and only meant for display and lookup. */
  datatype Entry = Entry(id: int, sourceName: string)

  /** The list together with the text in the "Source Name" input. */
  datatype Editor = Editor(names: seq<Entry>, input: string)

  /** `handleAdd`: a blank input is ignored; otherwise the untrimmed input is
      appended under id `length + 1` and the input is cleared. */
  function HandleAdd(ed: Editor): (r: Editor)
    ensures IsBlank(ed.input) ==> r == ed
    ensures !IsBlank(ed.input) ==> r.input == ""
    ensures !IsBlank(ed.input) ==> |r.names| == |ed.names| + 1 && r.names[..|ed.names|] == ed.names
    ensures !IsBlank(ed.input) ==> r.names[|ed.names|] == Entry(|ed.names| + 1, ed.input)
  {
    TrimEmptyIffBlank(ed.input);
    if Trim(ed.input) == "" then ed
    else Editor(ed.names + [Entry(|ed.names| + 1, ed.input)], "")
  }

  /** The test `sn => sn.id !== id` of `handleDelete`. */
  function OtherId(id: int): Entry -> bool {
    (e: Entry) => e.id != id
  }

  /** `handleDelete`: every entry carrying the id goes, the others stay in order. */
  function HandleDelete(names: seq<Entry>, id: int): (r: seq<Entry>)
    ensures forall e: Entry :: e in r ==> e.id != id
    ensures IsSubsequence(r, names)
    ensures forall e: Entry :: e.id != id ==> multiset(r)[e] == multiset(names)[e]
  {
    FilterMembers(names, OtherId(id));
    FilterIsSubsequence(names, OtherId(id));
    FilterMultiset(names, OtherId(id));
    Filter(names, OtherId(id))
  }

  /** `handleRename` with the answer `prompt` returned (`None` when cancelled):
      a missing or blank answer changes nothing, otherwise every entry carrying
      the id takes the answer, untrimmed, as its name. */
  function HandleRename(names: seq<Entry>, id: int, answer: Option<string>): (r: seq<Entry>)
    ensures |r| == |names|
    ensures forall i :: 0 <= i < |r| ==> r[i].id == names[i].id
    ensures answer.None? || IsBlank(answer.value) ==> r == names
    ensures answer.Some? && !IsBlank(answer.value) ==>
              forall i :: 0 <= i < |r| ==>
                r[i].sourceName == if names[i].id == id then answer.value else names[i].sourceName
  {
    if answer.None? || Trim(answer.value) == "" then
      TrimEmptyIffBlank(if answer.Some? then answer.value else "");
      names
    else
      TrimEmptyIffBlank(answer.value);
      seq(|names|, i requires 0 <= i < |names| =>
        if names[i].id == id then names[i].(sourceName := answer.value) else names[i])
  }

  /** Deleting an id no entry carries changes nothing. */
  lemma DeleteAbsentId(names: seq<Entry>, id: int)
    requires forall i :: 0 <= i < |names| ==> names[i].id != id
    ensures HandleDelete(names, id) == names
  {
    FilterKeepsAll(names, OtherId(id));
  }

  /** Deleting the same id twice is deleting it once. */
  lemma DeleteIdempotent(names: seq<Entry>, id: int)
    ensures HandleDelete(HandleDelete(names, id), id) == HandleDelete(names, id)
  {
    FilterIdempotent(names, OtherId(id));
  }

  /** Ids are not kept unique. With the ids numbered 1..n as a run of adds
      leaves them, deleting any id below n and adding again issues id n a
      second time. */
  lemma {:induction false} AddAfterDeleteRepeatsId(names: seq<Entry>, k: int, name: string)
    requires |names| >= 2
    requires forall i :: 0 <= i < |names| ==> names[i].id == i + 1
    requires 1 <= k < |names|
    requires !IsBlank(name)
    ensures var after := HandleAdd(Editor(HandleDelete(names, k), name)).names;
            var n := |names|;
            exists i, j :: 0 <= i < j < |after| && after[i].id == n && after[j].id == n
  {
    var kept := HandleDelete(names, k);
    var n := |names|;
    DeleteDropsExactlyOne(names, k);
    assert names[n - 1] in kept by {
      assert names[n - 1] in names;
    }
    var i :| 0 <= i < |kept| && kept[i] == names[n - 1];
    var after := HandleAdd(Editor(kept, name)).names;
    assert after[i] == names[n - 1];
    assert after[|kept|].id == n;
  }

  /** With ids 1..n, deleting one of them removes exactly one entry. */
  lemma {:induction false} DeleteDropsExactlyOne(names: seq<Entry>, k: int)
    requires forall i :: 0 <= i < |names| ==> names[i].id == i + 1
    requires 1 <= k <= |names|
    ensures |HandleDelete(names, k)| == |names| - 1
  {
    var keep := OtherId(k);
    var front := names[..k - 1];
    var hit := [names[k - 1]];
    var back := names[k..];
    assert names == front + hit + back;
    assert forall j :: 0 <= j < |front| ==> keep(front[j]) by {
      forall j | 0 <= j < |front| ensures keep(front[j]) {
        assert front[j] == names[j];
      }
    }
    assert forall j :: 0 <= j < |back| ==> keep(back[j]) by {
      forall j | 0 <= j < |back| ensures keep(back[j]) {
        assert back[j] == names[k + j];
      }
    }
    FilterKeepsAll(front, keep);
    FilterKeepsAll(back, keep);
    assert Filter(hit, keep) == [] by {
      assert !keep(hit[0]);
      assert hit[1..] == [];
    }
    FilterAppend(front + hit, back, keep);
    FilterAppend(front, hit, keep);
  }

  /** The concrete run: ids [1, 2], delete 1, add "C" gives two entries with id 2,
      and a later delete or rename of id 2 hits both. */
  lemma DuplicateIdExample()
    ensures var after := HandleAdd(Editor(HandleDelete([Entry(1, "A"), Entry(2, "B")], 1), "C")).names;
            && after == [Entry(2, "B"), Entry(2, "C")]
            && HandleDelete(after, 2) == []
            && HandleRename(after, 2, Some("D")) == [Entry(2, "D"), Entry(2, "D")]
  {
    var names := [Entry(1, "A"), Entry(2, "B")];
    assert names[1..] == [Entry(2, "B")];
    assert HandleDelete(names, 1) == [Entry(2, "B")];
    assert !IsJsWhitespace('C') && !IsJsWhitespace('D');
    var after := [Entry(2, "B"), Entry(2, "C")];
    assert after[1..] == [Entry(2, "C")];
  }
}
