/** Steps three and four of the branch wizard
    (mis-react-web/src/components/DailyDataSheetModal.tsx): a checklist of form
    fields kept as a JavaScript object from field name to boolean, shown in two
    columns. */
module FieldChecklist {
  import opened Wrappers

  /** One own property of the object. */
  datatype Flag = Flag(field: string, checked: bool)

  /** The object's properties in insertion order. */
  type FieldMap = seq<Flag>

  /** `fields[f]`; `None` is `undefined`. */
  function Lookup(m: FieldMap, f: string): Option<bool> {
    if |m| == 0 then None
    else if m[0].field == f then Some(m[0].checked)
    else Lookup(m[1..], f)
  }

  /** No property name occurs twice, as in every JavaScript object. */
  ghost predicate DistinctFields(m: FieldMap) {
    forall i, j :: 0 <= i < j < |m| ==> m[i].field != m[j].field
  }

  /** `{ ...m, [f]: v }`: an existing property keeps its place and takes the
      value, a new one is added at the end. */
  function Assign(m: FieldMap, f: string, v: bool): (r: FieldMap)
    ensures Lookup(r, f) == Some(v)
    ensures forall g :: g != f ==> Lookup(r, g) == Lookup(m, g)
    ensures Lookup(m, f).Some? ==> |r| == |m|
    ensures Lookup(m, f).None? ==> r == m + [Flag(f, v)]
  {
    if |m| == 0 then [Flag(f, v)]
    else if m[0].field == f then [Flag(f, v)] + m[1..]
    else
      assert ([m[0]] + Assign(m[1..], f, v))[1..] == Assign(m[1..], f, v);
      assert m == [m[0]] + m[1..];
      [m[0]] + Assign(m[1..], f, v)
  }

  /** The checkbox state `fields[f] || false`. */
  predicate Shown(m: FieldMap, f: string) {
    Lookup(m, f) == Some(true)
  }

  /** `handleCheckbox`: writes `!fields[f]`, so the shown state of `f` flips and
      nothing else is touched. */
  function HandleCheckbox(m: FieldMap, f: string): (r: FieldMap)
    ensures Shown(r, f) == !Shown(m, f)
    ensures Lookup(r, f).Some?
    ensures forall g :: g != f ==> Lookup(r, g) == Lookup(m, g)
  {
    Assign(m, f, !Shown(m, f))
  }

  /** Clicking a box twice restores what every box shows. */
  lemma ToggleTwiceRestoresShown(m: FieldMap, f: string, g: string)
    ensures Shown(HandleCheckbox(HandleCheckbox(m, f), f), g) == Shown(m, g)
  {
  }

  /** ... but not the object: a field that was absent is left behind as `false`. */
  lemma ToggleTwiceLeavesFalse(m: FieldMap, f: string)
    requires Lookup(m, f).None?
    ensures HandleCheckbox(HandleCheckbox(m, f), f) == m + [Flag(f, false)]
    ensures HandleCheckbox(HandleCheckbox(m, f), f) != m
  {
    var once := HandleCheckbox(m, f);
    assert once == m + [Flag(f, true)];
    assert Lookup(once, f) == Some(true);
    assert |HandleCheckbox(once, f)| == |m| + 1;
  }

  /** A field that was present comes back exactly. */
  lemma {:induction false} ToggleTwicePresent(m: FieldMap, f: string)
    requires Lookup(m, f).Some?
    ensures HandleCheckbox(HandleCheckbox(m, f), f) == m
  {
    AssignTwice(m, f, !Shown(m, f), Lookup(m, f).value);
  }

  lemma {:induction false} AssignTwice(m: FieldMap, f: string, v: bool, w: bool)
    requires Lookup(m, f) == Some(w)
    ensures Assign(Assign(m, f, v), f, w) == m
  {
    if m[0].field != f {
      AssignTwice(m[1..], f, v, w);
      assert m == [m[0]] + m[1..];
    }
  }

  /** Assigning keeps property names distinct. */
  lemma {:induction false} AssignKeepsDistinct(m: FieldMap, f: string, v: bool)
    requires DistinctFields(m)
    ensures DistinctFields(Assign(m, f, v))
  {
    if |m| > 0 && m[0].field != f {
      AssignKeepsDistinct(m[1..], f, v);
      var r := Assign(m, f, v);
      forall j | 0 < j < |r|
        ensures r[j].field != m[0].field
      {
        var rest := Assign(m[1..], f, v);
        assert r[j] == rest[j - 1];
        if rest[j - 1].field != f {
          LookupFindsMember(rest, j - 1);
          assert Lookup(m[1..], rest[j - 1].field).Some?;
          LookupSomeIsMember(m[1..], rest[j - 1].field);
        }
      }
    } else if |m| > 0 {
      assert forall j :: 0 < j < |m| ==> Assign(m, f, v)[j] == m[j];
    }
  }

  lemma {:induction false} LookupFindsMember(m: FieldMap, j: int)
    requires 0 <= j < |m|
    ensures Lookup(m, m[j].field).Some?
  {
    if j > 0 && m[0].field != m[j].field {
      LookupFindsMember(m[1..], j - 1);
    }
  }

  lemma {:induction false} LookupSomeIsMember(m: FieldMap, f: string)
    requires Lookup(m, f).Some?
    ensures exists i :: 0 <= i < |m| && m[i].field == f
  {
    if m[0].field != f {
      LookupSomeIsMember(m[1..], f);
      var i :| 0 <= i < |m[1..]| && m[1..][i].field == f;
      assert m[i + 1].field == f;
    }
  }

  /** `Math.ceil(fieldsList.length / 2)`. */
  function Mid(n: nat): (r: nat)
    ensures r + r == n || r + r == n + 1
  {
    (n + 1) / 2
  }

  /** The two columns: `fieldsList.slice(0, mid)` and `fieldsList.slice(mid)`.
      Together they show every field once, in order; the left one is the longer
      by at most one. */
  function Columns(fieldsList: seq<string>): (r: (seq<string>, seq<string>))
    ensures r.0 + r.1 == fieldsList
    ensures |r.0| == |r.1| || |r.0| == |r.1| + 1
  {
    var mid := Mid(|fieldsList|);
    (fieldsList[..mid], fieldsList[mid..])
  }
}
