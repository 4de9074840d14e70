/** The branch routes of mis-react-web/routes/branch_routes.py over the
    in-memory store: `create_branch`, `add_branch`, `full_create_branch` and
    `get_branch_details`. Every `db.session.commit()` in the source makes the
    rows added so far permanent, so a route that raises part-way leaves those
    rows behind; rows added but not yet committed are dropped. */
module BranchRoutes {
  import opened Wrappers
  import opened Json
  import opened Seqs
  import opened Store
  import Wizard

  /** The JSON a route answers for a branch row. */
  function BranchJson(b: BranchRow): (r: Json)
    ensures r.Obj? && Keys(r.members) == ["id", "areaId", "branchCode", "branchName", "isActive"]
    ensures Lookup(r.members, "id") == Some(Num(b.id))
  {
    Obj([
      Member("id", Num(b.id)),
      Member("areaId", b.areaId),
      Member("branchCode", b.branchCode),
      Member("branchName", b.branchName),
      Member("isActive", b.isActive)])
  }

  /** `create_branch`: `areaId` and `branchName` are required, `branchCode`
      defaults to 0 and `isActive` to true; the reply echoes the new row. */
  function CreateBranch(data: Json, s: Store): (o: Outcome)
    ensures o.response.Raised? <==> !(data.Obj? && "areaId" in Keys(data.members) && "branchName" in Keys(data.members))
    ensures o.response.Raised? ==> o.store == s
    ensures o.response.Replied? ==>
              && o.response.status == 201
              && o.store == s.(branches := o.store.branches)
              && |o.store.branches| == |s.branches| + 1
              && o.store.branches[..|s.branches|] == s.branches
              && var row := o.store.branches[|s.branches|];
              && (forall i :: 0 <= i < |s.branches| ==> s.branches[i].id < row.id)
              && Some(row.areaId) == Lookup(data.members, "areaId")
              && Some(row.branchName) == Lookup(data.members, "branchName")
              && ("branchCode" !in Keys(data.members) ==> row.branchCode == Num(0))
              && ("branchCode" in Keys(data.members) ==> Some(row.branchCode) == Lookup(data.members, "branchCode"))
              && ("isActive" !in Keys(data.members) ==> row.isActive == Bool(true))
              && ("isActive" in Keys(data.members) ==> Some(row.isActive) == Lookup(data.members, "isActive"))
              && o.response.body == BranchJson(row)
  {
    var areaId := Subscript(data, "areaId");
    if areaId.None? then Outcome(Raised, s)
    else
      var code := GetDefault(data.members, "branchCode", Num(0));
      var name := Subscript(data, "branchName");
      if name.None? then Outcome(Raised, s)
      else
        var row := BranchRow(Fresh(s.branches, BranchKey), areaId.value, code, name.value,
                             GetDefault(data.members, "isActive", Bool(true)));
        assert (s.branches + [row])[..|s.branches|] == s.branches;
        Outcome(Replied(201, BranchJson(row)), s.(branches := s.branches + [row]))
  }

  /** The rows one route call adds to the three link tables, in insertion
      order. */
  datatype Rows = Rows(sources: seq<BranchSourceRow>, names: seq<SourceNameRow>, links: seq<BranchSourceNameRow>)

  /** Appends the rows of one call; the tables' earlier rows stay as they are. */
  function Commit(s: Store, rows: Rows): (r: Store)
    ensures r.areas == s.areas && r.branches == s.branches && r.sourceTypes == s.sourceTypes
    ensures |r.branchSources| == |s.branchSources| + |rows.sources|
    ensures |r.sourceNames| == |s.sourceNames| + |rows.names|
    ensures |r.branchSourceNames| == |s.branchSourceNames| + |rows.links|
    ensures r.branchSources[..|s.branchSources|] == s.branchSources && r.branchSources[|s.branchSources|..] == rows.sources
    ensures r.sourceNames[..|s.sourceNames|] == s.sourceNames && r.sourceNames[|s.sourceNames|..] == rows.names
    ensures r.branchSourceNames[..|s.branchSourceNames|] == s.branchSourceNames
    ensures r.branchSourceNames[|s.branchSourceNames|..] == rows.links
  {
    s.(branchSources := s.branchSources + rows.sources,
       sourceNames := s.sourceNames + rows.names,
       branchSourceNames := s.branchSourceNames + rows.links)
  }

  /** The `BranchSource` rows of the `add_branch` loop: one per listed id, in
      order, keys counting up from `start`; `isActive` takes its column
      default and the area is left unset. */
  function SourceRows(branchId: nat, typeIds: seq<Json>, start: nat): (r: seq<BranchSourceRow>)
    ensures |r| == |typeIds|
    ensures forall k :: 0 <= k < |typeIds| ==>
              r[k] == BranchSourceRow(start + k, branchId, typeIds[k], Bool(true), Null)
  {
    if |typeIds| == 0 then []
    else [BranchSourceRow(start, branchId, typeIds[0], Bool(true), Null)] + SourceRows(branchId, typeIds[1..], start + 1)
  }

  /** `add_branch`: the branch is committed on its own, then one
      `BranchSource` per entry of `sourceTypeIds` in a second commit; a value
      that cannot be iterated raises between the two. */
  function AddBranch(data: Json, s: Store): (o: Outcome)
    ensures (!(data.Obj? && "areaId" in Keys(data.members) && "branchName" in Keys(data.members)
               && "sourceTypeIds" in Keys(data.members))) ==> o == Outcome(Raised, s)
    ensures o.store.areas == s.areas && o.store.sourceTypes == s.sourceTypes
    ensures o.store.sourceNames == s.sourceNames && o.store.branchSourceNames == s.branchSourceNames
    ensures o.store.branches == s.branches || |o.store.branches| == |s.branches| + 1
    ensures o.store.branches[..|s.branches|] == s.branches
    ensures |o.store.branchSources| >= |s.branchSources| && o.store.branchSources[..|s.branchSources|] == s.branchSources
    ensures o.store.branchSources != s.branchSources ==> o.response.Replied?
    ensures (data.Obj? && "areaId" in Keys(data.members) && "branchName" in Keys(data.members)
             && "sourceTypeIds" in Keys(data.members)) ==>
              && |o.store.branches| == |s.branches| + 1
              && var row := o.store.branches[|s.branches|];
              && Some(row.areaId) == Lookup(data.members, "areaId")
              && Some(row.branchName) == Lookup(data.members, "branchName")
              && row.branchCode == Null && row.isActive == Bool(true)
    ensures o.response.Replied? <==>
              && data.Obj? && "areaId" in Keys(data.members) && "branchName" in Keys(data.members)
              && "sourceTypeIds" in Keys(data.members)
              && Iterate(Lookup(data.members, "sourceTypeIds").value).Some?
    ensures o.response.Replied? ==>
              && data.Obj? && "sourceTypeIds" in Keys(data.members)
              && Iterate(Lookup(data.members, "sourceTypeIds").value).Some?
              && |o.store.branches| == |s.branches| + 1
              && var ids := Iterate(Lookup(data.members, "sourceTypeIds").value).value;
              && var bid := o.store.branches[|s.branches|].id;
              && (forall i :: 0 <= i < |s.branches| ==> s.branches[i].id < bid)
              && o.response == Replied(201, Obj([Member("branchId", Num(bid))]))
              && |o.store.branchSources| == |s.branchSources| + |ids|
              && (forall k :: 0 <= k < |ids| ==>
                    o.store.branchSources[|s.branchSources| + k].branchId == bid
                    && o.store.branchSources[|s.branchSources| + k].sourceTypeId == ids[k])
  {
    var areaId := Subscript(data, "areaId");
    var name := Subscript(data, "branchName");
    var types := Subscript(data, "sourceTypeIds");
    if areaId.None? || name.None? || types.None? then Outcome(Raised, s)
    else
      var bid := Fresh(s.branches, BranchKey);
      var s1 := s.(branches := s.branches + [BranchRow(bid, areaId.value, Null, name.value, Bool(true))]);
      assert s1.branches[..|s.branches|] == s.branches;
      var ids := Iterate(types.value);
      if ids.None? then Outcome(Raised, s1)
      else Outcome(Replied(201, Obj([Member("branchId", Num(bid))])), LinkSourceTypes(s1, bid, ids.value))
  }

  /** The second commit of `add_branch`: one `BranchSource` per listed id. */
  function LinkSourceTypes(s: Store, bid: nat, ids: seq<Json>): (r: Store)
    ensures r == s.(branchSources := r.branchSources)
    ensures |r.branchSources| == |s.branchSources| + |ids| && r.branchSources[..|s.branchSources|] == s.branchSources
    ensures forall k :: 0 <= k < |ids| ==>
              r.branchSources[|s.branchSources| + k].branchId == bid
              && r.branchSources[|s.branchSources| + k].sourceTypeId == ids[k]
  {
    var rows := SourceRows(bid, ids, Fresh(s.branchSources, BranchSourceKey));
    var r := s.(branchSources := s.branchSources + rows);
    assert forall k :: 0 <= k < |ids| ==> r.branchSources[|s.branchSources| + k] == rows[k];
    r
  }

  /** `st.get('sourceNames', [])` iterated, for a dict entry. */
  function EntryNames(st: Json): Option<seq<Json>>
    requires st.Obj?
  {
    Iterate(GetDefault(st.members, "sourceNames", Arr([])))
  }

  /** An entry of `sourceTypes` that the loop gets through: a dict with an
      `id`, whose `sourceNames` (if present) can be iterated. */
  predicate EntryOk(st: Json) {
    st.Obj? && Lookup(st.members, "id").Some? && EntryNames(st).Some?
  }

  /** A `sourceTypes` entry as the loop reads it: `st['id']` and the names
      it iterates over. */
  datatype Entry = Entry(id: Json, names: seq<Json>)

  /** Where the loop stops: after the last entry; at an entry without an
      `id`, raising before its `BranchSource`; or at an entry whose names
      cannot be iterated, raising after its `BranchSource` is committed. */
  datatype Stop = Finished | MissingId | BadNames(id: Json)

  /** The entries read before the loop stops, and where it stops. */
  datatype Parsed = Parsed(entries: seq<Entry>, stop: Stop)

  /** `x` is what the loop reads from the entry `st`. */
  predicate ReadAs(st: Json, x: Entry) {
    EntryOk(st) && x == Entry(Lookup(st.members, "id").value, EntryNames(st).value)
  }

  function ReadEntries(entries: seq<Json>): (r: Parsed)
    ensures |r.entries| <= |entries|
    ensures r.stop.Finished? <==> |r.entries| == |entries|
    ensures forall k :: 0 <= k < |r.entries| ==> ReadAs(entries[k], r.entries[k])
    ensures !r.stop.Finished? ==> !EntryOk(entries[|r.entries|])
    ensures r.stop.BadNames? ==> Subscript(entries[|r.entries|], "id") == Some(r.stop.id)
  {
    if |entries| == 0 then Parsed([], Finished)
    else
      var id := Subscript(entries[0], "id");
      if id.None? then
        assert !EntryOk(entries[0]);
        Parsed([], MissingId)
      else
        var names := EntryNames(entries[0]);
        if names.None? then
          assert !EntryOk(entries[0]);
          Parsed([], BadNames(id.value))
        else
          var rest := ReadEntries(entries[1..]);
          var e := Entry(id.value, names.value);
          PointwiseCons(entries, e, rest.entries, ReadAs);
          assert !rest.stop.Finished? ==> entries[|rest.entries| + 1] == entries[1..][|rest.entries|]
                                          && !EntryOk(entries[|rest.entries| + 1]);
          Parsed([e] + rest.entries, rest.stop)
  }

  /** The loop gets to the end exactly when every entry is a dict with an
      `id` and iterable names. */
  lemma ReadAllEntries(entries: seq<Json>)
    ensures ReadEntries(entries).stop.Finished? <==> forall i :: 0 <= i < |entries| ==> EntryOk(entries[i])
  {
    var r := ReadEntries(entries);
    if !r.stop.Finished? {
      assert !EntryOk(entries[|r.entries|]);
    }
  }

  /** The number of names in the entries read. */
  function NameTotal(es: seq<Entry>): nat {
    if |es| == 0 then 0 else |es[0].names| + NameTotal(es[1..])
  }

  /** The names the loop visits before it stops. */
  function TotalNames(entries: seq<Json>): nat {
    NameTotal(ReadEntries(entries).entries)
  }

  /** The rows of the inner loop of `full_create_branch`: per name, a
      `SourceName` of the branch and type, then a `BranchSourceName` linking
      it, whose `areaId` is never set. */
  function NameRows(branchId: nat, typeId: Json, names: seq<Json>, nameStart: nat, linkStart: nat): (r: Rows)
    ensures r.sources == [] && |r.names| == |names| && |r.links| == |names|
  {
    if |names| == 0 then Rows([], [], [])
    else
      var rest := NameRows(branchId, typeId, names[1..], nameStart + 1, linkStart + 1);
      Rows([], [SourceNameRow(nameStart, branchId, typeId, names[0], Bool(true))] + rest.names,
           [BranchSourceNameRow(linkStart, branchId, Num(nameStart), Bool(true), Null)] + rest.links)
  }

  /** The k-th name gives the k-th `SourceName`, active, of the branch and
      type, and the k-th link names it; keys count up from the two starts. */
  lemma {:induction false} NameRowsShape(branchId: nat, typeId: Json, names: seq<Json>, nameStart: nat, linkStart: nat)
    ensures var r := NameRows(branchId, typeId, names, nameStart, linkStart);
            forall k :: 0 <= k < |names| ==>
              && r.names[k] == SourceNameRow(nameStart + k, branchId, typeId, names[k], Bool(true))
              && r.links[k] == BranchSourceNameRow(linkStart + k, branchId, Num(nameStart + k), Bool(true), Null)
    decreases |names|
  {
    if |names| > 0 {
      var r := NameRows(branchId, typeId, names, nameStart, linkStart);
      var rest := NameRows(branchId, typeId, names[1..], nameStart + 1, linkStart + 1);
      NameRowsShape(branchId, typeId, names[1..], nameStart + 1, linkStart + 1);
      forall k | 1 <= k < |names|
        ensures r.names[k] == SourceNameRow(nameStart + k, branchId, typeId, names[k], Bool(true))
        ensures r.links[k] == BranchSourceNameRow(linkStart + k, branchId, Num(nameStart + k), Bool(true), Null)
      {
        assert r.names[k] == rest.names[k - 1] && r.links[k] == rest.links[k - 1];
        assert names[k] == names[1..][k - 1];
      }
    }
  }

  /** The rows of the outer loop over the entries read: per entry a
      `BranchSource` for its id, then its names. */
  function EntryRows(branchId: nat, es: seq<Entry>, sourceStart: nat, nameStart: nat, linkStart: nat): (r: Rows)
    ensures |r.sources| == |es|
    ensures |r.names| == NameTotal(es) && |r.links| == NameTotal(es)
  {
    if |es| == 0 then Rows([], [], [])
    else
      var n := |es[0].names|;
      var here := NameRows(branchId, es[0].id, es[0].names, nameStart, linkStart);
      var rest := EntryRows(branchId, es[1..], sourceStart + 1, nameStart + n, linkStart + n);
      Rows([BranchSourceRow(sourceStart, branchId, es[0].id, Bool(true), Null)] + rest.sources,
           here.names + rest.names, here.links + rest.links)
  }

  /** The k-th `BranchSource` belongs to the branch and carries the k-th
      entry's id; keys count up from `sourceStart`. */
  lemma {:induction false} EntryRowsSources(branchId: nat, es: seq<Entry>, sourceStart: nat, nameStart: nat, linkStart: nat)
    ensures var r := EntryRows(branchId, es, sourceStart, nameStart, linkStart);
            forall k :: 0 <= k < |es| ==>
              r.sources[k] == BranchSourceRow(sourceStart + k, branchId, es[k].id, Bool(true), Null)
    decreases |es|
  {
    if |es| > 0 {
      var n := |es[0].names|;
      var r := EntryRows(branchId, es, sourceStart, nameStart, linkStart);
      var rest := EntryRows(branchId, es[1..], sourceStart + 1, nameStart + n, linkStart + n);
      EntryRowsSources(branchId, es[1..], sourceStart + 1, nameStart + n, linkStart + n);
      assert forall k :: 1 <= k < |es| ==> r.sources[k] == rest.sources[k - 1] && es[k] == es[1..][k - 1];
    }
  }

  /** A `SourceName` row with its link: same branch, the link names the row,
      and the link's area is unset. */
  predicate LinkedPair(name: SourceNameRow, link: BranchSourceNameRow) {
    link.branchId == name.branchId && link.sourceNameId == Num(name.id) && link.areaId == Null
  }

  /** The k-th `BranchSourceName` links the k-th `SourceName`, both of the
      branch; keys count up from the two starts. */
  predicate LinksFrom(r: Rows, branchId: nat, nameStart: nat, linkStart: nat) {
    |r.names| == |r.links|
    && forall k :: 0 <= k < |r.names| ==>
         && LinkedPair(r.names[k], r.links[k]) && r.names[k].branchId == branchId
         && r.names[k].id == nameStart + k && r.links[k].id == linkStart + k
  }

  lemma {:induction false} EntryRowsLinks(branchId: nat, es: seq<Entry>, sourceStart: nat, nameStart: nat, linkStart: nat)
    ensures LinksFrom(EntryRows(branchId, es, sourceStart, nameStart, linkStart), branchId, nameStart, linkStart)
    decreases |es|
  {
    if |es| > 0 {
      var n := |es[0].names|;
      var r := EntryRows(branchId, es, sourceStart, nameStart, linkStart);
      var here := NameRows(branchId, es[0].id, es[0].names, nameStart, linkStart);
      var rest := EntryRows(branchId, es[1..], sourceStart + 1, nameStart + n, linkStart + n);
      NameRowsShape(branchId, es[0].id, es[0].names, nameStart, linkStart);
      EntryRowsLinks(branchId, es[1..], sourceStart + 1, nameStart + n, linkStart + n);
      assert r.names == here.names + rest.names && r.links == here.links + rest.links;
      forall k | 0 <= k < |r.names|
        ensures LinkedPair(r.names[k], r.links[k]) && r.names[k].branchId == branchId
                && r.names[k].id == nameStart + k && r.links[k].id == linkStart + k
      {
        if k < n {
          assert r.names[k] == here.names[k] && r.links[k] == here.links[k];
        } else {
          assert r.names[k] == rest.names[k - n] && r.links[k] == rest.links[k - n];
        }
      }
    }
  }
  /** The (type id, name) pairs of the entries, in the order the two loops
      visit them: all names of the first entry, then the next entry's. */
  function NamePairs(es: seq<Entry>): (r: seq<(Json, Json)>)
    ensures |r| == NameTotal(es)
  {
    if |es| == 0 then []
    else seq(|es[0].names|, i requires 0 <= i < |es[0].names| => (es[0].id, es[0].names[i])) + NamePairs(es[1..])
  }

  /** Where the k-th pair comes from: the first entry, or the later ones. */
  lemma NamePairsAt(es: seq<Entry>, k: nat)
    requires 0 < |es| && k < NameTotal(es)
    ensures var n := |es[0].names|;
            NamePairs(es)[k] == if k < n then (es[0].id, es[0].names[k]) else NamePairs(es[1..])[k - n]
  {
  }

  /** The k-th `SourceName` row the entries give is the k-th (type id, name)
      pair, of the branch and active, with keys counting up from the start. */
  lemma {:induction false} EntryRowsNames(branchId: nat, es: seq<Entry>, sourceStart: nat, nameStart: nat, linkStart: nat)
    ensures var r := EntryRows(branchId, es, sourceStart, nameStart, linkStart);
            var ps := NamePairs(es);
            forall k :: 0 <= k < |ps| ==>
              r.names[k] == SourceNameRow(nameStart + k, branchId, ps[k].0, ps[k].1, Bool(true))
    decreases |es|
  {
    if |es| > 0 {
      var n := |es[0].names|;
      EntryRowsNames(branchId, es[1..], sourceStart + 1, nameStart + n, linkStart + n);
      assert forall k :: 0 <= k < |NamePairs(es[1..])| ==>
               EntryRows(branchId, es[1..], sourceStart + 1, nameStart + n, linkStart + n).names[k]
               == SourceNameRow(nameStart + n + k, branchId, NamePairs(es[1..])[k].0, NamePairs(es[1..])[k].1, Bool(true));
      NameRowsShape(branchId, es[0].id, es[0].names, nameStart, linkStart);
      var r := EntryRows(branchId, es, sourceStart, nameStart, linkStart);
      var here := NameRows(branchId, es[0].id, es[0].names, nameStart, linkStart);
      var rest := EntryRows(branchId, es[1..], sourceStart + 1, nameStart + n, linkStart + n);
      assert r.names == here.names + rest.names;
      forall k | 0 <= k < NameTotal(es)
        ensures r.names[k] == SourceNameRow(nameStart + k, branchId, NamePairs(es)[k].0, NamePairs(es)[k].1, Bool(true))
      {
        NamePairsAt(es, k);
        if k < n {
          assert r.names[k] == here.names[k];
        } else {
          assert r.names[k] == rest.names[k - n];
        }
      }
    }
  }




  /** Everything the loop commits: the rows of the entries read and, when an
      entry's names cannot be iterated, that entry's `BranchSource`. */
  function LoopRows(branchId: nat, p: Parsed, sourceStart: nat, nameStart: nat, linkStart: nat): (r: Rows)
    ensures |r.sources| == |p.entries| + (if p.stop.BadNames? then 1 else 0)
    ensures |r.names| == NameTotal(p.entries) && |r.links| == NameTotal(p.entries)
    ensures forall k :: 0 <= k < |p.entries| ==>
              r.sources[k] == BranchSourceRow(sourceStart + k, branchId, p.entries[k].id, Bool(true), Null)
    ensures p.stop.BadNames? ==>
              r.sources[|p.entries|] == BranchSourceRow(sourceStart + |p.entries|, branchId, p.stop.id, Bool(true), Null)
  {
    var rows := EntryRows(branchId, p.entries, sourceStart, nameStart, linkStart);
    EntryRowsSources(branchId, p.entries, sourceStart, nameStart, linkStart);
    if p.stop.BadNames? then
      rows.(sources := rows.sources + [BranchSourceRow(sourceStart + |p.entries|, branchId, p.stop.id, Bool(true), Null)])
    else rows
  }

  /** `full_create_branch`: the three top-level keys are read before anything
      is written; then the branch is committed, then each `sourceTypes` entry
      with its names. An entry that raises leaves the rows of the earlier
      entries committed. */
  function FullCreate(data: Json, s: Store): (o: Outcome)
    ensures (!(data.Obj? && "areaId" in Keys(data.members) && "branchName" in Keys(data.members)
               && "sourceTypes" in Keys(data.members))) ==> o == Outcome(Raised, s)
    ensures o.store.areas == s.areas && o.store.sourceTypes == s.sourceTypes
    ensures o.store.branches == s.branches || |o.store.branches| == |s.branches| + 1
    ensures o.store.branches[..|s.branches|] == s.branches
    ensures |o.store.branchSources| >= |s.branchSources| && o.store.branchSources[..|s.branchSources|] == s.branchSources
    ensures |o.store.sourceNames| >= |s.sourceNames| && o.store.sourceNames[..|s.sourceNames|] == s.sourceNames
    ensures |o.store.branchSourceNames| >= |s.branchSourceNames|
    ensures o.store.branchSourceNames[..|s.branchSourceNames|] == s.branchSourceNames
    ensures |o.store.branches| == |s.branches| + 1 ==>
              var row := o.store.branches[|s.branches|];
              && (forall i :: 0 <= i < |s.branches| ==> s.branches[i].id < row.id)
              && Some(row.areaId) == Lookup(data.members, "areaId")
              && Some(row.branchName) == Lookup(data.members, "branchName")
              && row.isActive == Bool(true)
    ensures (data.Obj? && "areaId" in Keys(data.members) && "branchName" in Keys(data.members)
             && "sourceTypes" in Keys(data.members)) ==> |o.store.branches| == |s.branches| + 1
    ensures o.response.Replied? <==>
              && data.Obj? && "areaId" in Keys(data.members) && "branchName" in Keys(data.members)
              && "sourceTypes" in Keys(data.members)
              && Iterate(Lookup(data.members, "sourceTypes").value).Some?
              && var entries := Iterate(Lookup(data.members, "sourceTypes").value).value;
              && forall i :: 0 <= i < |entries| ==> EntryOk(entries[i])
    ensures |o.store.branches| == |s.branches| + 1 ==>
              var entries := Iterate(Lookup(data.members, "sourceTypes").value);
              && (entries.Some? ==>
                    && |o.store.sourceNames| == |s.sourceNames| + TotalNames(entries.value)
                    && |o.store.branchSourceNames| == |s.branchSourceNames| + TotalNames(entries.value))
    ensures o.response.Replied? ==>
              && data.Obj? && "sourceTypes" in Keys(data.members)
              && Iterate(Lookup(data.members, "sourceTypes").value).Some?
              && |o.store.branches| == |s.branches| + 1
              && var entries := Iterate(Lookup(data.members, "sourceTypes").value).value;
              && var bid := o.store.branches[|s.branches|].id;
              && (forall i :: 0 <= i < |entries| ==> EntryOk(entries[i]))
              && o.response == Replied(201, Obj([Member("branchId", Num(bid))]))
              && |o.store.branchSources| == |s.branchSources| + |entries|
              && SourcesFor(entries, bid, o.store.branchSources[|s.branchSources|..])
  {
    var areaId := Subscript(data, "areaId");
    var name := Subscript(data, "branchName");
    var types := Subscript(data, "sourceTypes");
    if areaId.None? || name.None? || types.None? then Outcome(Raised, s)
    else
      var bid := Fresh(s.branches, BranchKey);
      var s1 := s.(branches := s.branches + [BranchRow(bid, areaId.value, Null, name.value, Bool(true))]);
      assert s1.branches[..|s.branches|] == s.branches;
      var entries := Iterate(types.value);
      if entries.None? then Outcome(Raised, s1)
      else
        var o := CreateSources(s1, bid, entries.value);
        assert o.store.branches[|s.branches|].id == bid;
        assert Iterate(Lookup(data.members, "sourceTypes").value).value == entries.value;
        o
  }

  /** The `BranchSource` rows a finished loop adds: one per entry, in order,
      each for branch `bid` and the entry's `id`. */
  predicate SourcesFor(entries: seq<Json>, bid: nat, added: seq<BranchSourceRow>) {
    && |added| == |entries|
    && forall k :: 0 <= k < |entries| ==>
         added[k].branchId == bid && Subscript(entries[k], "id") == Some(added[k].sourceTypeId)
  }

  /** The loop of `full_create_branch` and its reply, once the branch row
      `bid` is committed in `s`. */
  function CreateSources(s: Store, bid: nat, entries: seq<Json>): (o: Outcome)
    ensures o.store.areas == s.areas && o.store.sourceTypes == s.sourceTypes && o.store.branches == s.branches
    ensures |o.store.branchSources| >= |s.branchSources| && o.store.branchSources[..|s.branchSources|] == s.branchSources
    ensures |o.store.sourceNames| == |s.sourceNames| + TotalNames(entries)
    ensures o.store.sourceNames[..|s.sourceNames|] == s.sourceNames
    ensures |o.store.branchSourceNames| == |s.branchSourceNames| + TotalNames(entries)
    ensures o.store.branchSourceNames[..|s.branchSourceNames|] == s.branchSourceNames
    ensures o.response.Replied? <==> forall i :: 0 <= i < |entries| ==> EntryOk(entries[i])
    ensures o.response.Replied? ==>
              && (forall i :: 0 <= i < |entries| ==> EntryOk(entries[i]))
              && o.response == Replied(201, Obj([Member("branchId", Num(bid))]))
              && |o.store.branchSources| == |s.branchSources| + |entries|
              && SourcesFor(entries, bid, o.store.branchSources[|s.branchSources|..])
  {
    var p := ReadEntries(entries);
    var sourceStart := Fresh(s.branchSources, BranchSourceKey);
    var rows := LoopRows(bid, p, sourceStart, Fresh(s.sourceNames, SourceNameKey),
                         Fresh(s.branchSourceNames, BranchSourceNameKey));
    var s2 := Commit(s, rows);
    if p.stop.Finished? then
      ReadAllEntries(entries);
      EntryRowsSources(bid, p.entries, sourceStart, Fresh(s.sourceNames, SourceNameKey),
                       Fresh(s.branchSourceNames, BranchSourceNameKey));
      assert s2.branchSources[|s.branchSources|..] == rows.sources;
      Outcome(Replied(201, Obj([Member("branchId", Num(bid))])), s2)
    else Outcome(Raised, s2)
  }

  /** Every `BranchSourceName` row full-create writes has no `areaId`, although
      the column is declared NOT NULL; each links the `SourceName` row of the
      new branch written just before it. */
  lemma FullCreateLinksLackArea(data: Json, s: Store)
    ensures var o := FullCreate(data, s);
            var links := o.store.branchSourceNames[|s.branchSourceNames|..];
            var names := o.store.sourceNames[|s.sourceNames|..];
            && |links| == |names|
            && forall k :: 0 <= k < |links| ==> LinkedPair(names[k], links[k])
  {
    var o := FullCreate(data, s);
    if && data.Obj? && "areaId" in Keys(data.members) && "branchName" in Keys(data.members)
       && "sourceTypes" in Keys(data.members) && Iterate(Lookup(data.members, "sourceTypes").value).Some? {
      var bid := Fresh(s.branches, BranchKey);
      var s1 := s.(branches := s.branches + [BranchRow(bid, Lookup(data.members, "areaId").value, Null,
                                                          Lookup(data.members, "branchName").value, Bool(true))]);
      var p := ReadEntries(Iterate(Lookup(data.members, "sourceTypes").value).value);
      var a, b, c := Fresh(s.branchSources, BranchSourceKey), Fresh(s.sourceNames, SourceNameKey),
                     Fresh(s.branchSourceNames, BranchSourceNameKey);
      var rows := LoopRows(bid, p, a, b, c);
      assert o.store == Commit(s1, rows);
      assert rows.names == EntryRows(bid, p.entries, a, b, c).names;
      assert rows.links == EntryRows(bid, p.entries, a, b, c).links;
      EntryRowsLinks(bid, p.entries, a, b, c);
    } else {
      assert o.store.sourceNames == s.sourceNames && o.store.branchSourceNames == s.branchSourceNames;
    }
  }

  /** Once the branch row is written and `sourceTypes` iterates, the
      `SourceName` rows full-create adds are the (type id, name) pairs of
      the entries read, each of the new branch and active. */
  lemma FullCreateNameRows(data: Json, s: Store)
    ensures var o := FullCreate(data, s);
            |o.store.branches| == |s.branches| + 1 && Iterate(Lookup(data.members, "sourceTypes").value).Some? ==>
              var ps := NamePairs(ReadEntries(Iterate(Lookup(data.members, "sourceTypes").value).value).entries);
              var added := o.store.sourceNames[|s.sourceNames|..];
              var bid := o.store.branches[|s.branches|].id;
              && |added| == |ps|
              && forall k :: 0 <= k < |ps| ==>
                   && added[k].branchId == bid && added[k].sourceTypeId == ps[k].0
                   && added[k].sourceName == ps[k].1 && added[k].isActive == Bool(true)
  {
    var o := FullCreate(data, s);
    if && data.Obj? && "areaId" in Keys(data.members) && "branchName" in Keys(data.members)
       && "sourceTypes" in Keys(data.members) && Iterate(Lookup(data.members, "sourceTypes").value).Some? {
      var bid := Fresh(s.branches, BranchKey);
      var s1 := s.(branches := s.branches + [BranchRow(bid, Lookup(data.members, "areaId").value, Null,
                                                          Lookup(data.members, "branchName").value, Bool(true))]);
      var p := ReadEntries(Iterate(Lookup(data.members, "sourceTypes").value).value);
      var a, b, c := Fresh(s.branchSources, BranchSourceKey), Fresh(s.sourceNames, SourceNameKey),
                     Fresh(s.branchSourceNames, BranchSourceNameKey);
      var rows := LoopRows(bid, p, a, b, c);
      assert o.store == Commit(s1, rows);
      assert o.store.branches[|s.branches|].id == bid;
      assert rows.names == EntryRows(bid, p.entries, a, b, c).names;
      EntryRowsNames(bid, p.entries, a, b, c);
    }
  }

  /** The request the wizard's save posts has none of the keys full-create
      reads, so the route raises before writing any row. */
  lemma WizardSaveRejected(p: Wizard.SavePayload, s: Store)
    ensures FullCreate(Wizard.PayloadJson(p), s) == Outcome(Raised, s)
  {
    var j := Wizard.PayloadJson(p);
    assert "areaId" !in Keys(j.members);
  }

  /** A dict request with an empty `sourceTypes` list creates the branch
      alone. */
  lemma FullCreateBranchOnly(areaId: Json, branchName: Json, s: Store)
    ensures var o := FullCreate(Obj([Member("areaId", areaId), Member("branchName", branchName),
                                     Member("sourceTypes", Arr([]))]), s);
            && o.response.Replied? && o.response.status == 201
            && |o.store.branches| == |s.branches| + 1
            && o.store.branchSources == s.branchSources
            && o.store.sourceNames == s.sourceNames
            && o.store.branchSourceNames == s.branchSourceNames
  {
    var m := [Member("areaId", areaId), Member("branchName", branchName), Member("sourceTypes", Arr([]))];
    assert Lookup(m, "sourceTypes") == Lookup(m[1..], "sourceTypes") == Lookup(m[2..], "sourceTypes");
    assert Lookup(m, "branchName") == Lookup(m[1..], "branchName");
  }

  /** The source types a branch lists: per `BranchSource` of the branch, its
      type id and the type's name; `None` when a link names no `SourceType`
      row, where `bs.source_type.sourceType` raises. */
  function TypeEntries(links: seq<BranchSourceRow>, types: seq<SourceTypeRow>): (r: Option<seq<Json>>)
    ensures r.Some? <==> forall i :: 0 <= i < |links| ==> Find(types, SourceTypeKey, links[i].sourceTypeId).Some?
    ensures r.Some? ==> |r.value| == |links|
    ensures r.Some? ==> forall i :: 0 <= i < |links| ==>
              r.value[i] == Obj([Member("id", links[i].sourceTypeId),
                                 Member("name", Find(types, SourceTypeKey, links[i].sourceTypeId).value.sourceType)])
  {
    if |links| == 0 then Some([])
    else
      var t := Find(types, SourceTypeKey, links[0].sourceTypeId);
      var rest := TypeEntries(links[1..], types);
      assert forall i :: 1 <= i < |links| ==> links[i] == links[1..][i - 1];
      if t.None? || rest.None? then None
      else Some([Obj([Member("id", links[0].sourceTypeId), Member("name", t.value.sourceType)])] + rest.value)
  }

  /** The source names a branch lists, one per `BranchSourceName` row of the
      branch; `None` when a link names no `SourceName` row. */
  function NameEntries(links: seq<BranchSourceNameRow>, names: seq<SourceNameRow>): (r: Option<seq<Json>>)
    ensures r.Some? <==> forall i :: 0 <= i < |links| ==> Find(names, SourceNameKey, links[i].sourceNameId).Some?
    ensures r.Some? ==> |r.value| == |links|
    ensures r.Some? ==> forall i :: 0 <= i < |links| ==>
              var n := Find(names, SourceNameKey, links[i].sourceNameId).value;
              r.value[i] == Obj([Member("id", links[i].sourceNameId), Member("name", n.sourceName),
                                 Member("sourceTypeId", n.sourceTypeId)])
  {
    if |links| == 0 then Some([])
    else
      var n := Find(names, SourceNameKey, links[0].sourceNameId);
      var rest := NameEntries(links[1..], names);
      assert forall i :: 1 <= i < |links| ==> links[i] == links[1..][i - 1];
      if n.None? || rest.None? then None
      else Some([Obj([Member("id", links[0].sourceNameId), Member("name", n.value.sourceName),
                      Member("sourceTypeId", n.value.sourceTypeId)])] + rest.value)
  }

  /** A link added at the end adds its entry at the end of the type list. */
  lemma {:induction false} TypeEntriesSnoc(links: seq<BranchSourceRow>, x: BranchSourceRow, types: seq<SourceTypeRow>)
    requires TypeEntries(links, types).Some? && Find(types, SourceTypeKey, x.sourceTypeId).Some?
    ensures TypeEntries(links + [x], types)
            == Some(TypeEntries(links, types).value
                    + [Obj([Member("id", x.sourceTypeId),
                            Member("name", Find(types, SourceTypeKey, x.sourceTypeId).value.sourceType)])])
    decreases |links|
  {
    if |links| == 0 {
      var e := Obj([Member("id", x.sourceTypeId), Member("name", Find(types, SourceTypeKey, x.sourceTypeId).value.sourceType)]);
      assert links + [x] == [x] && [x][1..] == [];
      assert TypeEntries([x][1..], types) == Some([]);
      assert TypeEntries([x], types) == Some([e] + []) && [e] + [] == [e];
      assert TypeEntries(links, types).value + [e] == [e];
    } else {
      var ys := links + [x];
      assert ys[0] == links[0] && ys[1..] == links[1..] + [x];
      assert TypeEntries(links[1..], types).Some?;
      TypeEntriesSnoc(links[1..], x, types);
      var h := Obj([Member("id", links[0].sourceTypeId),
                    Member("name", Find(types, SourceTypeKey, links[0].sourceTypeId).value.sourceType)]);
      assert TypeEntries(links, types).value == [h] + TypeEntries(links[1..], types).value;
      assert TypeEntries(ys, types).Some?;
      assert TypeEntries(ys, types).value == [h] + TypeEntries(ys[1..], types).value;
      var e := Obj([Member("id", x.sourceTypeId), Member("name", Find(types, SourceTypeKey, x.sourceTypeId).value.sourceType)]);
      assert [h] + (TypeEntries(links[1..], types).value + [e]) == ([h] + TypeEntries(links[1..], types).value) + [e];
    }
  }

  function SourceOfBranch(branchId: nat): BranchSourceRow -> bool {
    (bs: BranchSourceRow) => bs.branchId == branchId
  }

  function NameOfBranch(branchId: nat): BranchSourceNameRow -> bool {
    (l: BranchSourceNameRow) => l.branchId == branchId
  }

  /** The entries of a branch's source types and source names. */
  function BranchTypes(branchId: nat, s: Store): Option<seq<Json>> {
    TypeEntries(Filter(s.branchSources, SourceOfBranch(branchId)), s.sourceTypes)
  }

  function BranchNames(branchId: nat, s: Store): Option<seq<Json>> {
    NameEntries(Filter(s.branchSourceNames, NameOfBranch(branchId)), s.sourceNames)
  }

  /** `get_branch_details`: 404 for an unknown id; an exception when one of
      the branch's links names a missing row; otherwise the branch with one
      entry per source-type link and one per source-name link. */
  function GetBranchDetails(branchId: nat, s: Store): (r: Response)
    ensures r == Replied(404, ErrorBody("Branch not found")) <==> forall b :: b in s.branches ==> b.id != branchId
    ensures Find(s.branches, BranchKey, Num(branchId)).Some? ==>
              (r == Raised <==>
                 || BranchTypes(branchId, s).None?
                 || BranchNames(branchId, s).None?)
    ensures r.Replied? && r.status != 404 ==>
              && r.status == 200 && r.body.Obj?
              && Keys(r.body.members) == ["id", "areaId", "branchName", "sourceTypes", "sourceNames"]
              && r.body.members[0].value == Num(branchId)
              && r.body.members[3].value.Arr?
              && |r.body.members[3].value.items| == |Matches(s.branchSources, SourceOfBranch(branchId))|
              && r.body.members[4].value.Arr?
              && |r.body.members[4].value.items| == |Matches(s.branchSourceNames, NameOfBranch(branchId))|
    ensures r.Replied? && r.status == 200 ==>
              && Find(s.branches, BranchKey, Num(branchId)).Some?
              && var b := Find(s.branches, BranchKey, Num(branchId)).value;
              && b in s.branches && b.id == branchId
              && r.body.members[1].value == b.areaId
              && r.body.members[2].value == b.branchName
              && r.body.members[3].value
                 == Arr(BranchTypes(branchId, s).value)
              && r.body.members[4].value
                 == Arr(BranchNames(branchId, s).value)
  {
    var b := Find(s.branches, BranchKey, Num(branchId));
    if b.None? then Replied(404, ErrorBody("Branch not found"))
    else
      var types := BranchTypes(branchId, s);
      var names := BranchNames(branchId, s);
      FilterLengthCountsMatches(s.branchSources, SourceOfBranch(branchId));
      FilterLengthCountsMatches(s.branchSourceNames, NameOfBranch(branchId));
      if types.None? || names.None? then Raised
      else Replied(200, Obj([
        Member("id", Num(b.value.id)),
        Member("areaId", b.value.areaId),
        Member("branchName", b.value.branchName),
        Member("sourceTypes", Arr(types.value)),
        Member("sourceNames", Arr(names.value))]))
  }

  /** The details route finds the branch create-branch echoes, and shows the
      area and name the request sent. */
  lemma CreatedBranchDetails(data: Json, s: Store)
    ensures var o := CreateBranch(data, s);
            o.response.Replied? ==>
              var d := GetBranchDetails(o.store.branches[|s.branches|].id, o.store);
              && d != Replied(404, ErrorBody("Branch not found"))
              && (d.Replied? && d.status == 200 ==>
                    && Some(d.body.members[1].value) == Lookup(data.members, "areaId")
                    && Some(d.body.members[2].value) == Lookup(data.members, "branchName"))
  {
    var o := CreateBranch(data, s);
    if o.response.Replied? {
      var row := o.store.branches[|s.branches|];
      assert row in o.store.branches;
      assert o.store.branches == s.branches + [row];
      var f := Find(o.store.branches, BranchKey, Num(row.id));
      if f.Some? {
        assert f.value == row;
      }
    }
  }

  /** The details route finds the branch add-branch answers with, and shows
      the area and name the request sent. */
  lemma AddedBranchDetails(data: Json, s: Store)
    ensures var o := AddBranch(data, s);
            o.response.Replied? ==>
              var d := GetBranchDetails(o.store.branches[|s.branches|].id, o.store);
              && d != Replied(404, ErrorBody("Branch not found"))
              && (d.Replied? && d.status == 200 ==>
                    && Some(d.body.members[1].value) == Lookup(data.members, "areaId")
                    && Some(d.body.members[2].value) == Lookup(data.members, "branchName"))
  {
    var o := AddBranch(data, s);
    if o.response.Replied? {
      var row := o.store.branches[|s.branches|];
      assert row in o.store.branches;
      assert o.store.branches == s.branches + [row];
      var f := Find(o.store.branches, BranchKey, Num(row.id));
      if f.Some? {
        assert f.value == row;
      }
    }
  }

  /** The id full-create answers with names a branch the details route finds. */
  lemma CreatedBranchFound(data: Json, s: Store)
    requires FullCreate(data, s).response.Replied?
    ensures var o := FullCreate(data, s);
            GetBranchDetails(Lookup(o.response.body.members, "branchId").value.n, o.store) != Replied(404, ErrorBody("Branch not found"))
  {
    var o := FullCreate(data, s);
    var row := o.store.branches[|s.branches|];
    assert row in o.store.branches;
  }
}
