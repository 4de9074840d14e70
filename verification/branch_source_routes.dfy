/** The link routes of mis-react-web/PythonProject/routes/branch_source.py and
    branch_source_name.py over the in-memory store: creating a
    `BranchSource` or a `BranchSourceName` for an existing branch, and the
    query listing the source names linked to a branch. */
module BranchSourceRoutes {
  import opened Wrappers
  import opened Json
  import opened Store
  import opened Seqs
  import BranchRoutes

  /** The name of the row `key` names in a table, or `null` when there is
      none: how `to_dict` follows a relationship. */
  function AreaName(s: Store, key: Json): Json {
    var a := Find(s.areas, AreaKey, key);
    if a.Some? then a.value.areaName else Null
  }

  function BranchName(s: Store, key: Json): Json {
    var b := Find(s.branches, BranchKey, key);
    if b.Some? then b.value.branchName else Null
  }

  function SourceTypeName(s: Store, key: Json): Json {
    var t := Find(s.sourceTypes, SourceTypeKey, key);
    if t.Some? then t.value.sourceType else Null
  }

  function SourceNameText(s: Store, key: Json): Json {
    var n := Find(s.sourceNames, SourceNameKey, key);
    if n.Some? then n.value.sourceName else Null
  }

  /** `BranchSource.to_dict`. */
  function BranchSourceDict(row: BranchSourceRow, s: Store): (r: Json)
    ensures r.Obj? && Keys(r.members) == ["id", "branchId", "sourceTypeId", "isActive", "branchName", "sourceType", "areaId", "areaName"]
    ensures Lookup(r.members, "id") == Some(Num(row.id))
  {
    Obj([
      Member("id", Num(row.id)),
      Member("branchId", Num(row.branchId)),
      Member("sourceTypeId", row.sourceTypeId),
      Member("isActive", row.isActive),
      Member("branchName", BranchName(s, Num(row.branchId))),
      Member("sourceType", SourceTypeName(s, row.sourceTypeId)),
      Member("areaId", row.areaId),
      Member("areaName", AreaName(s, row.areaId))])
  }

  /** `BranchSourceName.to_dict`. */
  function BranchSourceNameDict(row: BranchSourceNameRow, s: Store): (r: Json)
    ensures r.Obj? && Keys(r.members) == ["id", "branchId", "sourceNameId", "isActive", "branchName", "sourceName", "areaId", "areaName"]
    ensures Lookup(r.members, "id") == Some(Num(row.id))
  {
    Obj([
      Member("id", Num(row.id)),
      Member("branchId", Num(row.branchId)),
      Member("sourceNameId", row.sourceNameId),
      Member("isActive", row.isActive),
      Member("branchName", BranchName(s, Num(row.branchId))),
      Member("sourceName", SourceNameText(s, row.sourceNameId)),
      Member("areaId", row.areaId),
      Member("areaName", AreaName(s, row.areaId))])
  }

  /** What a link request carries: the branch key, the key of the linked row
      and `isActive`, defaulting to true. */
  datatype LinkRequest = LinkRequest(branchKey: Json, otherKey: Json, isActive: Json)

  /** Reads `data['branchId']`, `data[other]` and `data.get('isActive', True)`;
      `None` when a subscript raises. */
  function ReadLink(data: Json, other: string): (r: Option<LinkRequest>)
    ensures r.Some? <==> data.Obj? && "branchId" in Keys(data.members) && other in Keys(data.members)
    ensures r.Some? ==> Some(r.value.branchKey) == Lookup(data.members, "branchId")
                        && Some(r.value.otherKey) == Lookup(data.members, other)
    ensures r.Some? && "isActive" !in Keys(data.members) ==> r.value.isActive == Bool(true)
    ensures r.Some? && "isActive" in Keys(data.members) ==> Some(r.value.isActive) == Lookup(data.members, "isActive")
  {
    var branchKey := Subscript(data, "branchId");
    var otherKey := Subscript(data, other);
    if branchKey.None? || otherKey.None? then None
    else Some(LinkRequest(branchKey.value, otherKey.value, GetDefault(data.members, "isActive", Bool(true))))
  }

  /** The branch check both routes make, existence first, then the area. */
  datatype Check = Missing | NoArea | Ready(branch: BranchRow)

  function CheckBranch(s: Store, key: Json): (r: Check)
    ensures r.Missing? <==> forall b :: b in s.branches ==> key != Num(b.id)
    ensures r.NoArea? ==> exists b :: b in s.branches && key == Num(b.id) && b.areaId == Null
    ensures r.Ready? ==> r.branch in s.branches && key == Num(r.branch.id) && r.branch.areaId != Null
  {
    var b := Find(s.branches, BranchKey, key);
    if b.None? then Missing
    else if b.value.areaId == Null then NoArea
    else Ready(b.value)
  }

  const NotFound: Response := Replied(404, ErrorBody("Branch not found"))
  const NoAreaSet: Response := Replied(400, ErrorBody("Branch has no areaId set"))

  /** `create_branch_source`: the two keys are read first, then the branch
      must exist, then it must have an area; only then is one row added,
      with the area copied from the branch. */
  function CreateBranchSource(data: Json, s: Store): (o: Outcome)
    ensures !(data.Obj? && "branchId" in Keys(data.members) && "sourceTypeId" in Keys(data.members))
            <==> o == Outcome(Raised, s)
    ensures !(o.response.Replied? && o.response.status == 201) ==> o.store == s
    ensures o.response == NotFound <==>
              data.Obj? && "sourceTypeId" in Keys(data.members)
              && Lookup(data.members, "branchId").Some?
              && forall b :: b in s.branches ==> Lookup(data.members, "branchId").value != Num(b.id)
    ensures o.response == NoAreaSet ==>
              exists b :: b in s.branches && Lookup(data.members, "branchId") == Some(Num(b.id)) && b.areaId == Null
    ensures o.response.Replied? ==> o.response.status in {201, 400, 404}
    ensures o.response.Replied? && o.response.status == 400 ==> o.response == NoAreaSet
    ensures (data.Obj? && "branchId" in Keys(data.members) && "sourceTypeId" in Keys(data.members)) ==>
              && (o.response == NoAreaSet <==> CheckBranch(s, Lookup(data.members, "branchId").value).NoArea?)
              && (o.response.Replied? && o.response.status == 201
                  <==> CheckBranch(s, Lookup(data.members, "branchId").value).Ready?)
    ensures o.response.Replied? && o.response.status == 201 ==>
              && |o.store.branchSources| == |s.branchSources| + 1
              && o.store == s.(branchSources := s.branchSources + [o.store.branchSources[|s.branchSources|]])
              && var row := o.store.branchSources[|s.branchSources|];
              && (forall i :: 0 <= i < |s.branchSources| ==> s.branchSources[i].id < row.id)
              && Lookup(data.members, "branchId") == Some(Num(row.branchId))
              && Lookup(data.members, "sourceTypeId") == Some(row.sourceTypeId)
              && (exists b :: b in s.branches && b.id == row.branchId && b.areaId == row.areaId)
              && row.areaId != Null
              && ("isActive" !in Keys(data.members) ==> row.isActive == Bool(true))
              && ("isActive" in Keys(data.members) ==> Some(row.isActive) == Lookup(data.members, "isActive"))
              && o.response.body == BranchSourceDict(row, o.store)
  {
    var req := ReadLink(data, "sourceTypeId");
    if req.None? then Outcome(Raised, s)
    else match CheckBranch(s, req.value.branchKey)
      case Missing => Outcome(NotFound, s)
      case NoArea => Outcome(NoAreaSet, s)
      case Ready(b) =>
        var row := BranchSourceRow(Fresh(s.branchSources, BranchSourceKey), b.id, req.value.otherKey,
                                   req.value.isActive, b.areaId);
        var s1 := s.(branchSources := s.branchSources + [row]);
        Outcome(Replied(201, BranchSourceDict(row, s1)), s1)
  }

  /** After a 201 the details route finds the branch, and the new link adds
      its type's entry at the end of the branch's source-type list, provided
      the type exists and the list was readable before. */
  lemma CreatedSourceListed(data: Json, s: Store)
    ensures var o := CreateBranchSource(data, s);
            o.response.Replied? && o.response.status == 201 ==>
              var row := o.store.branchSources[|s.branchSources|];
              var t := Find(s.sourceTypes, SourceTypeKey, row.sourceTypeId);
              && BranchRoutes.GetBranchDetails(row.branchId, o.store) != Replied(404, ErrorBody("Branch not found"))
              && (t.Some? && BranchRoutes.BranchTypes(row.branchId, s).Some? ==>
                    BranchRoutes.BranchTypes(row.branchId, o.store)
                    == Some(BranchRoutes.BranchTypes(row.branchId, s).value
                            + [Obj([Member("id", row.sourceTypeId), Member("name", t.value.sourceType)])]))
  {
    var o := CreateBranchSource(data, s);
    if o.response.Replied? && o.response.status == 201 {
      var row := o.store.branchSources[|s.branchSources|];
      var keep := BranchRoutes.SourceOfBranch(row.branchId);
      assert o.store.branchSources == s.branchSources + [row];
      FilterAppend(s.branchSources, [row], keep);
      FilterKeptHead(row, [], keep);
      assert [row] + [] == [row];
      var t := Find(s.sourceTypes, SourceTypeKey, row.sourceTypeId);
      if t.Some? && BranchRoutes.BranchTypes(row.branchId, s).Some? {
        BranchRoutes.TypeEntriesSnoc(Filter(s.branchSources, keep), row, s.sourceTypes);
      }
    }
  }

  /** `create_branch_source_name`: the same checks in the same order; the
      new link takes its area from the branch. */
  function CreateBranchSourceName(data: Json, s: Store): (o: Outcome)
    ensures !(data.Obj? && "branchId" in Keys(data.members) && "sourceNameId" in Keys(data.members))
            <==> o == Outcome(Raised, s)
    ensures !(o.response.Replied? && o.response.status == 201) ==> o.store == s
    ensures o.response == NotFound <==>
              data.Obj? && "sourceNameId" in Keys(data.members)
              && Lookup(data.members, "branchId").Some?
              && forall b :: b in s.branches ==> Lookup(data.members, "branchId").value != Num(b.id)
    ensures o.response == NoAreaSet ==>
              exists b :: b in s.branches && Lookup(data.members, "branchId") == Some(Num(b.id)) && b.areaId == Null
    ensures o.response.Replied? ==> o.response.status in {201, 400, 404}
    ensures o.response.Replied? && o.response.status == 400 ==> o.response == NoAreaSet
    ensures (data.Obj? && "branchId" in Keys(data.members) && "sourceNameId" in Keys(data.members)) ==>
              && (o.response == NoAreaSet <==> CheckBranch(s, Lookup(data.members, "branchId").value).NoArea?)
              && (o.response.Replied? && o.response.status == 201
                  <==> CheckBranch(s, Lookup(data.members, "branchId").value).Ready?)
    ensures o.response.Replied? && o.response.status == 201 ==>
              && |o.store.branchSourceNames| == |s.branchSourceNames| + 1
              && o.store == s.(branchSourceNames := s.branchSourceNames + [o.store.branchSourceNames[|s.branchSourceNames|]])
              && var row := o.store.branchSourceNames[|s.branchSourceNames|];
              && (forall i :: 0 <= i < |s.branchSourceNames| ==> s.branchSourceNames[i].id < row.id)
              && Lookup(data.members, "branchId") == Some(Num(row.branchId))
              && Lookup(data.members, "sourceNameId") == Some(row.sourceNameId)
              && (exists b :: b in s.branches && b.id == row.branchId && b.areaId == row.areaId)
              && row.areaId != Null
              && ("isActive" !in Keys(data.members) ==> row.isActive == Bool(true))
              && ("isActive" in Keys(data.members) ==> Some(row.isActive) == Lookup(data.members, "isActive"))
              && o.response.body == BranchSourceNameDict(row, o.store)
  {
    var req := ReadLink(data, "sourceNameId");
    if req.None? then Outcome(Raised, s)
    else match CheckBranch(s, req.value.branchKey)
      case Missing => Outcome(NotFound, s)
      case NoArea => Outcome(NoAreaSet, s)
      case Ready(b) =>
        var row := BranchSourceNameRow(Fresh(s.branchSourceNames, BranchSourceNameKey), b.id, req.value.otherKey,
                                       req.value.isActive, b.areaId);
        var s1 := s.(branchSourceNames := s.branchSourceNames + [row]);
        Outcome(Replied(201, BranchSourceNameDict(row, s1)), s1)
  }

  /** The query parameters of `get_branch_source_names`: the branch from the
      path and the two optional integer filters. */
  datatype Query = Query(branchId: nat, sourceTypeId: Option<int>, areaId: Option<int>)

  /** A filter applies only when present and non-zero. */
  predicate Applies(f: Option<int>) {
    f.Some? && f.value != 0
  }

  /** One result row of the joined query. */
  datatype Hit = Hit(name: SourceNameRow, stype: SourceTypeRow)

  /** The two inner joins, the branch condition and the optional filters. */
  predicate Selected(q: Query, link: BranchSourceNameRow, name: SourceNameRow, stype: SourceTypeRow) {
    && link.sourceNameId == Num(name.id)
    && name.sourceTypeId == Num(stype.id)
    && link.branchId == q.branchId
    && (Applies(q.sourceTypeId) ==> name.sourceTypeId == Num(q.sourceTypeId.value))
    && (Applies(q.areaId) ==> link.areaId == Num(q.areaId.value))
  }

  function TypesFor(q: Query, link: BranchSourceNameRow, name: SourceNameRow, types: seq<SourceTypeRow>): (r: seq<Hit>)
    ensures forall h :: h in r <==> h.name == name && h.stype in types && Selected(q, link, name, h.stype)
  {
    if |types| == 0 then []
    else
      var rest := TypesFor(q, link, name, types[1..]);
      assert types == [types[0]] + types[1..];
      (if Selected(q, link, name, types[0]) then [Hit(name, types[0])] else []) + rest
  }

  function NamesFor(q: Query, link: BranchSourceNameRow, names: seq<SourceNameRow>, types: seq<SourceTypeRow>): (r: seq<Hit>)
    ensures forall h :: h in r <==> h.name in names && h.stype in types && Selected(q, link, h.name, h.stype)
  {
    if |names| == 0 then []
    else
      var rest := NamesFor(q, link, names[1..], types);
      assert names == [names[0]] + names[1..];
      TypesFor(q, link, names[0], types) + rest
  }

  /** The rows of the joined, filtered query, link by link. */
  function JoinLinks(q: Query, links: seq<BranchSourceNameRow>, names: seq<SourceNameRow>, types: seq<SourceTypeRow>): (r: seq<Hit>)
    ensures forall h :: h in r <==>
              h.name in names && h.stype in types && exists l :: l in links && Selected(q, l, h.name, h.stype)
  {
    if |links| == 0 then []
    else
      var rest := JoinLinks(q, links[1..], names, types);
      assert links == [links[0]] + links[1..];
      NamesFor(q, links[0], names, types) + rest
  }

  /** The query's result: the query selects whole `SourceName` and
      `SourceType` entities, so each selected pair comes back once however
      many links select it. */
  function Join(q: Query, s: Store): (r: seq<Hit>)
    ensures forall h :: h in r <==>
              h.name in s.sourceNames && h.stype in s.sourceTypes
              && exists l :: l in s.branchSourceNames && Selected(q, l, h.name, h.stype)
    ensures forall i, j :: 0 <= i < j < |r| ==> r[i] != r[j]
  {
    Dedup(JoinLinks(q, s.branchSourceNames, s.sourceNames, s.sourceTypes))
  }

  /** `SourceName.to_dict` followed by `sourceTypeName`. */
  function HitJson(h: Hit): (r: Json)
    ensures r.Obj? && Keys(r.members) == ["id", "branchId", "sourceTypeId", "sourceName", "isActive", "sourceTypeName"]
  {
    Obj([
      Member("id", Num(h.name.id)),
      Member("branchId", Num(h.name.branchId)),
      Member("sourceTypeId", h.name.sourceTypeId),
      Member("sourceName", h.name.sourceName),
      Member("isActive", h.name.isActive),
      Member("sourceTypeName", h.stype.sourceType)])
  }

  function HitsJson(hs: seq<Hit>): (r: seq<Json>)
    ensures |r| == |hs|
    ensures forall i :: 0 <= i < |hs| ==> r[i] == HitJson(hs[i])
  {
    if |hs| == 0 then [] else [HitJson(hs[0])] + HitsJson(hs[1..])
  }

  /** The list holds exactly the entries of the joined rows. */
  lemma {:induction false} HitsJsonMembers(hs: seq<Hit>)
    ensures forall item :: item in HitsJson(hs) <==> exists h :: h in hs && item == HitJson(h)
  {
    if |hs| > 0 {
      HitsJsonMembers(hs[1..]);
      assert hs == [hs[0]] + hs[1..];
    }
  }

  /** `get_branch_source_names`: a JSON list with one entry per selected
      pair, in the order of the pairs. */
  function GetBranchSourceNames(q: Query, s: Store): (r: Json)
    ensures r.Arr? && |r.items| == |Join(q, s)|
    ensures forall i :: 0 <= i < |r.items| ==> r.items[i] == HitJson(Join(q, s)[i])
    ensures forall item :: item in r.items <==> exists h :: h in Join(q, s) && item == HitJson(h)
  {
    HitsJsonMembers(Join(q, s));
    Arr(HitsJson(Join(q, s)))
  }

  /** A listed entry carries the source name's own fields and its type's
      name under `sourceTypeName`. */
  lemma HitJsonFields(h: Hit)
    ensures Lookup(HitJson(h).members, "sourceTypeName") == Some(h.stype.sourceType)
    ensures Lookup(HitJson(h).members, "id") == Some(Num(h.name.id))
  {
    var m := HitJson(h).members;
    LookupAt(m, 5);
    LookupAt(m, 0);
  }


  /** A filter value of 0 is the same as no filter. */
  lemma ZeroFiltersIgnored(branchId: nat, s: Store)
    ensures Join(Query(branchId, Some(0), Some(0)), s) == Join(Query(branchId, None, None), s)
  {
    JoinSameSelection(Query(branchId, Some(0), Some(0)), Query(branchId, None, None),
                      s.branchSourceNames, s.sourceNames, s.sourceTypes);
  }

  /** Two queries that select the same rows list them alike. */
  lemma {:induction false} JoinSameSelection(q1: Query, q2: Query, links: seq<BranchSourceNameRow>,
                                             names: seq<SourceNameRow>, types: seq<SourceTypeRow>)
    requires forall l, n, t :: Selected(q1, l, n, t) <==> Selected(q2, l, n, t)
    ensures JoinLinks(q1, links, names, types) == JoinLinks(q2, links, names, types)
    decreases |links|
  {
    if |links| > 0 {
      JoinSameSelection(q1, q2, links[1..], names, types);
      NamesSameSelection(q1, q2, links[0], names, types);
    }
  }

  lemma {:induction false} NamesSameSelection(q1: Query, q2: Query, link: BranchSourceNameRow,
                                              names: seq<SourceNameRow>, types: seq<SourceTypeRow>)
    requires forall l, n, t :: Selected(q1, l, n, t) <==> Selected(q2, l, n, t)
    ensures NamesFor(q1, link, names, types) == NamesFor(q2, link, names, types)
    decreases |names|
  {
    if |names| > 0 {
      NamesSameSelection(q1, q2, link, names[1..], types);
      TypesSameSelection(q1, q2, link, names[0], types);
    }
  }

  lemma {:induction false} TypesSameSelection(q1: Query, q2: Query, link: BranchSourceNameRow,
                                              name: SourceNameRow, types: seq<SourceTypeRow>)
    requires forall l, n, t :: Selected(q1, l, n, t) <==> Selected(q2, l, n, t)
    ensures TypesFor(q1, link, name, types) == TypesFor(q2, link, name, types)
    decreases |types|
  {
    if |types| > 0 {
      TypesSameSelection(q1, q2, link, name, types[1..]);
    }
  }

  /** A source name no link of the branch names is never listed. */
  lemma UnlinkedNameExcluded(q: Query, s: Store, name: SourceNameRow)
    requires forall l :: l in s.branchSourceNames ==> l.branchId != q.branchId || l.sourceNameId != Num(name.id)
    ensures forall h :: h in Join(q, s) ==> h.name != name
  {
  }

  /** A source name whose type id names no `SourceType` row is never listed. */
  lemma UntypedNameExcluded(q: Query, s: Store, name: SourceNameRow)
    requires forall t :: t in s.sourceTypes ==> name.sourceTypeId != Num(t.id)
    ensures forall h :: h in Join(q, s) ==> h.name != name
  {
  }

  /** Links without an area never pass an area filter; the links full-create
      writes are such links. */
  lemma AreaFilterSkipsUnsetLinks(q: Query, s: Store)
    requires Applies(q.areaId)
    requires forall l :: l in s.branchSourceNames && l.branchId == q.branchId ==> l.areaId == Null
    ensures Join(q, s) == []
  {
    UnsetLinksJoinNothing(q, s.branchSourceNames, s.sourceNames, s.sourceTypes);
  }

  lemma {:induction false} UnsetLinksJoinNothing(q: Query, links: seq<BranchSourceNameRow>,
                                                 names: seq<SourceNameRow>, types: seq<SourceTypeRow>)
    requires Applies(q.areaId)
    requires forall l :: l in links && l.branchId == q.branchId ==> l.areaId == Null
    ensures JoinLinks(q, links, names, types) == []
    decreases |links|
  {
    if |links| > 0 {
      assert links[0] in links;
      UnsetLinkNamesNothing(q, links[0], names, types);
      assert forall l :: l in links[1..] ==> l in links;
      UnsetLinksJoinNothing(q, links[1..], names, types);
    }
  }

  lemma {:induction false} UnsetLinkNamesNothing(q: Query, link: BranchSourceNameRow,
                                                 names: seq<SourceNameRow>, types: seq<SourceTypeRow>)
    requires Applies(q.areaId)
    requires link.branchId == q.branchId ==> link.areaId == Null
    ensures NamesFor(q, link, names, types) == []
    decreases |names|
  {
    if |names| > 0 {
      UnsetLinkTypesNothing(q, link, names[0], types);
      UnsetLinkNamesNothing(q, link, names[1..], types);
    }
  }

  lemma {:induction false} UnsetLinkTypesNothing(q: Query, link: BranchSourceNameRow,
                                                 name: SourceNameRow, types: seq<SourceTypeRow>)
    requires Applies(q.areaId)
    requires link.branchId == q.branchId ==> link.areaId == Null
    ensures TypesFor(q, link, name, types) == []
    decreases |types|
  {
    if |types| > 0 {
      UnsetLinkTypesNothing(q, link, name, types[1..]);
    }
  }

  /** A link request that names an existing branch, which has an area, and
      carries a `sourceNameId` is answered 201. */
  lemma LinkRequestAccepted(data: Json, s: Store, branch: BranchRow)
    requires branch in s.branches && branch.areaId != Null
    requires forall b :: b in s.branches && b.id == branch.id ==> b == branch
    requires data.Obj? && Lookup(data.members, "branchId") == Some(Num(branch.id))
    requires Lookup(data.members, "sourceNameId").Some?
    ensures CreateBranchSourceName(data, s).response.Replied?
    ensures CreateBranchSourceName(data, s).response.status == 201
  {
    var req := ReadLink(data, "sourceNameId");
    assert req.Some?;
    var c := CheckBranch(s, req.value.branchKey);
    assert !c.Missing?;
    assert !c.NoArea?;
  }

  /** A link request for an existing branch with an area is accepted, and
      the link it adds makes its source name show up in the branch's
      unfiltered listing, and under the filter for the branch's own area. */
  lemma CreatedLinkListed(data: Json, s: Store, branch: BranchRow, name: SourceNameRow, stype: SourceTypeRow)
    requires branch in s.branches && branch.areaId != Null
    requires forall b :: b in s.branches && b.id == branch.id ==> b == branch
    requires name in s.sourceNames && stype in s.sourceTypes && name.sourceTypeId == Num(stype.id)
    requires data.Obj? && Lookup(data.members, "branchId") == Some(Num(branch.id))
    requires Lookup(data.members, "sourceNameId") == Some(Num(name.id))
    ensures var o := CreateBranchSourceName(data, s);
            && o.response.Replied? && o.response.status == 201
            && var row := o.store.branchSourceNames[|s.branchSourceNames|];
            && Hit(name, stype) in Join(Query(row.branchId, None, None), o.store)
            && (row.areaId.Num? ==> Hit(name, stype) in Join(Query(row.branchId, None, Some(row.areaId.n)), o.store))
  {
    var o := CreateBranchSourceName(data, s);
    LinkRequestAccepted(data, s, branch);
    var row := o.store.branchSourceNames[|s.branchSourceNames|];
    assert row in o.store.branchSourceNames;
    assert Selected(Query(row.branchId, None, None), row, name, stype);
  }
}
