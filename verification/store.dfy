/** The tables of mis-react-web/PythonProject/models.py that the branch routes
    read and write, as an in-memory store of row sequences in insertion order.
    A column that receives a request value holds that JSON value as sent;
    primary keys are assigned as the database's autoincrement does, one past
    the largest key in the table. */
module Store {
  import opened Wrappers
  import opened Json

  datatype AreaRow = AreaRow(id: nat, areaCode: Json, areaName: Json, isActive: Json)
  datatype BranchRow = BranchRow(id: nat, areaId: Json, branchCode: Json, branchName: Json, isActive: Json)
  datatype SourceTypeRow = SourceTypeRow(id: nat, branchId: Json, sourceType: Json, isActive: Json)
  datatype BranchSourceRow = BranchSourceRow(id: nat, branchId: nat, sourceTypeId: Json, isActive: Json, areaId: Json)
  datatype SourceNameRow = SourceNameRow(id: nat, branchId: nat, sourceTypeId: Json, sourceName: Json, isActive: Json)
  datatype BranchSourceNameRow = BranchSourceNameRow(id: nat, branchId: nat, sourceNameId: Json, isActive: Json, areaId: Json)

  datatype Store = Store(
    areas: seq<AreaRow>,
    branches: seq<BranchRow>,
    sourceTypes: seq<SourceTypeRow>,
    branchSources: seq<BranchSourceRow>,
    sourceNames: seq<SourceNameRow>,
    branchSourceNames: seq<BranchSourceNameRow>)

  function AreaKey(r: AreaRow): nat { r.id }
  function BranchKey(r: BranchRow): nat { r.id }
  function SourceTypeKey(r: SourceTypeRow): nat { r.id }
  function BranchSourceKey(r: BranchSourceRow): nat { r.id }
  function SourceNameKey(r: SourceNameRow): nat { r.id }
  function BranchSourceNameKey(r: BranchSourceNameRow): nat { r.id }

  /** The key the next insert receives: 1 in an empty table, otherwise one
      past the largest key. */
  function Fresh<T>(rows: seq<T>, key: T -> nat): (r: nat)
    ensures r >= 1
    ensures forall i :: 0 <= i < |rows| ==> key(rows[i]) < r
    ensures r == 1 || exists i :: 0 <= i < |rows| && key(rows[i]) == r - 1
  {
    if |rows| == 0 then 1
    else
      var m := Fresh(rows[1..], key);
      assert forall i :: 1 <= i < |rows| ==> rows[i] == rows[1..][i - 1];
      if key(rows[0]) < m then m else key(rows[0]) + 1
  }

  /** `Model.query.get(key)`: the row whose primary key is `key`. Only an
      integer names a row. */
  function Find<T>(rows: seq<T>, key: T -> nat, k: Json): (r: Option<T>)
    ensures r.Some? ==> r.value in rows && k == Num(key(r.value))
    ensures r.None? ==> forall x :: x in rows ==> k != Num(key(x))
  {
    if |rows| == 0 then None
    else if k == Num(key(rows[0])) then Some(rows[0])
    else Find(rows[1..], key, k)
  }

  /** Python's `data[key]`: only a dict with that key answers; anything else
      raises. */
  function Subscript(data: Json, key: string): (r: Option<Json>)
    ensures r.Some? <==> data.Obj? && key in Keys(data.members)
    ensures r.Some? ==> r == Lookup(data.members, key)
  {
    if data.Obj? then Lookup(data.members, key) else None
  }

  /** Python's `data.get(key, default)` on a dict: a key that is present
      gives its value, even `None`. */
  function GetDefault(members: seq<Member>, key: string, default: Json): (r: Json)
    ensures key !in Keys(members) ==> r == default
    ensures key in Keys(members) ==> Some(r) == Lookup(members, key)
  {
    Lookup(members, key).GetOr(default)
  }

  /** What a route hands back: a reply, or an exception that Flask turns into
      a 500 page. */
  datatype Response = Raised | Replied(status: nat, body: Json)

  /** A route's reply together with the store after the commits it made. */
  datatype Outcome = Outcome(response: Response, store: Store)

  function ErrorBody(text: string): Json {
    Obj([Member("error", Str(text))])
  }
}
