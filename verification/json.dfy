/** Parsed JSON values as the front end and the Flask routes see them. Objects
    keep their members in document order, as JavaScript objects and Python
    dicts do. A repeated key is read at its first member. */
module Json {
  import opened Wrappers

  datatype Json =
    | Null
    | Bool(b: bool)
    | Num(n: int)
    | Str(s: string)
    | Arr(items: seq<Json>)
    | Obj(members: seq<Member>)

  datatype Member = Member(key: string, value: Json)

  /** The value stored under `key`, or `None` when the key is absent. */
  function Lookup(members: seq<Member>, key: string): (r: Option<Json>)
    ensures r.Some? <==> key in Keys(members)
  {
    if |members| == 0 then None
    else if members[0].key == key then Some(members[0].value)
    else Lookup(members[1..], key)
  }

  /** A key no earlier member carries is looked up at its own position. */
  lemma {:induction false} LookupAt(members: seq<Member>, i: nat)
    requires i < |members|
    requires forall j :: 0 <= j < i ==> members[j].key != members[i].key
    ensures Lookup(members, members[i].key) == Some(members[i].value)
    decreases i
  {
    if i > 0 {
      LookupAt(members[1..], i - 1);
    }
  }

  /** The keys of an object, in order. */
  function Keys(members: seq<Member>): (r: seq<string>)
    ensures |r| == |members|
    ensures forall i :: 0 <= i < |members| ==> r[i] == members[i].key
  {
    if |members| == 0 then [] else [members[0].key] + Keys(members[1..])
  }

  /** JavaScript property read `v.key` on a non-null value: objects answer from
      their members, every other value has no such own property. */
  function Prop(v: Json, key: string): Option<Json> {
    if v.Obj? then Lookup(v.members, key) else None
  }

  /** JavaScript truthiness; `None` is `undefined`. */
  predicate JsTruthy(v: Option<Json>) {
    match v
    case None => false
    case Some(Null) => false
    case Some(Bool(b)) => b
    case Some(Num(n)) => n != 0
    case Some(Str(s)) => s != ""
    case Some(Arr(_)) => true
    case Some(Obj(_)) => true
  }

  /** Python truthiness: empty containers are false as well. */
  predicate PyTruthy(v: Json) {
    match v
    case Null => false
    case Bool(b) => b
    case Num(n) => n != 0
    case Str(s) => s != ""
    case Arr(items) => |items| > 0
    case Obj(members) => |members| > 0
  }

  /** The one-character strings of `s`, in order. */
  function Chars(s: string): (r: seq<Json>)
    ensures |r| == |s|
    ensures forall i :: 0 <= i < |s| ==> r[i] == Str([s[i]])
  {
    if |s| == 0 then [] else [Str([s[0]])] + Chars(s[1..])
  }

  /** The keys of an object as strings, in order. */
  function KeyStrings(members: seq<Member>): (r: seq<Json>)
    ensures |r| == |members|
    ensures forall i :: 0 <= i < |members| ==> r[i] == Str(members[i].key)
  {
    if |members| == 0 then [] else [Str(members[0].key)] + KeyStrings(members[1..])
  }

  /** What a Python `for` loop visits: list items, string characters, dict keys;
      `None` when the value is not iterable and the loop raises `TypeError`. */
  function Iterate(v: Json): (r: Option<seq<Json>>)
    ensures v.Arr? ==> r == Some(v.items)
    ensures r.Some? <==> v.Arr? || v.Str? || v.Obj?
    ensures r.Some? ==> |r.value| == match v
                                     case Arr(items) => |items|
                                     case Str(s) => |s|
                                     case Obj(members) => |members|
                                     case _ => 0
  {
    match v
    case Arr(items) => Some(items)
    case Str(s) => Some(Chars(s))
    case Obj(members) => Some(KeyStrings(members))
    case _ => None
  }
}
