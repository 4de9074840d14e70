/** The Flask back end of PythonProject/app.py: the login decision, the
    `token_required` header check, the user projection `to_dict`, the
    active-only area and branch listings and the mocked daily-reports reply.
    The database is a list of rows per table; JWT signing and verification are
    oracles passed in by the caller. */
module FlaskApp {
  import opened Wrappers
  import opened Json
  import opened Seqs

  /** A row of the `User` table. Nullable columns are `Option`s. */
  datatype UserRow = UserRow(
    id: int, roleId: int, areaId: int, branchId: int,
    monthlyEncoded: int, dailyEncoded: int,
    userName: Option<string>, firstName: Option<string>, lastName: Option<string>,
    email: Option<string>, passwordHash: Option<string>, isActive: Option<bool>)

  /** A row of the `Area` table. */
  datatype AreaRow = AreaRow(id: int, areaCode: int, areaName: Option<string>,
                             description: Option<string>, isActive: Option<bool>)

  /** A row of the `Branch` table. */
  datatype BranchRow = BranchRow(id: int, areaId: Option<int>, branchCode: Option<int>,
                                 branchName: Option<string>, isActive: Option<bool>)

  /** A reply: HTTP status and JSON body. */
  datatype Reply = Reply(status: nat, body: Json)

  function Message(text: string): Json {
    Obj([Member("message", Str(text))])
  }

  /** How `jsonify` writes a nullable column. */
  function StrOrNull(v: Option<string>): Json {
    if v.Some? then Str(v.value) else Null
  }

  function BoolOrNull(v: Option<bool>): Json {
    if v.Some? then Bool(v.value) else Null
  }

  function IntOrNull(v: Option<int>): Json {
    if v.Some? then Num(v.value) else Null
  }

  /** The keys `User.to_dict` writes, in order. */
  const UserDictKeys: seq<string> := ["id", "roleId", "areaId", "branchId", "monthlyEncoded",
                                      "dailyEncoded", "userName", "firstName", "lastName", "email", "isActive"]

  /** `User.to_dict`: every column except `passwordHash`. */
  function ToDict(u: UserRow): (r: Json)
    ensures r.Obj? && Keys(r.members) == UserDictKeys
    ensures "passwordHash" !in Keys(r.members)
  {
    Obj([Member("id", Num(u.id)), Member("roleId", Num(u.roleId)), Member("areaId", Num(u.areaId)),
         Member("branchId", Num(u.branchId)), Member("monthlyEncoded", Num(u.monthlyEncoded)),
         Member("dailyEncoded", Num(u.dailyEncoded)), Member("userName", StrOrNull(u.userName)),
         Member("firstName", StrOrNull(u.firstName)), Member("lastName", StrOrNull(u.lastName)),
         Member("email", StrOrNull(u.email)), Member("isActive", BoolOrNull(u.isActive))])
  }

  lemma ToDictActiveRead(u: UserRow)
    ensures Prop(ToDict(u), "isActive") == Some(BoolOrNull(u.isActive))
  {
    var m := ToDict(u).members;
    assert |m[0].key| == 2 && m[1].key[0] == 'r' && m[2].key[0] == 'a' && m[3].key[0] == 'b' && m[4].key[0] == 'm';
    assert m[5].key[0] == 'd' && m[6].key[0] == 'u' && m[7].key[0] == 'f' && m[8].key[0] == 'l' && m[9].key[0] == 'e';
    LookupAt(m, 10);
  }

  /** The projection loses exactly the password hash: two users with the same
      dictionary agree on every other column, and the hash never shows. */
  lemma ToDictForgetsOnlyPassword(u: UserRow, v: UserRow)
    ensures ToDict(u) == ToDict(v) <==> u.(passwordHash := None) == v.(passwordHash := None)
  {
    if ToDict(u) == ToDict(v) {
      var m, n := ToDict(u).members, ToDict(v).members;
      assert m[6].value == n[6].value && m[7].value == n[7].value;
      assert m[8].value == n[8].value && m[9].value == n[9].value && m[10].value == n[10].value;
    }
  }

  /** The first user whose `userName` is the given string
      (`User.query.filter_by(userName=...).first()`, rows in table order). */
  function FindByName(users: seq<UserRow>, name: string): (r: Option<UserRow>)
    ensures r.Some? ==> r.value in users && r.value.userName == Some(name)
    ensures r.None? <==> forall i :: 0 <= i < |users| ==> users[i].userName != Some(name)
  {
    if |users| == 0 then None
    else if users[0].userName == Some(name) then Some(users[0])
    else FindByName(users[1..], name)
  }

  /** The user whose primary key is `id` (`User.query.get`). */
  function FindById(users: seq<UserRow>, id: int): (r: Option<UserRow>)
    ensures r.Some? ==> r.value in users && r.value.id == id
    ensures r.None? <==> forall i :: 0 <= i < |users| ==> users[i].id != id
  {
    if |users| == 0 then None
    else if users[0].id == id then Some(users[0])
    else FindById(users[1..], id)
  }

  /** What the login handler receives from `request.get_json()`: `Raised` when
      the call itself fails (wrong content type or a body that is not JSON). */
  datatype LoginBody = Raised | Parsed(data: Json)

  /** `data.get(key)` on a dict. */
  function Get(members: seq<Member>, key: string): Json {
    Lookup(members, key).GetOr(Null)
  }

  /** `login()`. `sign(id)` is the JWT for that user id; `failure` is the text of
      the exception that turns into a 500. */
  function Login(body: LoginBody, users: seq<UserRow>, sign: int -> string, failure: string): (r: Reply)
    ensures body.Parsed? && !PyTruthy(body.data) ==> r == Reply(400, Message("Missing username or password"))
    ensures r.status == 200 ==>
              body.Parsed? && body.data.Obj? && Get(body.data.members, "username").Str?
              && var user := FindByName(users, Get(body.data.members, "username").s);
              && user.Some? && Get(body.data.members, "password") == StrOrNull(user.value.passwordHash) && user.value.isActive == Some(true)
              && r.body == Obj([Member("token", Str(sign(user.value.id))), Member("user", ToDict(user.value))])
    ensures r.status in {200, 400, 401, 500}
  {
    match body
    case Raised => Reply(500, Message("Login failed: " + failure))
    case Parsed(data) =>
      if !PyTruthy(data) then Reply(400, Message("Missing username or password"))
      else if !data.Obj? then Reply(500, Message("Login failed: " + failure))
      else
        var username := Get(data.members, "username");
        var password := Get(data.members, "password");
        if !PyTruthy(username) || !PyTruthy(password) then Reply(400, Message("Missing username or password"))
        else
          var user := if username.Str? then FindByName(users, username.s) else None;
          if user.None? || !(user.value.passwordHash.Some? && password == Str(user.value.passwordHash.value)) then
            Reply(401, Message("Invalid username or password"))
          else if user.value.isActive != Some(true) then
            Reply(401, Message("Account is inactive"))
          else
            Reply(200, Obj([Member("token", Str(sign(user.value.id))), Member("user", ToDict(user.value))]))
  }

  /** A login request carrying the given username and password strings. */
  function Credentials(username: string, password: string): LoginBody {
    Parsed(Obj([Member("username", Str(username)), Member("password", Str(password))]))
  }

  lemma CredentialsRead(username: string, password: string)
    ensures Get(Credentials(username, password).data.members, "username") == Str(username)
    ensures Get(Credentials(username, password).data.members, "password") == Str(password)
  {
    var m := Credentials(username, password).data.members;
    assert m[0].key[0] == 'u';
    assert Lookup(m, "password") == Lookup(m[1..], "password");
  }

  /** An empty username or password is refused with 400, whoever is in the table. */
  lemma EmptyCredentialsRefused(username: string, password: string, users: seq<UserRow>, sign: int -> string, failure: string)
    requires username == "" || password == ""
    ensures Login(Credentials(username, password), users, sign, failure) == Reply(400, Message("Missing username or password"))
  {
    CredentialsRead(username, password);
  }

  /** An unknown name, or a password other than the stored hash, gets 401
      "Invalid username or password". */
  lemma WrongCredentialsRefused(username: string, password: string, users: seq<UserRow>, sign: int -> string, failure: string)
    requires username != "" && password != ""
    requires var user := FindByName(users, username);
             user.None? || user.value.passwordHash != Some(password)
    ensures Login(Credentials(username, password), users, sign, failure) == Reply(401, Message("Invalid username or password"))
  {
    CredentialsRead(username, password);
  }

  /** The password is checked before the active flag: an inactive user hears
      "Account is inactive" only with the right password. */
  lemma InactiveUserRefused(username: string, password: string, users: seq<UserRow>, sign: int -> string, failure: string)
    requires username != "" && password != ""
    requires var user := FindByName(users, username);
             user.Some? && user.value.isActive != Some(true)
    ensures var r := Login(Credentials(username, password), users, sign, failure);
            r.status == 401
            && (r.body == Message("Account is inactive") <==> FindByName(users, username).value.passwordHash == Some(password))
  {
    CredentialsRead(username, password);
  }

  /** The right password of an active user yields the token for that user's id
      and the user's dictionary. */
  lemma ActiveUserLogsIn(username: string, password: string, users: seq<UserRow>, sign: int -> string, failure: string)
    requires username != "" && password != ""
    requires var user := FindByName(users, username);
             user.Some? && user.value.passwordHash == Some(password) && user.value.isActive == Some(true)
    ensures var user := FindByName(users, username).value;
            Login(Credentials(username, password), users, sign, failure)
            == Reply(200, Obj([Member("token", Str(sign(user.id))), Member("user", ToDict(user))]))
  {
    CredentialsRead(username, password);
  }

  /** The position of the first space. */
  function FirstSpace(s: string): (i: nat)
    requires ' ' in s
    ensures i < |s| && s[i] == ' ' && ' ' !in s[..i]
  {
    if s[0] == ' ' then 0
    else
      var j := FirstSpace(s[1..]);
      assert s[..j + 1] == [s[0]] + s[1..][..j];
      j + 1
  }

  /** Python's `s.split(' ')[1]`: the text after the first space up to the next
      space or the end; `None` when there is no space, where the index raises. */
  function SecondField(s: string): (r: Option<string>)
    ensures r.None? <==> ' ' !in s
    ensures r.Some? ==> ' ' !in r.value
  {
    if ' ' !in s then None else Some(UpToSpace(s[FirstSpace(s) + 1..]))
  }

  /** The longest prefix without a space. */
  function UpToSpace(s: string): (r: string)
    ensures ' ' !in r
    ensures |r| <= |s| && s[..|r|] == r
    ensures |r| < |s| ==> s[|r|] == ' '
  {
    if |s| == 0 || s[0] == ' ' then "" else [s[0]] + UpToSpace(s[1..])
  }

  /** What `token_required` decides before running the handler. */
  datatype Gate = Denied(reply: Reply) | Admitted(user: UserRow)

  /** `token_required`: `header` is the Authorization header, `decode(t)` the
      payload `jwt.decode` returns for `t` or `None` when it raises. */
  function Authorize(header: Option<string>, decode: string -> Option<Json>, users: seq<UserRow>): (r: Gate)
    ensures header.None? || header == Some("") ==> r == Denied(Reply(401, Message("Token is missing")))
    ensures r.Admitted? ==>
              && r.user in users
              && header.Some? && SecondField(header.value).Some?
              && var p := decode(SecondField(header.value).value);
              && p.Some? && p.value.Obj? && Lookup(p.value.members, "user_id") == Some(Num(r.user.id))
    ensures header.Some? && header.value != "" && !Decodes(header.value, decode) ==>
              r == Denied(Reply(401, Message("Token is invalid")))
    ensures header.Some? && Decodes(header.value, decode)
            && (forall u :: u in users ==> Lookup(decode(SecondField(header.value).value).value.members, "user_id") != Some(Num(u.id)))
            ==> r == Denied(Reply(401, Message("User not found")))
    ensures r.Denied? ==> r.reply.status == 401
  {
    if header.None? || header.value == "" then Denied(Reply(401, Message("Token is missing")))
    else
      var token := SecondField(header.value);
      if token.None? then Denied(Reply(401, Message("Token is invalid")))
      else
        var payload := decode(token.value);
        if payload.None? || !payload.value.Obj? || Lookup(payload.value.members, "user_id").None? then
          Denied(Reply(401, Message("Token is invalid")))
        else
          var id := Lookup(payload.value.members, "user_id").value;
          var user := if id.Num? then FindById(users, id.n) else None;
          if user.None? then Denied(Reply(401, Message("User not found")))
          else Admitted(user.value)
  }

  /** The header's second field decodes to a dict carrying `user_id`. */
  predicate Decodes(header: string, decode: string -> Option<Json>) {
    var token := SecondField(header);
    && token.Some?
    && var p := decode(token.value);
    && p.Some? && p.value.Obj? && Lookup(p.value.members, "user_id").Some?
  }

  /** A header without a space never reaches the decoder. */
  lemma NoSpaceIsInvalid(header: string, decode: string -> Option<Json>, users: seq<UserRow>)
    requires header != "" && ' ' !in header
    ensures Authorize(Some(header), decode, users) == Denied(Reply(401, Message("Token is invalid")))
  {
  }

  /** The scheme word is never checked: any first word works as well as "Bearer". */
  lemma SchemeIgnored(scheme: string, other: string, token: string, decode: string -> Option<Json>, users: seq<UserRow>)
    requires ' ' !in scheme && ' ' !in other && ' ' !in token
    ensures Authorize(Some(scheme + " " + token), decode, users) == Authorize(Some(other + " " + token), decode, users)
  {
    SecondFieldAfterWord(scheme, token);
    SecondFieldAfterWord(other, token);
  }

  lemma SecondFieldAfterWord(word: string, token: string)
    requires ' ' !in word && ' ' !in token
    ensures SecondField(word + " " + token) == Some(token)
  {
    var s := word + " " + token;
    assert s[|word|] == ' ' && s[..|word|] == word;
    var i := FirstSpace(s);
    assert i == |word|;
    assert s[i + 1..] == token;
    UpToSpaceWhole(token);
  }

  lemma {:induction false} UpToSpaceWhole(s: string)
    requires ' ' !in s
    ensures UpToSpace(s) == s
  {
    if |s| > 0 {
      UpToSpaceWhole(s[1..]);
    }
  }

  /** A valid token for an id in the table admits exactly that user. */
  lemma ValidTokenAdmits(word: string, token: string, decode: string -> Option<Json>, users: seq<UserRow>, id: int)
    requires ' ' !in word && ' ' !in token
    requires decode(token).Some? && decode(token).value.Obj?
    requires Lookup(decode(token).value.members, "user_id") == Some(Num(id))
    requires exists i :: 0 <= i < |users| && users[i].id == id
    ensures Authorize(Some(word + " " + token), decode, users) == Admitted(FindById(users, id).value)
  {
    SecondFieldAfterWord(word, token);
  }

  /** `/areas`: the active areas, each as the dictionary the route writes. */
  function AreaJson(a: AreaRow): (r: Json)
    ensures r.Obj? && Keys(r.members) == ["id", "areaCode", "areaName", "description", "isActive"]
  {
    Obj([Member("id", Num(a.id)), Member("areaCode", Num(a.areaCode)), Member("areaName", StrOrNull(a.areaName)),
         Member("description", StrOrNull(a.description)), Member("isActive", BoolOrNull(a.isActive))])
  }

  lemma AreaActiveRead(a: AreaRow)
    ensures Prop(AreaJson(a), "isActive") == Some(BoolOrNull(a.isActive))
  {
    var m := AreaJson(a).members;
    assert |m[0].key| == 2 && m[1].key[0] == 'a' && m[2].key[0] == 'a' && m[3].key[0] == 'd';
    assert Lookup(m, "isActive") == Lookup(m[1..], "isActive") == Lookup(m[2..], "isActive")
        == Lookup(m[3..], "isActive") == Lookup(m[4..], "isActive");
  }

  predicate AreaActive(a: AreaRow) {
    a.isActive == Some(true)
  }

  function ActiveAreas(areas: seq<AreaRow>): (r: Json)
    ensures r.Arr? && |r.items| <= |areas|
    ensures forall a :: AreaJson(a) in r.items <==> a in areas && AreaActive(a)
    ensures forall i :: 0 <= i < |r.items| ==> Prop(r.items[i], "isActive") == Some(Bool(true))
    ensures |r.items| == |Filter(areas, AreaActive)| == |Matches(areas, AreaActive)|
    ensures forall i :: 0 <= i < |r.items| ==> r.items[i] == AreaJson(Filter(areas, AreaActive)[i])
  {
    var kept := Filter(areas, AreaActive);
    FilterLengthCountsMatches(areas, AreaActive);
    var items := seq(|kept|, i requires 0 <= i < |kept| => AreaJson(kept[i]));
    FilterMembers(areas, AreaActive);
    AreaJsonInjective();
    forall i | 0 <= i < |items| ensures Prop(items[i], "isActive") == Some(Bool(true)) {
      AreaActiveRead(kept[i]);
    }
    assert forall a :: AreaJson(a) in items <==> a in kept by {
      forall a ensures AreaJson(a) in items <==> a in kept {
        if a in kept {
          var i :| 0 <= i < |kept| && kept[i] == a;
          assert items[i] == AreaJson(a);
        }
      }
    }
    Arr(items)
  }

  lemma AreaJsonInjective()
    ensures forall a, b :: AreaJson(a) == AreaJson(b) ==> a == b
  {
    forall a, b | AreaJson(a) == AreaJson(b) ensures a == b {
      var m, n := AreaJson(a).members, AreaJson(b).members;
      assert m[2].value == n[2].value && m[3].value == n[3].value && m[4].value == n[4].value;
    }
  }

  /** `/branches`: the active branches, each as the dictionary the route writes. */
  function BranchJson(b: BranchRow): (r: Json)
    ensures r.Obj? && Keys(r.members) == ["id", "areaId", "branchCode", "branchName", "isActive"]
  {
    Obj([Member("id", Num(b.id)), Member("areaId", IntOrNull(b.areaId)), Member("branchCode", IntOrNull(b.branchCode)),
         Member("branchName", StrOrNull(b.branchName)), Member("isActive", BoolOrNull(b.isActive))])
  }

  lemma BranchActiveRead(b: BranchRow)
    ensures Prop(BranchJson(b), "isActive") == Some(BoolOrNull(b.isActive))
  {
    var m := BranchJson(b).members;
    assert |m[0].key| == 2 && m[1].key[0] == 'a' && m[2].key[0] == 'b' && m[3].key[0] == 'b';
    assert Lookup(m, "isActive") == Lookup(m[1..], "isActive") == Lookup(m[2..], "isActive")
        == Lookup(m[3..], "isActive") == Lookup(m[4..], "isActive");
  }

  predicate BranchActive(b: BranchRow) {
    b.isActive == Some(true)
  }

  function ActiveBranches(branches: seq<BranchRow>): (r: Json)
    ensures r.Arr? && |r.items| <= |branches|
    ensures forall b :: BranchJson(b) in r.items <==> b in branches && BranchActive(b)
    ensures forall i :: 0 <= i < |r.items| ==> Prop(r.items[i], "isActive") == Some(Bool(true))
    ensures |r.items| == |Filter(branches, BranchActive)| == |Matches(branches, BranchActive)|
    ensures forall i :: 0 <= i < |r.items| ==> r.items[i] == BranchJson(Filter(branches, BranchActive)[i])
  {
    var kept := Filter(branches, BranchActive);
    FilterLengthCountsMatches(branches, BranchActive);
    var items := seq(|kept|, i requires 0 <= i < |kept| => BranchJson(kept[i]));
    FilterMembers(branches, BranchActive);
    BranchJsonInjective();
    forall i | 0 <= i < |items| ensures Prop(items[i], "isActive") == Some(Bool(true)) {
      BranchActiveRead(kept[i]);
    }
    assert forall a :: BranchJson(a) in items <==> a in kept by {
      forall a ensures BranchJson(a) in items <==> a in kept {
        if a in kept {
          var i :| 0 <= i < |kept| && kept[i] == a;
          assert items[i] == BranchJson(a);
        }
      }
    }
    Arr(items)
  }

  lemma BranchJsonInjective()
    ensures forall a, b :: BranchJson(a) == BranchJson(b) ==> a == b
  {
    forall a, b | BranchJson(a) == BranchJson(b) ensures a == b {
      var m, n := BranchJson(a).members, BranchJson(b).members;
      assert m[1].value == n[1].value && m[2].value == n[2].value;
      assert m[3].value == n[3].value && m[4].value == n[4].value;
    }
  }

  /** `/users`: every user, active or not, as its dictionary. */
  function AllUsers(users: seq<UserRow>): (r: Json)
    ensures r.Arr? && |r.items| == |users|
    ensures forall i :: 0 <= i < |users| ==> r.items[i] == ToDict(users[i])
  {
    Arr(seq(|users|, i requires 0 <= i < |users| => ToDict(users[i])))
  }

  /** `/daily-reports`: a fixed mock report dated `today`, wrapped in an object. */
  function DailyReports(today: string): (r: Json)
    ensures r.Obj? && Keys(r.members) == ["message", "data"]
  {
    Obj([Member("message", Str("Daily reports retrieved successfully")),
         Member("data", Arr([Obj([Member("id", Num(1)), Member("date", Str(today)), Member("area", Str("JV")),
                                  Member("branch", Str("Lipa")), Member("status", Str("Completed"))])]))])
  }
}
