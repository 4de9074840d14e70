/** The dashboard page of mis-react-web/src/pages/dashboard.tsx: which stat
    cards a role sees, which provider entry feeds them, and the value a card
    shows. */
module DashboardCards {
  import opened Wrappers
  import opened Seqs
  import opened Session

  /** The `valueKey`s of the cards. */
  datatype ValueKey = ActiveUsers | Areas | Branches | Pending | Approved | Declined | Encoded

  datatype Card = Card(title: string, valueKey: ValueKey)

  /** `dashboardItems`, in display order. */
  const DashboardItems: seq<Card> := [
    Card("Active Users", ActiveUsers),
    Card("Areas", Areas),
    Card("Branches", Branches),
    Card("Total Pending", Pending),
    Card("Approved", Approved),
    Card("Rejected", Declined),
    Card("Total Encoded", Encoded)
  ]

  /** `visibleCardsbyRole[role]`; `None` is `undefined`. */
  function VisibleCardsByRole(role: int): Option<seq<ValueKey>> {
    if role == 1 || role == 2 then Some([ActiveUsers, Areas, Branches, Approved])
    else if role == 3 then Some([ActiveUsers, Approved, Pending])
    else if role == 4 then Some([Approved, Encoded, Pending, Declined])
    else None
  }

  /** `user?.Role || 0`. */
  function RoleKey(user: Option<UserProfile>): int {
    if user.Some? && user.value.role != 0 then user.value.role else 0
  }

  /** The card test: `visibleCardsbyRole[role]?.includes(item.valueKey)`. */
  predicate IsShown(user: Option<UserProfile>, c: Card) {
    var keys := VisibleCardsByRole(RoleKey(user));
    keys.Some? && c.valueKey in keys.value
  }

  function ShownTo(user: Option<UserProfile>): Card -> bool {
    (c: Card) => IsShown(user, c)
  }

  /** `visibleItems`: the cards the user's role lists, in dashboard order. */
  function VisibleItems(user: Option<UserProfile>): (r: seq<Card>)
    ensures forall c :: c in r <==> c in DashboardItems && IsShown(user, c)
    ensures IsSubsequence(r, DashboardItems)
  {
    FilterMembers(DashboardItems, ShownTo(user));
    FilterIsSubsequence(DashboardItems, ShownTo(user));
    Filter(DashboardItems, ShownTo(user))
  }

  /** With no user, or a role other than 1 to 4, no card is shown. */
  lemma NoRoleNoCards(user: Option<UserProfile>)
    requires user.None? || !(1 <= user.value.role <= 4)
    ensures VisibleItems(user) == []
  {
    assert VisibleCardsByRole(RoleKey(user)).None?;
    FilterDropsAll(DashboardItems, ShownTo(user));
  }

  /** Roles 1 and 2 see Active Users, Areas, Branches and Approved. */
  lemma CardsForRolesOneAndTwo(user: UserProfile)
    requires user.role == 1 || user.role == 2
    ensures VisibleItems(Some(user)) == [Card("Active Users", ActiveUsers), Card("Areas", Areas),
                                         Card("Branches", Branches), Card("Approved", Approved)]
  {
    var k := RoleKey(Some(user));
    assert k == 1 || k == 2;
    CardsForManagers(Some(user));
  }

  lemma CardsForManagers(user: Option<UserProfile>)
    requires VisibleCardsByRole(RoleKey(user)) == Some([ActiveUsers, Areas, Branches, Approved])
    ensures VisibleItems(user) == [Card("Active Users", ActiveUsers), Card("Areas", Areas),
                                   Card("Branches", Branches), Card("Approved", Approved)]
  {
    var d := DashboardItems;
    var keep := ShownTo(user);
    assert keep(d[0]) && keep(d[1]) && keep(d[2]) && !keep(d[3]) && keep(d[4]) && !keep(d[5]) && !keep(d[6]);
    assert d == [d[0]] + ([d[1]] + ([d[2]] + ([d[3]] + ([d[4]] + ([d[5]] + [d[6]])))));
    SevenKeepingFirstThreeAndFifth(d[0], d[1], d[2], d[3], d[4], d[5], d[6], keep);
  }

  /** Role 3 sees Active Users, Total Pending and Approved. */
  lemma CardsForRoleThree(user: UserProfile)
    requires user.role == 3
    ensures VisibleItems(Some(user)) == [Card("Active Users", ActiveUsers), Card("Total Pending", Pending),
                                         Card("Approved", Approved)]
  {
    var d := DashboardItems;
    var keep := ShownTo(Some(user));
    assert keep(d[0]) && !keep(d[1]) && !keep(d[2]) && keep(d[3]) && keep(d[4]) && !keep(d[5]) && !keep(d[6]) by {
      assert VisibleCardsByRole(RoleKey(Some(user))) == Some([ActiveUsers, Approved, Pending]);
    }
    assert d == [d[0]] + ([d[1]] + ([d[2]] + ([d[3]] + ([d[4]] + ([d[5]] + [d[6]])))));
    SevenKeepingFirstFourthAndFifth(d[0], d[1], d[2], d[3], d[4], d[5], d[6], keep);
  }

  /** Role 4 sees Total Pending, Approved, Rejected and Total Encoded. */
  lemma CardsForRoleFour(user: UserProfile)
    requires user.role == 4
    ensures VisibleItems(Some(user)) == [Card("Total Pending", Pending), Card("Approved", Approved),
                                         Card("Rejected", Declined), Card("Total Encoded", Encoded)]
  {
    var d := DashboardItems;
    var keep := ShownTo(Some(user));
    assert !keep(d[0]) && !keep(d[1]) && !keep(d[2]) && keep(d[3]) && keep(d[4]) && keep(d[5]) && keep(d[6]) by {
      assert VisibleCardsByRole(RoleKey(Some(user))) == Some([Approved, Encoded, Pending, Declined]);
    }
    assert d == [d[0]] + ([d[1]] + ([d[2]] + ([d[3]] + ([d[4]] + ([d[5]] + [d[6]])))));
    SevenKeepingLastFour(d[0], d[1], d[2], d[3], d[4], d[5], d[6], keep);
  }

  lemma SevenKeepingFirstThreeAndFifth(a: Card, b: Card, c: Card, d: Card, e: Card, f: Card, g: Card, keep: Card -> bool)
    requires keep(a) && keep(b) && keep(c) && !keep(d) && keep(e) && !keep(f) && !keep(g)
    ensures Filter([a] + ([b] + ([c] + ([d] + ([e] + ([f] + [g]))))), keep) == [a, b, c, e]
  {
    assert [g] == [g] + [];
    FilterDroppedHead(g, [], keep);
    FilterDroppedHead(f, [g], keep);
    FilterKeptHead(e, [f] + [g], keep);
    FilterDroppedHead(d, [e] + ([f] + [g]), keep);
    FilterKeptHead(c, [d] + ([e] + ([f] + [g])), keep);
    FilterKeptHead(b, [c] + ([d] + ([e] + ([f] + [g]))), keep);
    FilterKeptHead(a, [b] + ([c] + ([d] + ([e] + ([f] + [g])))), keep);
  }

  lemma SevenKeepingFirstFourthAndFifth(a: Card, b: Card, c: Card, d: Card, e: Card, f: Card, g: Card, keep: Card -> bool)
    requires keep(a) && !keep(b) && !keep(c) && keep(d) && keep(e) && !keep(f) && !keep(g)
    ensures Filter([a] + ([b] + ([c] + ([d] + ([e] + ([f] + [g]))))), keep) == [a, d, e]
  {
    assert [g] == [g] + [];
    FilterDroppedHead(g, [], keep);
    FilterDroppedHead(f, [g], keep);
    FilterKeptHead(e, [f] + [g], keep);
    FilterKeptHead(d, [e] + ([f] + [g]), keep);
    FilterDroppedHead(c, [d] + ([e] + ([f] + [g])), keep);
    FilterDroppedHead(b, [c] + ([d] + ([e] + ([f] + [g]))), keep);
    FilterKeptHead(a, [b] + ([c] + ([d] + ([e] + ([f] + [g])))), keep);
  }

  lemma SevenKeepingLastFour(a: Card, b: Card, c: Card, d: Card, e: Card, f: Card, g: Card, keep: Card -> bool)
    requires !keep(a) && !keep(b) && !keep(c) && keep(d) && keep(e) && keep(f) && keep(g)
    ensures Filter([a] + ([b] + ([c] + ([d] + ([e] + ([f] + [g]))))), keep) == [d, e, f, g]
  {
    assert [g] == [g] + [];
    FilterKeptHead(g, [], keep);
    FilterKeptHead(f, [g], keep);
    FilterKeptHead(e, [f] + [g], keep);
    FilterKeptHead(d, [e] + ([f] + [g]), keep);
    FilterDroppedHead(c, [d] + ([e] + ([f] + [g])), keep);
    FilterDroppedHead(b, [c] + ([d] + ([e] + ([f] + [g]))), keep);
    FilterDroppedHead(a, [b] + ([c] + ([d] + ([e] + ([f] + [g])))), keep);
  }

  /** One entry of the dashboard data provider. */
  datatype RoleData = RoleData(role: int, values: map<ValueKey, int>)

  /** The page's effect on `user`: the first provider entry for the user's role
      becomes the dashboard data; with no user or no such entry the data stays. */
  function SelectRoleData(user: Option<UserProfile>, provider: seq<RoleData>, current: map<ValueKey, int>): (r: map<ValueKey, int>)
    ensures user.None? ==> r == current
    ensures user.Some? && (forall i :: 0 <= i < |provider| ==> provider[i].role != user.value.role) ==> r == current
    ensures user.Some? ==> forall i :: 0 <= i < |provider| && provider[i].role == user.value.role
                                       && (forall j :: 0 <= j < i ==> provider[j].role != user.value.role)
                                       ==> r == provider[i].values
  {
    if user.None? || |provider| == 0 then current
    else if provider[0].role == user.value.role then provider[0].values
    else
      var r := SelectRoleData(user, provider[1..], current);
      assert forall i :: 1 <= i < |provider| ==> provider[i] == provider[1..][i - 1];
      r
  }

  /** `dashboardData[valueKey] ?? 0`: a key the data lacks shows 0. */
  function DisplayedValue(data: map<ValueKey, int>, key: ValueKey): (v: int)
    ensures key !in data ==> v == 0
    ensures key in data ==> v == data[key]
  {
    if key in data then data[key] else 0
  }
}
