/**
  The fixed display order of the participants: the home page and the bet-entry
  form sort the users by the position of their horse name in a fixed list of
  names, and names not in the list go to the end.
*/
module NameOrder {
  import opened Types
  import opened Sorting

  const OrderedNames: seq<string> := [
    "ウグイスバレー", "ニンゲンビレッジ", "チェンジドライバ", "エセドバイオー",
    "サイレントイナバ", "ブームオレタ", "ツチサカ", "イトウ",
    "ハンケン", "アサミハズバンド", "オオクボハグルマ", "キンパチティーチャ"
  ]

  /** The first position of `name` in `names`, or -1 (JavaScript's `indexOf`). */
  function IndexOf(names: seq<string>, name: string): (i: int)
    ensures -1 <= i < |names|
    ensures i >= 0 ==> names[i] == name && forall j :: 0 <= j < i ==> names[j] != name
    ensures i == -1 <==> name !in names
  {
    if |names| == 0 then -1
    else if names[0] == name then 0
    else
      var r := IndexOf(names[1..], name);
      assert name in names[1..] ==> name in names;
      assert name in names ==> name == names[0] || name in names[1..];
      if r == -1 then -1 else r + 1
  }

  /** The sort key of a name: its position in the fixed list, or 999 when it is not listed. */
  function OrderIndex(name: string): (k: int)
    ensures name in OrderedNames ==> 0 <= k < |OrderedNames| && OrderedNames[k] == name
    ensures name !in OrderedNames ==> k == 999
  {
    var i := IndexOf(OrderedNames, name);
    if i == -1 then 999 else i
  }

  function UserOrderKey(u: User): int { OrderIndex(u.name) }

  /** The users in display order (a stable sort by `UserOrderKey`). */
  function SortByOrderedNames(users: seq<User>): (r: seq<User>)
    ensures multiset(r) == multiset(users)
    ensures |r| == |users|
  {
    SortByKey(users, UserOrderKey)
  }

  /** Listed names come in list order, and every listed name comes before every unlisted one. */
  lemma DisplayOrder(users: seq<User>, i: int, j: int)
    requires 0 <= i < j < |users|
    ensures var r := SortByOrderedNames(users);
      && (r[i].name in OrderedNames && r[j].name in OrderedNames ==> OrderIndex(r[i].name) <= OrderIndex(r[j].name))
      && (r[j].name in OrderedNames ==> r[i].name in OrderedNames)
  {
    var r := SortByOrderedNames(users);
    assert SortedByKey(r, UserOrderKey);
    assert UserOrderKey(r[i]) <= UserOrderKey(r[j]);
  }

  /** Users with the same sort key, in particular all unlisted ones, keep their relative order. */
  lemma TiesKeepFetchOrder(users: seq<User>, k: int)
    ensures WithKey(SortByOrderedNames(users), UserOrderKey, k) == WithKey(users, UserOrderKey, k)
  {
    SortIsStable(users, UserOrderKey, k);
  }

  /** A list already in display order, such as the fixture users, is left as it is. */
  lemma {:induction false} ListedInOrderIsUnchanged(users: seq<User>)
    requires |users| <= |OrderedNames|
    requires forall i :: 0 <= i < |users| ==> users[i].name == OrderedNames[i]
    ensures SortByOrderedNames(users) == users
  {
    forall i | 0 <= i < |users| ensures UserOrderKey(users[i]) == i {
      var k := IndexOf(OrderedNames, users[i].name);
      assert OrderedNames[i] == users[i].name;
      assert k != -1 && k <= i;
      NamesAreDistinct(k, i);
    }
    SortOfSortedIsIdentity(users, UserOrderKey);
  }

  lemma NamesAreDistinct(i: int, j: int)
    requires 0 <= i <= j < |OrderedNames|
    requires OrderedNames[i] == OrderedNames[j]
    ensures i == j
  {
  }
}
