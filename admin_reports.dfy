// The administrator's reports: the bar chart of users per account type.

module AdminReports {
  import opened Js
  import opened Records
  import opened Sorting

  /** The label of a user without a usable type. */
  const Unclassified := "Sin clasificar"

  /** One bar of the chart: a type and its number of users. */
  datatype Bar = Bar(kind: string, value: nat)

  /** The type a user counts under: the trimmed `type` when it is a non-blank string,
    * `'Sin clasificar'` otherwise. */
  function TypeOf(u: User): string
  {
    if u.userType.Str? && Trim(u.userType.s) != [] then Trim(u.userType.s) else Unclassified
  }

  /** A type label is never blank and never padded; a usable `type` is kept, trimmed, and
    * anything else is unclassified. */
  lemma TypeOfFacts(u: User)
    ensures TypeOf(u) != [] && IsTrimmed(TypeOf(u))
    ensures u.userType.Str? && Trim(u.userType.s) != [] ==> TypeOf(u) == Trim(u.userType.s)
    ensures !u.userType.Str? || Trim(u.userType.s) == [] ==> TypeOf(u) == Unclassified
  {
  }

  /** The users of a type. */
  function TypeCount(users: seq<User>, t: string): nat
  {
    if users == [] then 0
    else TypeCount(users[..|users| - 1], t) + (if TypeOf(users[|users| - 1]) == t then 1 else 0)
  }

  /** The types in the order the `Map` first sees them. */
  function Seen(users: seq<User>): seq<string>
  {
    if users == [] then []
    else
      var t := TypeOf(users[|users| - 1]);
      var before := Seen(users[..|users| - 1]);
      if t in before then before else before + [t]
  }

  /** Where a type first occurs among the users (the length when it never does). */
  function FirstUse(users: seq<User>, t: string): (k: nat)
    ensures k <= |users|
    ensures k < |users| ==> TypeOf(users[k]) == t
    ensures forall j :: 0 <= j < k ==> TypeOf(users[j]) != t
  {
    hide TypeOf;
    if users == [] then 0
    else if TypeOf(users[0]) == t then 0
    else FirstUse(users[1..], t) + 1
  }

  /** The chart `countByType` hands over: a bar per type seen, with that type's users. */
  function TypeCounts(users: seq<User>): (bars: seq<Bar>)
    ensures |bars| == |Seen(users)|
  {
    var seen := Seen(users);
    seq(|seen|, i requires 0 <= i < |seen| => Bar(seen[i], TypeCount(users, seen[i])))
  }

  function BarValue(b: Bar): int
  {
    b.value
  }

  /** `buckets.get(type)`: the position of the type's bar, or the length when there is none. */
  function LabelIndex(bars: seq<Bar>, t: string): (k: nat)
    ensures k <= |bars|
    ensures k < |bars| ==> bars[k].kind == t
    ensures forall j :: 0 <= j < k ==> bars[j].kind != t
  {
    KeyIndex(bars, (b: Bar) => b.kind, t)
  }

  // ---------------------------------------------------------------- properties of the chart

  lemma CountSnoc(users: seq<User>, u: User, t: string)
    ensures TypeCount(users + [u], t) == TypeCount(users, t) + (if TypeOf(u) == t then 1 else 0)
  {
    hide TypeOf;
    assert (users + [u])[..|users|] == users;
  }

  /** A type has users exactly when some user is of that type. */
  lemma {:induction false} CountedIffPresent(users: seq<User>, t: string)
    ensures TypeCount(users, t) > 0 <==> exists i :: 0 <= i < |users| && TypeOf(users[i]) == t
    ensures TypeCount(users, t) <= |users|
  {
    hide TypeOf;
    if users != [] {
      var init := users[..|users| - 1];
      CountedIffPresent(init, t);
      if exists i :: 0 <= i < |init| && TypeOf(init[i]) == t {
        var i :| 0 <= i < |init| && TypeOf(init[i]) == t;
        assert users[i] == init[i];
      }
      if exists i :: 0 <= i < |users| && TypeOf(users[i]) == t {
        var i :| 0 <= i < |users| && TypeOf(users[i]) == t;
        if i < |init| { assert init[i] == users[i]; }
      }
    }
  }

  /** The types seen are distinct, and a type is seen exactly when it has users. */
  lemma {:induction false} SeenFacts(users: seq<User>)
    ensures forall i, j :: 0 <= i < j < |Seen(users)| ==> Seen(users)[i] != Seen(users)[j]
    ensures forall t :: t in Seen(users) <==> TypeCount(users, t) > 0
  {
    hide TypeOf;
    if users != [] {
      var init := users[..|users| - 1];
      SeenFacts(init);
      forall t ensures TypeCount(users, t) == TypeCount(init, t) + (if TypeOf(users[|users| - 1]) == t then 1 else 0) {
        assert users == init + [users[|users| - 1]];
        CountSnoc(init, users[|users| - 1], t);
      }
    }
  }

  /** A type that already occurs keeps its first occurrence when a user is appended; a new
    * type first occurs at the appended user. */
  lemma FirstUseSnoc(init: seq<User>, u: User, s: string)
    ensures FirstUse(init, s) < |init| ==> FirstUse(init + [u], s) == FirstUse(init, s)
    ensures FirstUse(init, s) == |init| && TypeOf(u) == s ==> FirstUse(init + [u], s) == |init|
  {
    hide TypeOf;
    var users := init + [u];
    var k, k' := FirstUse(init, s), FirstUse(users, s);
    if k < |init| {
      assert users[k] == init[k];
    } else if TypeOf(u) == s {
      assert users[|init|] == u;
    }
  }

  /** The bars come in the order in which their types first occur among the users. */
  lemma {:induction false} SeenInFirstUseOrder(users: seq<User>)
    ensures forall i, j :: 0 <= i < j < |Seen(users)| ==> FirstUse(users, Seen(users)[i]) < FirstUse(users, Seen(users)[j])
    ensures forall i :: 0 <= i < |Seen(users)| ==> FirstUse(users, Seen(users)[i]) < |users|
  {
    hide TypeOf, FirstUse, TypeCount;
    if users != [] {
      var init := users[..|users| - 1];
      var u := users[|users| - 1];
      var t := TypeOf(u);
      assert users == init + [u];
      SeenInFirstUseOrder(init);
      forall s | s in Seen(init) ensures FirstUse(users, s) == FirstUse(init, s) {
        FirstUseSnoc(init, u, s);
      }
      if t !in Seen(init) {
        SeenFacts(init);
        CountedIffPresent(init, t);
        FirstUseSnoc(init, u, t);
      }
    }
  }

  /** Counting one more user: its type's bar goes up by one, or a bar of one is appended
    * when the type is new. */
  lemma TypeCountsSnoc(init: seq<User>, u: User)
    ensures var t, bars := TypeOf(u), TypeCounts(init);
            var k := LabelIndex(bars, t);
            TypeCounts(init + [u]) == if k < |bars| then bars[k := Bar(t, bars[k].value + 1)] else bars + [Bar(t, 1)]
  {
    hide TypeOf, LabelIndex;
    var t, bars := TypeOf(u), TypeCounts(init);
    var users := init + [u];
    var k := LabelIndex(bars, t);
    assert users[..|users| - 1] == init;
    SeenFacts(init);
    forall s ensures TypeCount(users, s) == TypeCount(init, s) + (if t == s then 1 else 0) {
      CountSnoc(init, u, s);
    }
    var r := TypeCounts(users);
    if k < |bars| {
      assert t in Seen(init);
      assert Seen(users) == Seen(init);
      forall i | 0 <= i < |r| ensures r[i] == bars[k := Bar(t, bars[k].value + 1)][i] {
        if i != k { assert Seen(init)[i] != t; }
      }
    } else {
      assert t !in Seen(init) by {
        forall i | 0 <= i < |Seen(init)| ensures Seen(init)[i] != t {
          assert bars[i].kind == Seen(init)[i];
        }
      }
      assert Seen(users) == Seen(init) + [t];
      forall i | 0 <= i < |r| ensures r[i] == (bars + [Bar(t, 1)])[i] {
        if i < |bars| { assert Seen(init)[i] != t; }
      }
    }
  }

  /** The bars add up to the number of users. */
  lemma {:induction false} CountsSumToUsers(users: seq<User>)
    ensures SumInt(TypeCounts(users), BarValue) == |users|
  {
    hide TypeOf;
    if users != [] {
      var init := users[..|users| - 1];
      var u := users[|users| - 1];
      assert users == init + [u];
      CountsSumToUsers(init);
      TypeCountsSnoc(init, u);
      var bars := TypeCounts(init);
      var k := LabelIndex(bars, TypeOf(u));
      if k < |bars| {
        SumIntUpdate(bars, k, Bar(TypeOf(u), bars[k].value + 1), BarValue);
      } else {
        SumIntSnoc(bars, Bar(TypeOf(u), 1), BarValue);
      }
    }
  }

  /** Every bar has at least one user, and no two bars share a type. */
  lemma BarsPositiveDistinct(users: seq<User>)
    ensures forall i :: 0 <= i < |TypeCounts(users)| ==> TypeCounts(users)[i].value >= 1
    ensures forall i, j :: 0 <= i < j < |TypeCounts(users)| ==> TypeCounts(users)[i].kind != TypeCounts(users)[j].kind
    ensures forall i :: 0 <= i < |users| ==> exists k :: 0 <= k < |TypeCounts(users)| && TypeCounts(users)[k].kind == TypeOf(users[i])
  {
    hide TypeOf;
    SeenFacts(users);
    var bars := TypeCounts(users);
    forall i | 0 <= i < |users|
      ensures exists k :: 0 <= k < |bars| && bars[k].kind == TypeOf(users[i])
    {
      CountedIffPresent(users, TypeOf(users[i]));
      var k :| 0 <= k < |Seen(users)| && Seen(users)[k] == TypeOf(users[i]);
      assert bars[k].kind == TypeOf(users[i]);
    }
  }

  // ---------------------------------------------------------------- countByType

  /** `countByType`: the users counted per type in a `Map`, its entries in insertion order. */
  method CountByType(users: seq<User>) returns (bars: seq<Bar>)
    ensures bars == TypeCounts(users)
  {
    hide TypeOf, TypeCount;
    bars := [];
    var i := 0;
    assert TypeCounts(users[..0]) == [];
    hide TypeCounts;
    while i < |users|
      invariant 0 <= i <= |users|
      invariant bars == TypeCounts(users[..i])
    {
      var t := TypeOf(users[i]);
      var k := LabelIndex(bars, t);
      TypeCountsSnoc(users[..i], users[i]);
      assert users[..i + 1] == users[..i] + [users[i]];
      if k < |bars| {
        bars := bars[k := Bar(t, bars[k].value + 1)];
      } else {
        bars := bars + [Bar(t, 1)];
      }
      i := i + 1;
    }
    assert users[..i] == users;
  }
}
