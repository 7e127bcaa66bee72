/** Sorted role names: the list that tokens and sessions carry. */
module Roles {
  import opened Domain

  /** Strings in the order of their characters. */
  predicate Before(a: string, b: string) {
    a == "" || (b != "" && (a[0] < b[0] || (a[0] == b[0] && Before(a[1..], b[1..]))))
  }

  lemma {:induction false} BeforeIsTotalOrder(a: string, b: string, c: string)
    ensures Before(a, a)
    ensures Before(a, b) || Before(b, a)
    ensures Before(a, b) && Before(b, a) ==> a == b
    ensures Before(a, b) && Before(b, c) ==> Before(a, c)
  {
    if a != "" {
      BeforeIsTotalOrder(
        a[1..], if b == "" then b else b[1..], if c == "" then c else c[1..]);
      if b != "" {
        assert a == [a[0]] + a[1..] && b == [b[0]] + b[1..];
      }
    }
  }

  /** The lexical order: a prefix comes first, else the first differing character decides. */
  ghost predicate Precedes(a: string, b: string) {
    || a <= b
    || (exists k :: 0 <= k < |a| && k < |b| && a[..k] == b[..k] && a[k] < b[k])
  }

  lemma {:induction false} BeforeIff(a: string, b: string)
    ensures Before(a, b) <==> Precedes(a, b)
  {
    if a != "" && b != "" {
      BeforeIff(a[1..], b[1..]);
      assert a == [a[0]] + a[1..] && b == [b[0]] + b[1..];
      if a[0] == b[0] {
        SameFirst(a, b);
      } else if a[0] < b[0] {
        assert a[..0] == b[..0];
      } else {
        FirstDecides(a, b);
      }
    }
  }

  lemma SameFirst(a: string, b: string)
    requires a != "" && b != "" && a[0] == b[0]
    ensures Precedes(a, b) <==> Precedes(a[1..], b[1..])
  {
    var x, y := a[1..], b[1..];
    assert a == [a[0]] + x && b == [b[0]] + y;
    if k :| 0 <= k < |x| && k < |y| && x[..k] == y[..k] && x[k] < y[k] {
      assert a[..k + 1] == [a[0]] + x[..k] && b[..k + 1] == [b[0]] + y[..k];
      assert a[k + 1] < b[k + 1];
    }
    if k :| 0 <= k < |a| && k < |b| && a[..k] == b[..k] && a[k] < b[k] {
      assert x[..k - 1] == a[..k][1..] && y[..k - 1] == b[..k][1..];
      assert x[k - 1] < y[k - 1];
    }
  }

  lemma FirstDecides(a: string, b: string)
    requires a != "" && b != "" && a[0] > b[0]
    ensures !Precedes(a, b)
  {
    forall k | 0 < k < |a| && k < |b| ensures a[..k] != b[..k] {
      assert a[..k][0] != b[..k][0];
    }
  }

  predicate Sorted(names: seq<string>) {
    forall i, j :: 0 <= i <= j < |names| ==> Before(names[i], names[j])
  }

  function Insert(name: string, names: seq<string>): seq<string> {
    if names == [] || Before(name, names[0]) then [name] + names
    else [names[0]] + Insert(name, names[1..])
  }

  lemma {:induction false} InsertSorts(name: string, names: seq<string>)
    requires Sorted(names)
    ensures Sorted(Insert(name, names))
    ensures multiset(Insert(name, names)) == multiset(names) + multiset{name}
  {
    if names == [] {
      BeforeIsTotalOrder(name, name, name);
    } else if Before(name, names[0]) {
      BeforeIsTotalOrder(name, name, name);
      forall j | 0 <= j < |names| ensures Before(name, names[j]) {
        BeforeIsTotalOrder(name, names[0], names[j]);
      }
    } else {
      InsertSorts(name, names[1..]);
      assert names == [names[0]] + names[1..];
      var rest := Insert(name, names[1..]);
      BeforeIsTotalOrder(names[0], name, name);
      BeforeIsTotalOrder(names[0], names[0], name);
      forall j | 0 <= j < |rest| ensures Before(names[0], rest[j]) {
        assert rest[j] in multiset(rest);
        assert rest[j] == name || rest[j] in names[1..];
      }
    }
  }

  /** sort.Strings */
  function SortStrings(names: seq<string>): seq<string> {
    if names == [] then [] else Insert(names[0], SortStrings(names[1..]))
  }

  lemma {:induction false} SortStringsSorts(names: seq<string>)
    ensures Sorted(SortStrings(names))
    ensures multiset(SortStrings(names)) == multiset(names) && |SortStrings(names)| == |names|
    ensures forall i, j :: 0 <= i < j < |names| ==> Precedes(SortStrings(names)[i], SortStrings(names)[j])
  {
    if names != [] {
      SortStringsSorts(names[1..]);
      InsertSorts(names[0], SortStrings(names[1..]));
      assert names == [names[0]] + names[1..];
    }
    SortedPrecedes(SortStrings(names));
    assert |multiset(SortStrings(names))| == |multiset(names)|;
  }

  lemma SortedPrecedes(names: seq<string>)
    requires Sorted(names)
    ensures forall i, j :: 0 <= i < j < |names| ==> Precedes(names[i], names[j])
  {
    hide Before, Precedes;
    forall i, j | 0 <= i < j < |names| ensures Precedes(names[i], names[j]) {
      BeforeIff(names[i], names[j]);
    }
  }

  lemma HeadIsLeast(names: seq<string>, name: string)
    requires Sorted(names) && name in names
    ensures Before(names[0], name)
  {
  }

  lemma WithoutAt<T>(xs: seq<T>, i: nat)
    requires i < |xs|
    ensures multiset(xs) == multiset(xs[..i] + xs[i + 1..]) + multiset{xs[i]}
  {
    assert xs == xs[..i] + [xs[i]] + xs[i + 1..];
  }

  lemma Cancel<T>(a: multiset<T>, b: multiset<T>, x: T)
    requires a + multiset{x} == b + multiset{x}
    ensures a == b
  {
    assert a == (a + multiset{x}) - multiset{x};
    assert b == (b + multiset{x}) - multiset{x};
  }

  lemma RemoveBoth<T>(a: seq<T>, b: seq<T>, i: nat)
    requires multiset(a) == multiset(b) && a != [] && i < |b| && b[i] == a[0]
    ensures multiset(a[1..]) == multiset(b[..i] + b[i + 1..])
  {
    WithoutAt(a, 0);
    WithoutAt(b, i);
    assert a[..0] + a[0 + 1..] == a[1..];
    Cancel(multiset(a[1..]), multiset(b[..i] + b[i + 1..]), a[0]);
  }

  lemma SameHead(a: seq<string>, b: seq<string>)
    requires Sorted(a) && Sorted(b) && multiset(a) == multiset(b) && a != []
    ensures b != [] && a[0] == b[0]
  {
    hide Before;
    assert a[0] in multiset(b);
    assert b[0] in multiset(a);
    HeadIsLeast(a, b[0]);
    HeadIsLeast(b, a[0]);
    BeforeIsTotalOrder(a[0], b[0], a[0]);
  }

  lemma TailSorted(names: seq<string>)
    requires Sorted(names) && names != []
    ensures Sorted(names[1..])
  {
    hide Before;
  }

  /** There is one sorted arrangement of a list. */
  lemma {:induction false} SortedIsUnique(a: seq<string>, b: seq<string>)
    requires Sorted(a) && Sorted(b) && multiset(a) == multiset(b)
    ensures a == b
  {
    hide Before, Sorted;
    if a == [] {
      assert |multiset(b)| == 0;
    } else {
      SameHead(a, b);
      RemoveBoth(a, b, 0);
      assert b[..0] + b[0 + 1..] == b[1..];
      TailSorted(a);
      TailSorted(b);
      SortedIsUnique(a[1..], b[1..]);
      assert a == [a[0]] + a[1..] && b == [b[0]] + b[1..];
    }
  }

  function NonEmptyNames(roles: seq<Role>): seq<string> {
    if roles == [] then []
    else NonEmptyNames(roles[..|roles| - 1]) + NameOf(roles[|roles| - 1])
  }

  function NameOf(role: Role): seq<string> {
    if role.name != "" then [role.name] else []
  }

  /** The names that a list of roles puts into tokens and sessions. */
  function RoleNames(roles: seq<Role>): seq<string> {
    SortStrings(NonEmptyNames(roles))
  }

  method ComputeRoleNames(roles: seq<Role>) returns (names: seq<string>)
    ensures names == RoleNames(roles)
    ensures forall i, j :: 0 <= i < j < |names| ==> Precedes(names[i], names[j])
    ensures forall name :: name in names <==> name != "" && exists i :: 0 <= i < |roles| && roles[i].name == name
  {
    hide Before, SortStrings, Precedes;
    names := [];
    for i := 0 to |roles|
      invariant names == NonEmptyNames(roles[..i])
    {
      assert roles[..i + 1][..i] == roles[..i];
      if roles[i].name != "" {
        names := names + [roles[i].name];
      }
    }
    assert roles[..|roles|] == roles;
    names := SortStrings(names);
    RoleNamesAre(roles);
  }

  /** The names in lexical order, and no others. */
  lemma RoleNamesAre(roles: seq<Role>)
    ensures var names := RoleNames(roles);
      && (forall i, j :: 0 <= i < j < |names| ==> Precedes(names[i], names[j]))
      && (forall name :: name in names <==> name != "" && exists i :: 0 <= i < |roles| && roles[i].name == name)
  {
    hide Before, SortStrings, Precedes, NonEmptyNames;
    var names, collected := RoleNames(roles), NonEmptyNames(roles);
    SortStringsSorts(collected);
    forall name ensures name in names <==> name != "" && exists i :: 0 <= i < |roles| && roles[i].name == name {
      assert name in multiset(names) <==> name in multiset(collected);
      NamesOfAll(roles, name);
    }
    forall i, j | 0 <= i < j < |names| ensures Precedes(names[i], names[j]) {
      BeforeIff(names[i], names[j]);
    }
  }

  lemma {:induction false} NamesOfAll(roles: seq<Role>, name: string)
    ensures name in NonEmptyNames(roles) <==> name != "" && exists i :: 0 <= i < |roles| && roles[i].name == name
  {
    if roles != [] {
      var n := |roles| - 1;
      NamesOfAll(roles[..n], name);
      assert NonEmptyNames(roles) == NonEmptyNames(roles[..n]) + NameOf(roles[n]);
      hide NonEmptyNames;
      assert forall i :: 0 <= i < n ==> roles[..n][i] == roles[i];
    }
  }

  lemma NamesOfLast(roles: seq<Role>, role: Role)
    ensures NonEmptyNames(roles + [role]) == NonEmptyNames(roles) + NameOf(role)
  {
    assert (roles + [role])[..|roles|] == roles;
  }

  lemma {:induction false} NamesAround(before: seq<Role>, role: Role, after: seq<Role>)
    ensures multiset(NonEmptyNames(before + [role] + after)) ==
            multiset(NonEmptyNames(before + after)) + multiset(NameOf(role))
  {
    hide NonEmptyNames, NameOf;
    if after == [] {
      assert before + [role] + after == before + [role] && before + after == before;
      NamesOfLast(before, role);
    } else {
      var n := |after| - 1;
      NamesAround(before, role, after[..n]);
      assert before + [role] + after == (before + [role] + after[..n]) + [after[n]];
      assert before + after == (before + after[..n]) + [after[n]];
      NamesOfLast(before + [role] + after[..n], after[n]);
      NamesOfLast(before + after[..n], after[n]);
    }
  }

  lemma NamesAt(roles: seq<Role>, i: nat)
    requires i < |roles|
    ensures multiset(NonEmptyNames(roles)) ==
            multiset(NonEmptyNames(roles[..i] + roles[i + 1..])) + multiset(NameOf(roles[i]))
  {
    hide NonEmptyNames, NameOf;
    NamesAround(roles[..i], roles[i], roles[i + 1..]);
    assert roles == roles[..i] + [roles[i]] + roles[i + 1..];
  }

  lemma {:induction false} NamesOfPermutation(a: seq<Role>, b: seq<Role>)
    requires multiset(a) == multiset(b)
    ensures multiset(NonEmptyNames(a)) == multiset(NonEmptyNames(b))
    decreases |a|
  {
    hide NonEmptyNames, NameOf;
    if a == [] {
      assert |multiset(b)| == 0;
      assert b == a;
    } else {
      assert a[0] in multiset(b);
      var i :| 0 <= i < |b| && b[i] == a[0];
      RemoveBoth(a, b, i);
      NamesOfPermutation(a[1..], b[..i] + b[i + 1..]);
      NamesAt(a, 0);
      assert a[..0] + a[0 + 1..] == a[1..];
      NamesAt(b, i);
    }
  }

  /** The order in which the roles arrive does not matter. */
  lemma RoleNamesIgnoreOrder(a: seq<Role>, b: seq<Role>)
    requires multiset(a) == multiset(b)
    ensures RoleNames(a) == RoleNames(b)
  {
    NamesOfPermutation(a, b);
    SortStringsSorts(NonEmptyNames(a));
    SortStringsSorts(NonEmptyNames(b));
    SortedIsUnique(RoleNames(a), RoleNames(b));
  }
}
