// Byte-wise string order and sorting, as sort.Strings does it.

module Sorting {
  predicate Less(a: string, b: string) {
    b != [] && (a == [] || a[0] < b[0] || (a[0] == b[0] && Less(a[1..], b[1..])))
  }

  predicate StrictlyAscending(names: seq<string>) {
    forall i, j :: 0 <= i < j < |names| ==> Less(names[i], names[j])
  }

  ghost function Elements(names: seq<string>): set<string> {
    set name | name in names
  }

  lemma {:induction false} LessIsTotal(a: string, b: string)
    ensures Less(a, b) || Less(b, a) || a == b
  {
    if a != [] && b != [] && a[0] == b[0] {
      LessIsTotal(a[1..], b[1..]);
      assert a == [a[0]] + a[1..] && b == [b[0]] + b[1..];
    }
  }

  lemma {:induction false} LessIsStrict(a: string, b: string)
    requires Less(a, b)
    ensures a != b && !Less(b, a)
  {
    if a != [] && a[0] == b[0] {
      LessIsStrict(a[1..], b[1..]);
    }
  }

  lemma {:induction false} LessIsTransitive(a: string, b: string, c: string)
    requires Less(a, b) && Less(b, c)
    ensures Less(a, c)
  {
    if a != [] && a[0] == b[0] && b[0] == c[0] {
      LessIsTransitive(a[1..], b[1..], c[1..]);
    }
  }

  // Places a new name in an ascending list.
  function Place(name: string, names: seq<string>): (r: seq<string>)
    ensures multiset(r) == multiset(names) + multiset{name}
  {
    if names == [] || Less(name, names[0]) then
      [name] + names
    else
      assert names == [names[0]] + names[1..];
      [names[0]] + Place(name, names[1..])
  }

  function Sort(names: seq<string>): (r: seq<string>)
    ensures multiset(r) == multiset(names)
  {
    if names == [] then []
    else
      assert names == [names[0]] + names[1..];
      Place(names[0], Sort(names[1..]))
  }

  lemma {:induction false} PlaceKeepsOrder(name: string, names: seq<string>)
    requires StrictlyAscending(names) && name !in names
    ensures StrictlyAscending(Place(name, names))
  {
    if names == [] {
    } else if Less(name, names[0]) {
      forall j | 0 < j < |names| ensures Less(name, names[j]) {
        LessIsTransitive(name, names[0], names[j]);
      }
    } else {
      LessIsTotal(name, names[0]);
      assert names[0] in names;
      PlaceKeepsOrder(name, names[1..]);
      var rest := Place(name, names[1..]);
      forall j | 0 <= j < |rest| ensures Less(names[0], rest[j]) {
        assert rest[j] in multiset(rest);
        assert rest[j] in multiset(names[1..]) || rest[j] == name;
      }
    }
  }

  predicate Distinct(names: seq<string>) {
    forall i, j :: 0 <= i < j < |names| ==> names[i] != names[j]
  }

  lemma ElementsOfAppend(names: seq<string>, name: string)
    ensures Elements(names + [name]) == Elements(names) + {name}
  {
    forall n ensures n in names + [name] <==> n in names || n == name {
      if n == name {
        assert (names + [name])[|names|] == n;
      }
    }
  }

  lemma {:induction false} SortAscends(names: seq<string>)
    requires Distinct(names)
    ensures StrictlyAscending(Sort(names))
    ensures Elements(Sort(names)) == Elements(names)
  {
    if names != [] {
      SortAscends(names[1..]);
      assert names[0] !in names[1..];
      assert names[0] !in Sort(names[1..]) by {
        assert names[0] !in multiset(names[1..]);
        assert multiset(Sort(names[1..])) == multiset(names[1..]);
      }
      PlaceKeepsOrder(names[0], Sort(names[1..]));
    }
    forall name ensures name in Sort(names) <==> name in names {
      assert name in Sort(names) <==> name in multiset(Sort(names));
      assert name in names <==> name in multiset(names);
    }
  }

  // There is only one strictly ascending list of a given set of names.
  lemma {:induction false} AscendingIsUnique(a: seq<string>, b: seq<string>)
    requires StrictlyAscending(a) && StrictlyAscending(b) && Elements(a) == Elements(b)
    ensures a == b
  {
    NoElements(a);
    NoElements(b);
    if a != [] {
      HeadIsLeast(a, b);
      TailElements(a);
      TailElements(b);
      AscendingIsUnique(a[1..], b[1..]);
      assert a == [a[0]] + a[1..] && b == [b[0]] + b[1..];
    }
  }

  lemma NoElements(a: seq<string>)
    ensures Elements(a) == {} <==> a == []
  {
    if a != [] {
      assert a[0] in Elements(a);
    }
  }

  lemma HeadIsLeast(a: seq<string>, b: seq<string>)
    requires a != [] && b != [] && StrictlyAscending(a) && StrictlyAscending(b) && Elements(a) == Elements(b)
    ensures a[0] == b[0]
  {
    assert a[0] in Elements(b) && b[0] in Elements(a);
    var i :| 0 <= i < |b| && b[i] == a[0];
    var j :| 0 <= j < |a| && a[j] == b[0];
    if i != 0 && j != 0 {
      LessIsStrict(b[0], b[i]);
    }
  }

  lemma TailElements(a: seq<string>)
    requires a != [] && StrictlyAscending(a)
    ensures Elements(a[1..]) == Elements(a) - {a[0]}
  {
    forall i | 0 < i < |a| ensures a[i] != a[0] {
      LessIsStrict(a[0], a[i]);
    }
    forall name ensures name in a[1..] <==> name in a && name != a[0] {
      if name in a && name != a[0] {
        var i :| 0 <= i < |a| && a[i] == name;
        assert a[1..][i - 1] == name;
      }
    }
  }

  // The ascending list of a set, collected in any order and then sorted.
  method Ascending(names: set<string>) returns (list: seq<string>)
    ensures StrictlyAscending(list) && Elements(list) == names
  {
    list := [];
    var left := names;
    while left != {}
      invariant left <= names
      invariant Distinct(list) && Elements(list) == names - left
      decreases left
    {
      var name :| name in left;
      assert name !in Elements(list);
      ElementsOfAppend(list, name);
      list, left := list + [name], left - {name};
    }
    SortAscends(list);
    list := Sort(list);
  }

  // Equal up to i, where a ends or has the smaller byte.
  ghost predicate SmallerAt(a: string, b: string, i: nat) {
    i <= |a| && i < |b| && a[..i] == b[..i] && (i == |a| || a[i] < b[i])
  }

  // The order is the lexicographic one.
  lemma {:induction false} LessMeans(a: string, b: string)
    ensures Less(a, b) <==> exists i: nat :: SmallerAt(a, b, i)
  {
    if a == [] || b == [] || a[0] != b[0] {
      FirstDecides(a, b);
    } else {
      LessMeans(a[1..], b[1..]);
      RestDecides(a, b);
    }
  }

  lemma SmallerLater(a: string, b: string, i: nat)
    requires SmallerAt(a, b, i) && i > 0
    ensures a != [] && b != [] && a[0] == b[0]
  {
    assert a[..i][0] == b[..i][0];
  }

  lemma FirstDecides(a: string, b: string)
    requires a == [] || b == [] || a[0] != b[0]
    ensures (exists i: nat :: SmallerAt(a, b, i)) <==> SmallerAt(a, b, 0)
  {
    forall i: nat | SmallerAt(a, b, i)
      ensures i == 0
    {
      if i > 0 {
        SmallerLater(a, b, i);
      }
    }
  }

  lemma OneEarlier(a: string, b: string, i: nat)
    requires a != [] && b != [] && a[0] == b[0]
    ensures SmallerAt(a, b, i + 1) <==> SmallerAt(a[1..], b[1..], i)
  {
    if i < |a| && i + 1 < |b| {
      assert a[..i + 1] == [a[0]] + a[1..][..i] && b[..i + 1] == [b[0]] + b[1..][..i];
      assert a[1..][..i] == a[..i + 1][1..] && b[1..][..i] == b[..i + 1][1..];
    }
  }

  lemma RestDecides(a: string, b: string)
    requires a != [] && b != [] && a[0] == b[0]
    ensures (exists i: nat :: SmallerAt(a, b, i)) <==> exists i: nat :: SmallerAt(a[1..], b[1..], i)
  {
    if i: nat :| SmallerAt(a, b, i) {
      OneEarlier(a, b, i - 1);
    }
    if i: nat :| SmallerAt(a[1..], b[1..], i) {
      OneEarlier(a, b, i);
    }
  }
}
