/** Counting occurrences: in sequences, and among the items of an in-memory queue. */
module Counts {
  import opened MemQueue

  function One(b: bool): nat {
    if b then 1 else 0
  }

  ghost function Times<T>(s: seq<T>, p: T): nat {
    multiset(s)[p]
  }

  lemma TimesSnoc<T>(s: seq<T>, x: T, p: T)
    ensures Times(s + [x], p) == Times(s, p) + if x == p then 1 else 0
  {
  }

  function Without<A>(s: seq<A>, i: nat): seq<A>
    requires i < |s|
  {
    s[..i] + s[i + 1..]
  }

  /** How many of the items carry the payload. */
  ghost function Carrying<T>(items: seq<Item<T>>, p: T): nat {
    if items == [] then 0
    else Carrying(items[..|items| - 1], p) + if items[|items| - 1].payload == p then 1 else 0
  }

  lemma {:induction false} CarryingAppend<T>(a: seq<Item<T>>, b: seq<Item<T>>, p: T)
    ensures Carrying(a + b, p) == Carrying(a, p) + Carrying(b, p)
  {
    if b == [] {
      assert a + b == a;
    } else {
      CarryingAppend(a, b[..|b| - 1], p);
      assert (a + b)[..|a + b| - 1] == a + b[..|b| - 1];
    }
  }

  lemma CarryingSnoc<T>(items: seq<Item<T>>, item: Item<T>, p: T)
    ensures Carrying(items + [item], p) == Carrying(items, p) + if item.payload == p then 1 else 0
  {
    assert (items + [item])[..|items + [item]| - 1] == items;
  }

  lemma CarryingWithout<T>(items: seq<Item<T>>, i: nat, p: T)
    requires i < |items|
    ensures Carrying(Without(items, i), p) == Carrying(items, p) - if items[i].payload == p then 1 else 0
  {
    hide Carrying;
    var front, back := items[..i], items[i + 1..];
    assert items == (front + [items[i]]) + back;
    CarryingAppend(front + [items[i]], back, p);
    CarryingSnoc(front, items[i], p);
    CarryingAppend(front, back, p);
  }
}
