/**
 * Movement directions, their unit vectors, and the duplicate-free stack of held directions.
 */
module Directions {
  import opened Geometry

  datatype Direction = Up | Right | Down | Left

  /** The order of the directions, which is also the order of the rows of a sprite sheet. */
  const Order: seq<Direction> := [Up, Right, Down, Left]

  /** The sheet row of a direction: its position in Order. */
  function Row(d: Direction): (k: nat)
    ensures k < |Order| && Order[k] == d
  {
    match d
    case Up => 0
    case Right => 1
    case Down => 2
    case Left => 3
  }

  /** The unit vector of a direction, in screen coordinates (y grows downwards). */
  function Vector(d: Direction): (v: (int, int))
    ensures (v.0 == 0 && (v.1 == 1 || v.1 == -1)) || (v.1 == 0 && (v.0 == 1 || v.0 == -1))
  {
    match d
    case Up => (0, -1)
    case Right => (1, 0)
    case Down => (0, 1)
    case Left => (-1, 0)
  }

  /** `vector[i]` */
  function Component(d: Direction, i: Axis): int {
    if i == 0 then Vector(d).0 else Vector(d).1
  }

  /** Every direction moves along exactly one axis, by one unit. */
  lemma OneAxisPerDirection(d: Direction, i: Axis)
    ensures Component(d, i) == 0 <==> Component(d, Other(i)) != 0
    ensures Component(d, i) * Component(d, i) + Component(d, Other(i)) * Component(d, Other(i)) == 1
  {
  }

  predicate NoDups(s: seq<Direction>) {
    forall j, k :: 0 <= j < k < |s| ==> s[j] != s[k]
  }

  function Last(s: seq<Direction>): Direction
    requires s != []
  {
    s[|s| - 1]
  }

  /** Python's `list.remove(d)` once `d in s` is known: drop the first occurrence of d. */
  function RemoveFirst(s: seq<Direction>, d: Direction): (r: seq<Direction>)
    requires d in s
    ensures |r| == |s| - 1
    ensures multiset(r) == multiset(s) - multiset{d}
  {
    if s[0] == d then
      assert s == [s[0]] + s[1..];
      s[1..]
    else
      assert s == [s[0]] + s[1..];
      [s[0]] + RemoveFirst(s[1..], d)
  }

  /** Every element of s other than d, in the order of s. */
  function Without(s: seq<Direction>, d: Direction): (r: seq<Direction>)
    ensures forall x :: x in r <==> x in s && x != d
    ensures |r| <= |s|
  {
    if s == [] then []
    else (if s[0] == d then [] else [s[0]]) + Without(s[1..], d)
  }

  lemma {:induction false} WithoutKeepsNoDups(s: seq<Direction>, d: Direction)
    requires NoDups(s)
    ensures NoDups(Without(s, d))
  {
    if s != [] {
      assert NoDups(s[1..]);
      WithoutKeepsNoDups(s[1..], d);
      assert s[0] !in s[1..];
    }
  }

  lemma {:induction false} WithoutAbsent(s: seq<Direction>, d: Direction)
    requires d !in s
    ensures Without(s, d) == s
  {
    if s != [] {
      WithoutAbsent(s[1..], d);
    }
  }

  /** On a duplicate-free list, removing the first occurrence removes every occurrence. */
  lemma {:induction false} RemoveFirstIsWithout(s: seq<Direction>, d: Direction)
    requires NoDups(s) && d in s
    ensures RemoveFirst(s, d) == Without(s, d)
  {
    assert NoDups(s[1..]);
    if s[0] == d {
      assert d !in s[1..];
      WithoutAbsent(s[1..], d);
    } else {
      RemoveFirstIsWithout(s[1..], d);
    }
  }

  /**
   * The stack after holding d (`add_direction`): d moves to, or is added at, the top;
   * the other directions keep their order and nothing is duplicated.
   */
  function Pushed(s: seq<Direction>, d: Direction): (r: seq<Direction>)
    requires NoDups(s)
    ensures NoDups(r) && r != [] && Last(r) == d
    ensures r == Without(s, d) + [d]
    ensures forall x :: x in r <==> x in s || x == d
  {
    WithoutKeepsNoDups(s, d);
    if d in s then RemoveFirstIsWithout(s, d); RemoveFirst(s, d) + [d]
    else WithoutAbsent(s, d); s + [d]
  }

  /**
   * The stack after releasing d (`pop_direction`): d is gone, the others keep their order,
   * and releasing a direction that is not held changes nothing.
   */
  function Popped(s: seq<Direction>, d: Direction): (r: seq<Direction>)
    requires NoDups(s)
    ensures NoDups(r) && d !in r
    ensures r == Without(s, d)
    ensures forall x :: x in r <==> x in s && x != d
    ensures d !in s ==> r == s
  {
    WithoutKeepsNoDups(s, d);
    if d in s then RemoveFirstIsWithout(s, d); RemoveFirst(s, d)
    else WithoutAbsent(s, d); s
  }

  /** Releasing the direction just held restores the stack as it was without it. */
  lemma {:induction false} PopUndoesPush(s: seq<Direction>, d: Direction)
    requires NoDups(s)
    ensures Popped(Pushed(s, d), d) == Without(s, d)
    ensures d !in s ==> Popped(Pushed(s, d), d) == s
  {
    var w := Without(s, d);
    assert d !in w;
    WithoutConcat(w, [d], d);
    WithoutAbsent(w, d);
    assert Without([d], d) == [];
    assert w + [] == w;
    if d !in s { WithoutAbsent(s, d); }
  }

  lemma {:induction false} WithoutConcat(a: seq<Direction>, b: seq<Direction>, d: Direction)
    ensures Without(a + b, d) == Without(a, d) + Without(b, d)
  {
    if a == [] {
      assert a + b == b;
    } else {
      assert (a + b)[1..] == a[1..] + b;
      WithoutConcat(a[1..], b, d);
    }
  }
}
