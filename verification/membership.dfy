/**
 * Membership lists of game servers. Removing a player from a server is
 * `List.remove(Object)`: the first occurrence goes, any later ones stay.
 */
module Membership {
  import opened Entities

  /**
   * Removes the first occurrence of every id in `gone` from `xs`, keeping the
   * order of what remains. Ids of `gone` absent from `xs` are ignored.
   */
  function RemoveOnce(xs: seq<PlayerId>, gone: set<PlayerId>): (r: seq<PlayerId>)
    ensures multiset(r) == multiset(xs) - multiset(gone)
    ensures |r| <= |xs|
    ensures (forall x :: x in gone ==> x !in xs) ==> r == xs
    decreases |xs|
  {
    if xs == [] then []
    else
      assert xs == [xs[0]] + xs[1..];
      if xs[0] in gone then
        assert multiset(gone) == multiset{xs[0]} + multiset(gone - {xs[0]});
        RemoveOnce(xs[1..], gone - {xs[0]})
      else
        [xs[0]] + RemoveOnce(xs[1..], gone)
  }

  /** Removing ids never introduces an id. */
  lemma RemoveOnceKeepsOnly(xs: seq<PlayerId>, gone: set<PlayerId>)
    ensures forall x :: x in RemoveOnce(xs, gone) ==> x in xs
  {
    var r := RemoveOnce(xs, gone);
    forall x | x in r ensures x in xs {
      assert x in multiset(r);
    }
  }

  /** `r` is `xs` without the first occurrence of `x`, the rest in order. */
  predicate FirstOccurrenceRemoved(xs: seq<PlayerId>, x: PlayerId, r: seq<PlayerId>) {
    exists i :: 0 <= i < |xs| && xs[i] == x && x !in xs[..i] && r == xs[..i] + xs[i + 1..]
  }

  /**
   * Removes the first occurrence of `x` from `xs`: everything before it and
   * everything after it stays, in order.
   */
  function RemoveFirst(xs: seq<PlayerId>, x: PlayerId): (r: seq<PlayerId>)
    ensures x in xs ==> FirstOccurrenceRemoved(xs, x, r)
    ensures x in xs ==> |r| == |xs| - 1 && multiset(r)[x] == multiset(xs)[x] - 1
    ensures x !in xs ==> r == xs
    ensures forall y :: y != x ==> multiset(r)[y] == multiset(xs)[y]
    ensures multiset(xs)[x] <= 1 ==> x !in r
    decreases |xs|
  {
    if xs == [] then []
    else if xs[0] == x then
      assert xs[..0] == [] && xs == [xs[0]] + xs[1..];
      xs[1..]
    else
      var rest := RemoveFirst(xs[1..], x);
      assert xs == [xs[0]] + xs[1..];
      assert x in xs ==> FirstOccurrenceRemoved(xs, x, [xs[0]] + rest) by {
        if x in xs {
          assert x in xs[1..];
          SplitAfterHead(xs, x, rest);
        }
      }
      [xs[0]] + rest
  }

  /** A list removal takes exactly one `x` out of the multiset, or nothing when there is none. */
  lemma RemoveFirstMultiset(xs: seq<PlayerId>, x: PlayerId)
    ensures multiset(RemoveFirst(xs, x)) == multiset(xs) - multiset{x}
  {
    var r := RemoveFirst(xs, x);
    if x in xs {
      assert multiset(r) == multiset(xs) - multiset{x} by {
        forall y ensures multiset(r)[y] == (multiset(xs) - multiset{x})[y] {
        }
      }
    }
  }

  /** Removing `x` from the tail, after a head other than `x`, removes its first occurrence from the whole list. */
  lemma SplitAfterHead(xs: seq<PlayerId>, x: PlayerId, rest: seq<PlayerId>)
    requires xs != [] && xs[0] != x
    requires FirstOccurrenceRemoved(xs[1..], x, rest)
    ensures FirstOccurrenceRemoved(xs, x, [xs[0]] + rest)
  {
    var i :| 0 <= i < |xs[1..]| && xs[1..][i] == x && x !in xs[1..][..i] && rest == xs[1..][..i] + xs[1..][i + 1..];
    assert xs[..i + 1] == [xs[0]] + xs[1..][..i];
    assert xs[i + 2..] == xs[1..][i + 1..];
    assert xs[i + 1] == x && x !in xs[..i + 1] && [xs[0]] + rest == xs[..i + 1] + xs[i + 1 + 1..];
  }

  /**
   * Taking the ids of `gone` off one at a time, `x` first, gives the same
   * list as taking them off together: each removal takes the first
   * occurrence, and removing one id does not move the first occurrence of
   * another.
   */
  lemma {:induction false} RemoveOnceStepwise(xs: seq<PlayerId>, gone: set<PlayerId>, x: PlayerId)
    requires x in gone
    ensures RemoveOnce(xs, gone) == RemoveOnce(RemoveFirst(xs, x), gone - {x})
    decreases |xs|
  {
    if xs != [] {
      var y := xs[0];
      if y != x {
        var rest := RemoveFirst(xs[1..], x);
        assert RemoveFirst(xs, x) == [y] + rest;
        assert ([y] + rest)[1..] == rest;
        if y in gone {
          RemoveOnceStepwise(xs[1..], gone - {y}, x);
          assert gone - {y} - {x} == gone - {x} - {y};
        } else {
          RemoveOnceStepwise(xs[1..], gone, x);
        }
      }
    }
  }

  /** `List.remove` applied once per id of `order`, in that order. */
  function RemoveEach(xs: seq<PlayerId>, order: seq<PlayerId>): (r: seq<PlayerId>)
    ensures |r| <= |xs|
    decreases |order|
  {
    if order == [] then xs else RemoveEach(RemoveFirst(xs, order[0]), order[1..])
  }

  /**
   * Removing distinct ids one at a time, in any order, leaves the list that
   * removing them together leaves.
   */
  lemma {:induction false} RemoveEachIsRemoveOnce(xs: seq<PlayerId>, order: seq<PlayerId>)
    requires forall i, j :: 0 <= i < j < |order| ==> order[i] != order[j]
    ensures RemoveEach(xs, order) == RemoveOnce(xs, set x | x in order)
    decreases |order|
  {
    if order != [] {
      var x := order[0];
      RemoveEachIsRemoveOnce(RemoveFirst(xs, x), order[1..]);
      TailIds(order);
      RemoveOnceStepwise(xs, (set y | y in order), x);
    }
  }

  /** Without repetitions, the ids after the head are all the ids but the head. */
  lemma TailIds(order: seq<PlayerId>)
    requires order != []
    requires forall i, j :: 0 <= i < j < |order| ==> order[i] != order[j]
    ensures (set y | y in order[1..]) == (set y | y in order) - {order[0]}
  {
    assert order == [order[0]] + order[1..];
    forall y | y in order[1..] ensures y != order[0] {
      var j :| 0 <= j < |order[1..]| && order[1..][j] == y;
      assert order[j + 1] == y;
    }
  }
}
