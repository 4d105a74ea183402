/** Unsubscribing from the listener list: `indexOf`, the `splice` that takes
    the found entry out, and what one or two unsubscribes do to the list. */
module Listeners {

  /** `s.indexOf(x)`: the first index holding `x`, or -1. */
  method IndexOf<L(==)>(s: seq<L>, x: L) returns (i: int)
    ensures -1 <= i < |s|
    ensures i == -1 <==> x !in s
    ensures 0 <= i ==> s[i] == x && x !in s[..i]
  {
    i := 0;
    while i < |s|
      invariant 0 <= i <= |s|
      invariant x !in s[..i]
    {
      if s[i] == x {
        return;
      }
      assert s[..i + 1] == s[..i] + [s[i]];
      i := i + 1;
    }
    assert s[..i] == s;
    i := -1;
  }

  /** The list after unsubscribing `x`: its first occurrence is taken out. */
  function RemoveFirst<L(==)>(s: seq<L>, x: L): (r: seq<L>)
    ensures x !in s ==> r == s
    ensures x in s ==> |r| == |s| - 1
  {
    if s == [] then []
    else if s[0] == x then s[1..]
    else [s[0]] + RemoveFirst(s[1..], x)
  }

  /** Unsubscribing takes exactly one copy of the listener out, if there is one. */
  lemma {:induction false} RemoveFirstMultiset<L>(s: seq<L>, x: L)
    ensures multiset(RemoveFirst(s, x)) == multiset(s) - multiset{x}
  {
    if s != [] {
      assert s == [s[0]] + s[1..];
      if s[0] != x {
        RemoveFirstMultiset(s[1..], x);
      }
    }
  }

  /** What `splice(index, 1)` at the index `indexOf` found does is `RemoveFirst`,
      and every other listener keeps its relative order. */
  lemma {:induction false} RemoveFirstAt<L>(s: seq<L>, x: L, k: int)
    requires 0 <= k < |s| && s[k] == x && x !in s[..k]
    ensures RemoveFirst(s, x) == s[..k] + s[k + 1..]
  {
    if k == 0 {
      assert RemoveFirst(s, x) == s[1..];
    } else {
      var t := s[1..];
      assert s[0] != x by {
        assert s[0] == s[..k][0];
      }
      assert x !in t[..k - 1] by {
        assert t[..k - 1] == s[..k][1..];
      }
      RemoveFirstAt(t, x, k - 1);
      calc {
        RemoveFirst(s, x);
        [s[0]] + RemoveFirst(t, x);
        [s[0]] + (t[..k - 1] + t[k..]);
        { assert [s[0]] + t[..k - 1] == s[..k]; assert t[k..] == s[k + 1..]; }
        s[..k] + s[k + 1..];
      }
    }
  }

  /** Unsubscribing a listener that was subscribed once takes it out entirely,
      so a second unsubscribe leaves the list unchanged. */
  lemma UnsubscribeTwiceIsOnce<L>(s: seq<L>, x: L)
    requires multiset(s)[x] <= 1
    ensures x !in RemoveFirst(s, x)
    ensures RemoveFirst(RemoveFirst(s, x), x) == RemoveFirst(s, x)
  {
    RemoveFirstMultiset(s, x);
    assert multiset(RemoveFirst(s, x))[x] == 0;
  }

  /** Unsubscribing one listener does not disturb the others: every other
      listener stays subscribed as often as it was. */
  lemma UnsubscribeKeepsOthers<L>(s: seq<L>, x: L, y: L)
    requires y != x
    ensures multiset(RemoveFirst(s, x))[y] == multiset(s)[y]
  {
    RemoveFirstMultiset(s, x);
  }
}
