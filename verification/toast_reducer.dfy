/** The reducer of the toast store, as a pure function from the current list of
    toasts (newest first) and a tagged action to the next list. The timers that
    the DISMISS branch schedules are computed here by `DismissTargets` and
    carried out by `ToastStore.Store.Reducer`. */
module ToastReducer {
  import opened ToastTypes

  /** `TOAST_LIMIT`: how many toasts the list keeps. */
  const ToastLimit: nat := 1

  datatype Action =
    | Add(toast: Toast)
    | Update(patch: Patch)
    | Dismiss(toastId: Option<string>)
    | Remove(toastId: Option<string>)

  function Min(a: int, b: int): int
  {
    if a < b then a else b
  }

  /** ADD: the new toast in front of the list, which is then cut to `limit`
      entries. The new toast goes in front and
      the oldest entries are the ones cut off. */
  function AddToast(s: seq<Toast>, t: Toast, limit: nat): (r: seq<Toast>)
    ensures |r| == Min(|s| + 1, limit)
    ensures |r| > 0 ==> r[0] == t && r[1..] == s[..|r| - 1]
  {
    ([t] + s)[..Min(|s| + 1, limit)]
  }

  /** An UPDATE patch applies to a toast when its id is present and equal. */
  predicate Matches(t: Toast, p: Patch)
  {
    p.id == Some(t.id)
  }

  /** A matching toast with the patch spread over it: its id stays, its fields are overlaid. */
  function Merge(t: Toast, p: Patch): Toast
  {
    Toast(t.id, Overlay(t.fields, p.fields))
  }

  /** UPDATE: each toast whose id equals the patch id gets the patch merged in;
      the others are kept as they are. */
  function UpdateToasts(s: seq<Toast>, p: Patch): (r: seq<Toast>)
    ensures |r| == |s|
    ensures Ids(r) == Ids(s)
  {
    seq(|s|, i requires 0 <= i < |s| => if Matches(s[i], p) then Merge(s[i], p) else s[i])
  }

  /** The toast with `open` set to false. */
  function Close(t: Toast): Toast
  {
    Toast(t.id, t.fields.(open := Some(false)))
  }

  /** DISMISS: each toast whose id equals the given id is closed, or every toast
      when no id is given; the others are kept as they are. */
  function DismissToasts(s: seq<Toast>, toastId: Option<string>): (r: seq<Toast>)
    ensures |r| == |s|
    ensures Ids(r) == Ids(s)
  {
    seq(|s|, i requires 0 <= i < |s| =>
      if toastId == Some(s[i].id) || toastId.None? then Close(s[i]) else s[i])
  }

  /** REMOVE with an id: the toasts whose id differs, in order. */
  function RemoveToasts(s: seq<Toast>, id: string): (r: seq<Toast>)
    ensures |r| <= |s|
    ensures forall t :: t in r <==> t in s && t.id != id
  {
    if s == [] then []
    else if s[0].id == id then RemoveToasts(s[1..], id)
    else [s[0]] + RemoveToasts(s[1..], id)
  }

  /** The next list of toasts for an action. ADD puts the new toast first and
      keeps at most `ToastLimit` entries; UPDATE and DISMISS keep the ids in
      place; REMOVE keeps only old entries with another id, and without an id
      empties the list. */
  function Reduce(s: seq<Toast>, a: Action): (r: seq<Toast>)
    ensures a.Add? ==> |r| <= ToastLimit && |r| > 0 && r[0] == a.toast
    ensures a.Update? || a.Dismiss? ==> Ids(r) == Ids(s)
    ensures a.Remove? ==> forall t :: t in r ==> t in s && a.toastId != Some(t.id)
    ensures a == Remove(None) ==> r == []
  {
    match a
    case Add(t) => AddToast(s, t, ToastLimit)
    case Update(p) => UpdateToasts(s, p)
    case Dismiss(toastId) => DismissToasts(s, toastId)
    case Remove(None) => []
    case Remove(Some(id)) => RemoveToasts(s, id)
  }

  /** JavaScript truthiness of an optional id: absent and "" are both false. */
  predicate Truthy(toastId: Option<string>)
  {
    toastId.Some? && toastId.value != ""
  }

  /** The ids for which the DISMISS branch calls `addToRemoveQueue`, in call
      order: the given id when it is truthy, otherwise every toast's id. */
  function DismissTargets(s: seq<Toast>, toastId: Option<string>): (r: seq<string>)
    ensures forall x :: x in r ==> x in Ids(s) || toastId == Some(x)
    ensures forall i :: 0 <= i < |s| && (toastId.None? || toastId == Some(s[i].id)) ==> s[i].id in r
    ensures Truthy(toastId) ==> r == [toastId.value]
  {
    assert forall i :: 0 <= i < |s| ==> Ids(s)[i] == s[i].id;
    if Truthy(toastId) then [toastId.value] else Ids(s)
  }

  // ---------------------------------------------------------------------
  // ADD
  // ---------------------------------------------------------------------

  /** Adding toasts one after another into an empty list, oldest first. */
  function AddAll(ts: seq<Toast>, limit: nat): seq<Toast>
  {
    if ts == [] then [] else AddToast(AddAll(ts[..|ts| - 1], limit), ts[|ts| - 1], limit)
  }

  function Reversed(ts: seq<Toast>): (r: seq<Toast>)
    ensures |r| == |ts|
    ensures forall i :: 0 <= i < |ts| ==> r[i] == ts[|ts| - 1 - i]
  {
    if ts == [] then [] else [ts[|ts| - 1]] + Reversed(ts[..|ts| - 1])
  }

  /** After adding `ts` in order, the list holds exactly `min(|ts|, limit)`
      toasts: the most recently added ones, newest first. */
  lemma {:induction false} AddAllKeepsNewest(ts: seq<Toast>, limit: nat)
    ensures AddAll(ts, limit) == Reversed(ts)[..Min(|ts|, limit)]
  {
    if ts != [] {
      var init, t := ts[..|ts| - 1], ts[|ts| - 1];
      AddAllKeepsNewest(init, limit);
      var prev := Reversed(init)[..Min(|init|, limit)];
      var n := Min(|ts|, limit);
      assert Reversed(ts) == [t] + Reversed(init);
      assert AddToast(prev, t, limit) == ([t] + prev)[..n];
      assert ([t] + prev)[..n] == Reversed(ts)[..n] by {
        forall i | 0 <= i < n
          ensures ([t] + prev)[..n][i] == Reversed(ts)[..n][i]
        {
          if i > 0 {
            assert ([t] + prev)[i] == prev[i - 1];
          }
        }
      }
    }
  }

  /** With the limit 1 of this store, a second toast evicts the first, after
      which an update aimed at the first one changes nothing. */
  lemma SecondToastEvictsFirst(first: Toast, second: Toast, props: Fields)
    requires first.id != second.id
    ensures Reduce(Reduce([], Add(first)), Add(second)) == [second]
    ensures var s := Reduce(Reduce([], Add(first)), Add(second));
      Reduce(s, Update(Patch(Some(first.id), props))) == s
  {
    var s := Reduce(Reduce([], Add(first)), Add(second));
    assert s == [second];
    assert UpdateToasts(s, Patch(Some(first.id), props))[0] == second;
  }

  /** A fresh toast keeps the ids of the list unique, whatever the limit. */
  lemma AddFreshKeepsIdsUnique(s: seq<Toast>, t: Toast, limit: nat)
    requires UniqueIds(s)
    requires t.id !in Ids(s)
    ensures UniqueIds(AddToast(s, t, limit))
  {
    var r := AddToast(s, t, limit);
    forall i, j | 0 <= i < j < |r| ensures r[i].id != r[j].id {
      assert r[j] == r[1..][j - 1] == s[j - 1];
      if i == 0 {
        assert Ids(s)[j - 1] == s[j - 1].id;
      } else {
        assert r[i] == r[1..][i - 1] == s[i - 1];
      }
    }
  }

  // ---------------------------------------------------------------------
  // UPDATE
  // ---------------------------------------------------------------------

  /** UPDATE merges the patch into exactly the entries with its id and leaves
      every other entry as it was. */
  lemma UpdateTouchesOnlyMatches(s: seq<Toast>, p: Patch, i: int)
    requires 0 <= i < |s|
    ensures UpdateToasts(s, p)[i] != s[i] ==> Matches(s[i], p)
    ensures Matches(s[i], p) ==> UpdateToasts(s, p)[i].fields == Overlay(s[i].fields, p.fields)
  {
  }

  /** Updating an id that is not in the list (or a patch without an id) is a no-op. */
  lemma UpdateAbsentIsNoop(s: seq<Toast>, p: Patch)
    requires p.id.None? || p.id.value !in Ids(s)
    ensures UpdateToasts(s, p) == s
  {
    var r := UpdateToasts(s, p);
    forall i | 0 <= i < |s| ensures r[i] == s[i] {
      assert Ids(s)[i] == s[i].id;
    }
  }

  /** Applying the same update twice is applying it once. */
  lemma UpdateIdempotent(s: seq<Toast>, p: Patch)
    ensures UpdateToasts(UpdateToasts(s, p), p) == UpdateToasts(s, p)
  {
    var r := UpdateToasts(s, p);
    forall i | 0 <= i < |s| ensures UpdateToasts(r, p)[i] == r[i] {
      OverlayAssociativeIdempotent(s[i].fields, p.fields, p.fields);
    }
  }

  // ---------------------------------------------------------------------
  // DISMISS
  // ---------------------------------------------------------------------

  /** DISMISS changes nothing but visibility: the targeted entries (the one
      with the id, or all of them when no id is given) become `open: false`,
      and every other entry is left exactly as it was. */
  lemma DismissOnlyCloses(s: seq<Toast>, toastId: Option<string>, i: int)
    requires 0 <= i < |s|
    ensures var r := DismissToasts(s, toastId);
      && r[i].id == s[i].id
      && r[i].fields.(open := None) == s[i].fields.(open := None)
      && (toastId.None? || toastId == Some(s[i].id) ==> r[i].fields.open == Some(false))
      && (toastId.Some? && toastId.value != s[i].id ==> r[i] == s[i])
  {
  }

  /** Dismissing twice is dismissing once. */
  lemma DismissIdempotent(s: seq<Toast>, toastId: Option<string>)
    ensures DismissToasts(DismissToasts(s, toastId), toastId) == DismissToasts(s, toastId)
  {
  }

  /** The empty id is falsy, so DISMISS with "" schedules the removal of every
      toast while the list itself closes only toasts whose id is "". */
  lemma DismissEmptyIdSchedulesAll(s: seq<Toast>)
    ensures DismissTargets(s, Some("")) == Ids(s)
    ensures forall i :: 0 <= i < |s| && s[i].id != "" ==> DismissToasts(s, Some(""))[i] == s[i]
  {
  }

  // ---------------------------------------------------------------------
  // REMOVE
  // ---------------------------------------------------------------------

  /** Filtering distributes over concatenation. */
  lemma {:induction false} RemoveAppend(a: seq<Toast>, b: seq<Toast>, id: string)
    ensures RemoveToasts(a + b, id) == RemoveToasts(a, id) + RemoveToasts(b, id)
  {
    if a == [] {
      assert a + b == b;
    } else {
      assert (a + b)[0] == a[0];
      assert (a + b)[1..] == a[1..] + b;
      RemoveAppend(a[1..], b, id);
      if a[0].id != id {
        assert [a[0]] + RemoveToasts(a[1..], id) + RemoveToasts(b, id)
            == [a[0]] + (RemoveToasts(a[1..], id) + RemoveToasts(b, id));
      }
    }
  }

  /** REMOVE keeps every entry whose id differs, in its original order: the
      result of removing from `a + [t] + b` places `t` (when kept) between
      what is kept of `a` and what is kept of `b`. */
  lemma RemoveKeepsOrder(a: seq<Toast>, t: Toast, b: seq<Toast>, id: string)
    ensures RemoveToasts(a + [t] + b, id)
         == RemoveToasts(a, id) + (if t.id == id then [] else [t]) + RemoveToasts(b, id)
  {
    RemoveAppend(a + [t], b, id);
    RemoveAppend(a, [t], id);
  }

  /** Removing an id that is not in the list is a no-op. */
  lemma {:induction false} RemoveAbsentIsNoop(s: seq<Toast>, id: string)
    requires id !in Ids(s)
    ensures RemoveToasts(s, id) == s
  {
    if s != [] {
      assert Ids(s)[0] == s[0].id;
      assert Ids(s[1..]) == Ids(s)[1..];
      RemoveAbsentIsNoop(s[1..], id);
    }
  }

  /** Filtering keeps the ids unique. */
  lemma {:induction false} RemoveKeepsIdsUnique(s: seq<Toast>, id: string)
    requires UniqueIds(s)
    ensures UniqueIds(RemoveToasts(s, id))
  {
    if s != [] {
      RemoveKeepsIdsUnique(s[1..], id);
      var rest := RemoveToasts(s[1..], id);
      if s[0].id != id {
        forall j | 0 <= j < |rest| ensures rest[j].id != s[0].id {
          assert rest[j] in s[1..];
        }
      }
    }
  }

  // ---------------------------------------------------------------------
  // The list invariant
  // ---------------------------------------------------------------------

  /** What the list always satisfies: at most `ToastLimit` toasts, ids unique. */
  predicate Inv(s: seq<Toast>)
  {
    |s| <= ToastLimit && UniqueIds(s)
  }

  /** Two lists with the same ids are both unique or both not. */
  lemma SameIdsSameUniqueness(s: seq<Toast>, r: seq<Toast>)
    requires Ids(r) == Ids(s)
    requires UniqueIds(s)
    ensures UniqueIds(r)
  {
    forall i, j | 0 <= i < j < |r| ensures r[i].id != r[j].id {
      assert Ids(r)[i] == Ids(s)[i] && Ids(r)[j] == Ids(s)[j];
    }
  }

  /** Every action keeps the invariant. ADD keeps the ids unique only because
      the limit is 1; with a larger limit it needs a fresh id
      (`AddFreshKeepsIdsUnique`). */
  lemma ReducePreservesInv(s: seq<Toast>, a: Action)
    requires Inv(s)
    ensures Inv(Reduce(s, a))
  {
    match a
    case Add(t) =>
    case Update(p) =>
      SameIdsSameUniqueness(s, UpdateToasts(s, p));
    case Dismiss(toastId) =>
      SameIdsSameUniqueness(s, DismissToasts(s, toastId));
    case Remove(None) =>
    case Remove(Some(id)) =>
      RemoveKeepsIdsUnique(s, id);
  }

  /** Dismiss-then-remove: DISMISS only closes the toasts that the REMOVE its
      timer dispatches then drops, so the pair ends where a REMOVE alone would,
      with no toast of that id left. */
  lemma {:induction false} DismissThenRemove(s: seq<Toast>, id: string)
    ensures Reduce(Reduce(s, Dismiss(Some(id))), Remove(Some(id))) == RemoveToasts(s, id)
    ensures forall t :: t in RemoveToasts(s, id) ==> t.id != id
  {
    if s != [] {
      var d := DismissToasts(s, Some(id));
      assert d[1..] == DismissToasts(s[1..], Some(id));
      assert d[0].id == s[0].id;
      DismissThenRemove(s[1..], id);
    }
  }
}
