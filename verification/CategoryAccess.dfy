/** Which categories a user's explicit grants open (judge/models/contest.py:171-197). */
module CategoryAccess {
  import opened Options
  import opened CategoryTree
  import Sets

  /** The category has a grant, or one of the n categories above it has. */
  predicate Inherits(t: Table, x: nat, granted: set<nat>, n: nat)
    decreases n
  {
    x in granted || (n > 0 && x in t && t[x].parent.Some? && Inherits(t, t[x].parent.value, granted, n - 1))
  }

  /** The category or one above it has a grant. */
  ghost predicate Opened(t: Table, x: nat, granted: set<nat>) {
    exists n: nat :: Inherits(t, x, granted, n)
  }

  function Children(t: Table, p: nat): set<nat> {
    set x | x in t && t[x].parent == Some(p)
  }

  /** The loop over the children of one category. */
  method AddChildren(children: set<nat>, ids: set<nat>, pending: seq<nat>) returns (ids': set<nat>, pending': seq<nat>)
    ensures ids' == ids + children
    ensures forall x :: x in pending' <==> x in pending || (x in children && x !in ids)
    ensures ids' == ids ==> pending' == pending
  {
    ids', pending' := ids, pending;
    var rest := children;
    while rest != {}
      invariant rest <= children && ids' == ids + (children - rest)
      invariant forall x :: x in pending' <==> x in pending || (x in children - rest && x !in ids)
      invariant ids' == ids ==> pending' == pending
      decreases |rest|
    {
      var child := Sets.Pick(rest);
      if child !in ids' {
        ids' := ids' + {child};
        pending' := pending' + [child];
      }
      rest := rest - {child};
    }
  }

  /** `get_contest_access_categories` after the database gave the categories with a grant of their own: exactly
      the categories that have a grant themselves or above them, whatever the parents are; cycles do no harm. */
  method AccessibleIds(t: Table, granted: set<nat>) returns (ids: set<nat>)
    requires granted <= t.Keys
    ensures granted <= ids <= t.Keys
    ensures forall x :: x in ids <==> Opened(t, x, granted)
  {
    ids := granted;
    assert forall x <- granted :: Inherits(t, x, granted, 0);
    var pending := Sets.ListOf(granted);
    while pending != []
      invariant granted <= ids <= t.Keys
      invariant forall x <- pending :: x in ids
      invariant forall x <- ids :: x in pending || Children(t, x) <= ids
      invariant forall x <- ids :: Opened(t, x, granted)
      decreases |t.Keys| - |ids|, |pending|
    {
      var last := |pending| - 1;
      var p := pending[last];
      ghost var before, rest := ids, pending[..last];
      assert pending == rest + [p];
      ChildrenInherit(t, p, granted);
      ids, pending := AddChildren(Children(t, p), ids, pending[..last]);
      Sets.SubsetSize(before, ids);
      Sets.SubsetSize(ids, t.Keys);
    }
    forall x | Opened(t, x, granted)
      ensures x in ids
    {
      var n: nat :| Inherits(t, x, granted, n);
      Reached(t, x, granted, n, ids);
    }
  }

  /** A child of a category that inherits a grant inherits it too. */
  lemma ChildrenInherit(t: Table, p: nat, granted: set<nat>)
    requires Opened(t, p, granted)
    ensures forall x <- Children(t, p) :: Opened(t, x, granted)
  {
    var n: nat :| Inherits(t, p, granted, n);
    forall x <- Children(t, p)
      ensures Opened(t, x, granted)
    {
      assert Inherits(t, x, granted, n + 1);
    }
  }

  lemma {:induction false} Reached(t: Table, x: nat, granted: set<nat>, n: nat, ids: set<nat>)
    requires granted <= ids && forall p <- ids :: Children(t, p) <= ids
    requires Inherits(t, x, granted, n)
    ensures x in ids
    decreases n
  {
    if x !in granted {
      Reached(t, t[x].parent.value, granted, n - 1, ids);
      assert x in Children(t, t[x].parent.value);
    }
  }
}
