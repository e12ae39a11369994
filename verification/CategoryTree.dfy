/** The tree of contest categories and the form that changes it (judge/forms.py:1179-1216): `clean_parent`
    lets a category move only where no cycle arises, and `save` gives it an unused slug under its parent's. */
module CategoryTree {
  import opened Options
  import opened CategorySlugs

  datatype Category = Category(name: string, slug: string, parent: Option<nat>)

  type Table = map<nat, Category>

  /** The chain of parents from here ends after at most n categories. */
  predicate Ends(t: Table, c: Option<nat>, n: nat)
    decreases n
  {
    c.None? || (n > 0 && c.value in t && Ends(t, t[c.value].parent, n - 1))
  }

  /** Every chain of parents ends. */
  ghost predicate Forest(t: Table) {
    forall x <- t :: exists n :: Ends(t, Some(x), n)
  }

  /** The category is here or among the next n on the chain of parents. */
  predicate OnChain(t: Table, c: Option<nat>, x: nat, n: nat)
    decreases n
  {
    c.Some? && (c.value == x || (n > 0 && c.value in t && OnChain(t, t[c.value].parent, x, n - 1)))
  }

  // ---- Cycles ----

  ghost predicate Closed(t: Table) {
    forall x <- t :: t[x].parent.Some? ==> t[x].parent.value in t
  }

  /** Categories, each the child of the next. */
  ghost predicate Chain(t: Table, path: seq<nat>) {
    && (forall i :: 0 <= i < |path| ==> path[i] in t)
    && forall i :: 0 <= i < |path| - 1 ==> t[path[i]].parent == Some(path[i + 1])
  }

  ghost predicate Cycle(t: Table, path: seq<nat>) {
    path != [] && Chain(t, path) && t[path[|path| - 1]].parent == Some(path[0])
  }

  lemma {:induction false} CycleNeverEnds(t: Table, path: seq<nat>, i: nat, n: nat)
    requires Cycle(t, path) && i < |path|
    ensures !Ends(t, Some(path[i]), n)
    decreases n
  {
    if n > 0 {
      CycleNeverEnds(t, path, if i + 1 < |path| then i + 1 else 0, n - 1);
    }
  }

  /** Going on from a path, `rest` being what is not on it, one comes to the end or back to the path. */
  lemma {:induction false} WalkOrCycle(t: Table, path: seq<nat>, rest: set<nat>)
    requires Closed(t) && path != [] && Chain(t, path) && rest == set x | x in t && x !in path
    ensures Ends(t, t[path[|path| - 1]].parent, |rest|) || exists cycle :: Cycle(t, cycle)
    decreases |rest|
  {
    var next := t[path[|path| - 1]].parent;
    if next.Some? {
      if k :| 0 <= k < |path| && path[k] == next.value {
        assert Cycle(t, path[k..]);
      } else {
        WalkOrCycle(t, path + [next.value], rest - {next.value});
      }
    }
  }

  /** No chain of parents goes on forever exactly when every parent exists and there is no cycle. */
  lemma ForestIffNoCycle(t: Table)
    ensures Forest(t) <==> Closed(t) && !exists path :: Cycle(t, path)
  {
    if Forest(t) {
      forall x <- t
        ensures t[x].parent.Some? ==> t[x].parent.value in t
      {
        var n: nat :| Ends(t, Some(x), n);
        assert Ends(t, t[x].parent, n - 1);
      }
      if path :| Cycle(t, path) {
        var n :| Ends(t, Some(path[0]), n);
        CycleNeverEnds(t, path, 0, n);
      }
    }
    if Closed(t) && !exists path :: Cycle(t, path) {
      forall x <- t
        ensures exists n :: Ends(t, Some(x), n)
      {
        var rest := set y | y in t && y !in [x];
        WalkOrCycle(t, [x], rest);
        assert Ends(t, Some(x), |rest| + 1);
      }
    }
  }

  // ---- Giving a category another parent ----

  lemma {:induction false} EndsMore(t: Table, c: Option<nat>, n: nat, m: nat)
    requires Ends(t, c, n) && n <= m
    ensures Ends(t, c, m)
    decreases n
  {
    if c.Some? {
      EndsMore(t, t[c.value].parent, n - 1, m - 1);
    }
  }

  /** A chain that does not meet the category is as it was. */
  lemma {:induction false} OtherChain(t: Table, id: nat, row: Category, c: Option<nat>, n: nat)
    requires Ends(t, c, n) && !OnChain(t, c, id, n)
    ensures Ends(t[id := row], c, n)
    decreases n
  {
    if c.Some? {
      OtherChain(t, id, row, t[c.value].parent, n - 1);
    }
  }

  /** Any other chain now goes on with the category's new parents. */
  lemma {:induction false} ChainThrough(t: Table, id: nat, row: Category, k: nat, c: Option<nat>, n: nat)
    requires Ends(t[id := row], row.parent, k) && Ends(t, c, n)
    ensures Ends(t[id := row], c, n + k)
    decreases n
  {
    if c.Some? {
      if c.value == id {
        EndsMore(t[id := row], row.parent, k, n + k - 1);
      } else {
        ChainThrough(t, id, row, k, t[c.value].parent, n - 1);
      }
    }
  }

  lemma {:induction false} BackTo(t: Table, id: nat, row: Category, c: Option<nat>, n: nat, m: nat) returns (j: nat)
    requires id in t && OnChain(t, c, id, n) && Ends(t[id := row], c, m)
    ensures j <= m && Ends(t[id := row], Some(id), j)
    decreases n
  {
    if c.value == id {
      j := m;
    } else {
      j := BackTo(t, id, row, t[c.value].parent, n - 1, m - 1);
    }
  }

  lemma {:induction false} NeverEnds(t: Table, id: nat, row: Category, n: nat, m: nat)
    requires id in t && OnChain(t, row.parent, id, n)
    ensures !Ends(t[id := row], Some(id), m)
    decreases m
  {
    if Ends(t[id := row], Some(id), m) {
      var j := BackTo(t, id, row, row.parent, n, m - 1);
      NeverEnds(t, id, row, n, j);
    }
  }

  /** The tree stays one exactly when the category is not above its new parent. */
  lemma MoveKeepsExact(t: Table, id: nat, row: Category, n: nat)
    requires Forest(t) && id in t && Ends(t, row.parent, n)
    ensures Forest(t[id := row]) <==> !OnChain(t, row.parent, id, n)
  {
    var u := t[id := row];
    if OnChain(t, row.parent, id, n) {
      if Forest(u) {
        var m :| Ends(u, Some(id), m);
        NeverEnds(t, id, row, n, m);
      }
    } else {
      OtherChain(t, id, row, row.parent, n);
      forall x <- u
        ensures exists m :: Ends(u, Some(x), m)
      {
        var m :| Ends(t, Some(x), m);
        ChainThrough(t, id, row, n, Some(x), m);
      }
    }
  }

  lemma {:induction false} ChainsAvoidNew(t: Table, id: nat, c: Option<nat>, n: nat)
    requires id !in t && Ends(t, c, n)
    ensures !OnChain(t, c, id, n)
    decreases n
  {
    if c.Some? {
      ChainsAvoidNew(t, id, t[c.value].parent, n - 1);
    }
  }

  /** A new category can have any parent. */
  lemma NewKeeps(t: Table, id: nat, row: Category)
    requires Forest(t) && id !in t && (row.parent.Some? ==> row.parent.value in t)
    ensures Forest(t[id := row])
  {
    var u := t[id := row];
    forall c: Option<nat> | c.Some? ==> c.value in t
      ensures exists m :: Ends(u, c, m)
    {
      if c.Some? {
        var n :| Ends(t, c, n);
        ChainsAvoidNew(t, id, c, n);
        OtherChain(t, id, row, c, n);
      } else {
        assert Ends(u, c, 0);
      }
    }
    forall x <- u
      ensures exists m :: Ends(u, Some(x), m)
    {
      if x == id {
        var m: nat :| Ends(u, row.parent, m);
        assert Ends(u, Some(x), m + 1);
      }
    }
  }

  lemma ParentEnds(t: Table, parent: Option<nat>) returns (n: nat)
    requires Forest(t) && (parent.Some? ==> parent.value in t)
    ensures Ends(t, parent, n)
  {
    if parent.Some? {
      n :| Ends(t, parent, n);
    } else {
      n := 0;
    }
  }

  // ---- The form ----

  /** A submitted form: the category it is for, or the id a new one will get; `plain` is the name trimmed and in
      lower case. */
  datatype Form = Form(pk: Option<nat>, newId: nat, name: string, plain: string, slug: string, parent: Option<nat>)

  function IdOf(f: Form): nat {
    if f.pk.Some? then f.pk.value else f.newId
  }

  /** `max_length` of the slug, of the form field as well as of the column. */
  const SLUG_LIMIT := 128

  /** What the fields themselves check: the parent is an existing category, and a typed slug is valid and not
      too long. */
  predicate Cleaned(t: Table, f: Form) {
    && (if f.pk.Some? then f.pk.value in t else f.newId !in t)
    && (f.parent.Some? ==> f.parent.value in t)
    && (f.slug == "" || IsPath(f.slug)) && |f.slug| <= SLUG_LIMIT
  }

  function ParentSlug(t: Table, f: Form): Option<string> {
    if f.parent.Some? && f.parent.value in t then Some(t[f.parent.value].slug) else None
  }

  function BaseSlug(t: Table, f: Form): string {
    WithParentPrefix(if f.slug != "" then f.slug else Slugify(f.plain), ParentSlug(t, f))
  }

  function Used(t: Table, id: nat): set<string> {
    set x | x in t && x != id :: t[x].slug
  }

  function Row(t: Table, f: Form, k: nat): Category {
    Category(f.name, Candidate(BaseSlug(t, f), k), f.parent)
  }

  /** The table without cycles after the save. */
  ghost predicate Acceptable(t: Table, f: Form) {
    Forest(t[IdOf(f) := Row(t, f, 0)])
  }

  /** The first candidate slug no other category has. */
  ghost predicate FirstUnused(t: Table, f: Form, k: nat) {
    && Row(t, f, k).slug !in Used(t, IdOf(f))
    && forall i :: 0 <= i < k ==> Row(t, f, i).slug in Used(t, IdOf(f))
  }

  /** A slug that was typed in must be no other category's; the form's uniqueness check sees to it before `save`
      puts it under the parent's. */
  predicate Unclaimed(t: Table, f: Form) {
    f.slug != "" ==> f.slug !in Used(t, IdOf(f))
  }

  /** The column takes the slug; a longer one is an error of the database, after the form was accepted. */
  predicate Fits(c: Category) { |c.slug| <= SLUG_LIMIT }

  function Stored(t: Table, f: Form, k: nat): Table {
    if Fits(Row(t, f, k)) then t[IdOf(f) := Row(t, f, k)] else t
  }

  ghost predicate Step(t: Table, f: Form, u: Table) {
    if Acceptable(t, f) && Unclaimed(t, f) then exists k :: FirstUnused(t, f, k) && u == Stored(t, f, k)
    else u == t
  }

  /** `clean_parent`: walks up from the new parent, and refuses if it meets the category itself. */
  method CleanParent(t: Table, f: Form) returns (accepted: bool)
    requires Forest(t) && Cleaned(t, f)
    ensures accepted <==> Acceptable(t, f)
  {
    ghost var n := ParentEnds(t, f.parent);
    if f.pk.None? || f.parent.None? {
      if f.pk.None? {
        NewKeeps(t, f.newId, Row(t, f, 0));
      } else {
        MoveKeepsExact(t, f.pk.value, Row(t, f, 0), n);
      }
      return true;
    }
    var currentId := f.pk.value;
    MoveKeepsExact(t, currentId, Row(t, f, 0), n);
    var cursor := f.parent;
    while cursor.Some?
      invariant Ends(t, cursor, n)
      invariant OnChain(t, cursor, currentId, n) <==> !Acceptable(t, f)
      decreases n
    {
      if cursor.value == currentId {
        return false;
      }
      cursor := t[cursor.value].parent;
      n := n - 1;
    }
    return true;
  }

  /** What all saves keep: a tree, unused slugs, and slugs the validator accepts. */
  ghost predicate Sound(t: Table) {
    && Forest(t)
    && (forall x, y :: x in t && y in t && x != y ==> t[x].slug != t[y].slug)
    && forall x <- t :: IsPath(t[x].slug)
  }

  lemma {:induction false} SameParents(t: Table, u: Table, c: Option<nat>, n: nat)
    requires t.Keys == u.Keys && (forall x <- t :: t[x].parent == u[x].parent) && Ends(t, c, n)
    ensures Ends(u, c, n)
    decreases n
  {
    if c.Some? {
      SameParents(t, u, t[c.value].parent, n - 1);
    }
  }

  lemma OnlyParentsMatter(t: Table, u: Table)
    requires Forest(t) && t.Keys == u.Keys && forall x <- t :: t[x].parent == u[x].parent
    ensures Forest(u)
  {
    forall x <- u
      ensures exists n :: Ends(u, Some(x), n)
    {
      var n :| Ends(t, Some(x), n);
      SameParents(t, u, Some(x), n);
    }
  }

  lemma NotItsOwnParent(t: Table, x: nat)
    requires Forest(t) && x in t
    ensures t[x].parent != Some(x)
  {
    if t[x].parent == Some(x) {
      ForestIffNoCycle(t);
      assert Cycle(t, [x]);
    }
  }

  /** `save` keeps all that, and the saved category's slug begins with its parent's. */
  lemma SaveKeeps(t: Table, f: Form, k: nat)
    requires Sound(t) && Cleaned(t, f) && Acceptable(t, f) && FirstUnused(t, f, k)
    ensures var u := t[IdOf(f) := Row(t, f, k)];
            && Sound(u)
            && (f.parent.Some? ==> f.parent.value in u && u[f.parent.value].slug + "/" <= u[IdOf(f)].slug)
  {
    var u := t[IdOf(f) := Row(t, f, k)];
    assert IsPath(Row(t, f, k).slug) && (f.parent.Some? ==> t[f.parent.value].slug + "/" <= Row(t, f, k).slug) by {
      SlugifyCleans(f.plain);
      PrefixIsPath(if f.slug != "" then f.slug else Slugify(f.plain), ParentSlug(t, f));
      CandidateIsPath(BaseSlug(t, f), k);
    }
    assert Forest(u) by { OnlyParentsMatter(t[IdOf(f) := Row(t, f, 0)], u); }
    NotItsOwnParent(u, IdOf(f));
  }

  lemma StepKeeps(t: Table, f: Form, u: Table)
    requires Sound(t) && Cleaned(t, f) && Step(t, f, u)
    ensures Sound(u)
    ensures (forall x <- t :: Fits(t[x])) ==> forall x <- u :: Fits(u[x])
  {
    if Acceptable(t, f) && Unclaimed(t, f) {
      var k :| FirstUnused(t, f, k) && u == Stored(t, f, k);
      SaveKeeps(t, f, k);
    }
  }

  /** Over any number of saves, accepted or refused, the categories stay a tree with distinct, valid slugs that fit. */
  lemma {:induction false} EveryRunKeepsTree(tables: seq<Table>, forms: seq<Form>)
    requires |tables| == |forms| + 1 && Sound(tables[0]) && forall x <- tables[0] :: Fits(tables[0][x])
    requires forall i :: 0 <= i < |forms| ==> Cleaned(tables[i], forms[i]) && Step(tables[i], forms[i], tables[i + 1])
    ensures var u := tables[|forms|]; Sound(u) && forall x <- u :: Fits(u[x])
    decreases |forms|
  {
    if forms != [] {
      var n := |forms| - 1;
      EveryRunKeepsTree(tables[..n + 1], forms[..n]);
      StepKeeps(tables[n], forms[n], tables[n + 1]);
    }
  }

  datatype Outcome = Saved | Refused | TooLong

  class Categories {
    var rows: Table

    constructor ()
      ensures rows == map[] && Sound(rows)
    {
      rows := map[];
    }

    /** Validation and `save` of a form. */
    method Save(f: Form) returns (outcome: Outcome, ghost k: nat)
      requires Sound(rows) && Cleaned(rows, f)
      modifies this
      ensures outcome == Refused <==> !(Acceptable(old(rows), f) && Unclaimed(old(rows), f))
      ensures outcome != Refused ==>
                && FirstUnused(old(rows), f, k)
                && (outcome == Saved <==> Fits(Row(old(rows), f, k)))
      ensures rows == if outcome == Saved then old(rows)[IdOf(f) := Row(old(rows), f, k)] else old(rows)
      ensures Step(old(rows), f, rows) && Sound(rows)
    {
      k := 0;
      var accepted := CleanParent(rows, f);
      if !accepted || (f.slug != "" && f.slug in Used(rows, IdOf(f))) {
        outcome := Refused;
      } else {
        var slug;
        slug, k := UnusedSlug(BaseSlug(rows, f), Used(rows, IdOf(f)));
        assert FirstUnused(rows, f, k);
        outcome := TooLong;
        if |slug| <= SLUG_LIMIT {
          outcome, rows := Saved, rows[IdOf(f) := Category(f.name, slug, f.parent)];
        }
      }
      StepKeeps(old(rows), f, rows);
    }
  }

  // ---- Slugs that are too long ----

  /** What the parent's slug and the suffix of the candidate add to a slug. */
  function Added(t: Table, f: Form, k: nat): nat {
    var own := if f.slug != "" then f.slug else Slugify(f.plain);
    var parent := ParentSlug(t, f);
    (if parent.Some? && !(parent.value + "/" <= own) then |parent.value| + 1 else 0)
    + (if k == 0 then 0 else 1 + |Decimal(k + 1)|)
  }

  /** `save` checks no length: an accepted form fails exactly if its slug with what is added to it is too long. */
  lemma TooLongExact(t: Table, f: Form, k: nat)
    requires Sound(t) && Cleaned(t, f)
    ensures Fits(Row(t, f, k)) <==>
            |if f.slug != "" then f.slug else Slugify(f.plain)| + Added(t, f, k) <= SLUG_LIMIT
  {
    SlugifyCleans(f.plain);
  }

  function Repeat(c: char, n: nat): (s: string)
    ensures |s| == n && forall i :: 0 <= i < n ==> s[i] == c
  {
    seq(n, i => c)
  }

  /** A valid slug of 28 characters under a parent's of 100: the form is accepted, and one character too many. */
  lemma PrefixMakesTooLong()
    ensures var t: Table := map[1 := Category("A", Repeat('a', 100), None)];
            var f := Form(None, 2, "B", "b", Repeat('b', 28), Some(1));
            && Sound(t) && Fits(t[1]) && Cleaned(t, f) && Acceptable(t, f) && Unclaimed(t, f)
            && FirstUnused(t, f, 0) && !Fits(Row(t, f, 0))
  {
    var t: Table := map[1 := Category("A", Repeat('a', 100), None)];
    var f := Form(None, 2, "B", "b", Repeat('b', 28), Some(1));
    assert Ends(t, Some(1), 1);
    NewKeeps(t, 2, Row(t, f, 0));
    assert t[1].slug[0] == 'a' && f.slug[0] == 'b';
    TooLongExact(t, f, 0);
  }

  // ---- Slugs of children ----

  ghost predicate Prefixed(t: Table) {
    forall x <- t ::
      t[x].parent.Some? && t[x].parent.value in t ==> t[t[x].parent.value].slug + "/" <= t[x].slug
  }

  /** The slugs of the category's children begin with this one. */
  ghost predicate CoversChildren(t: Table, id: nat, slug: string) {
    forall x <- t :: x != id && t[x].parent == Some(id) ==> slug + "/" <= t[x].slug
  }

  /** `save` does not touch the children: it leaves every slug beginning with its parent's exactly when the new
      slug covers the children's. */
  lemma PrefixesKeptExact(t: Table, f: Form, k: nat)
    requires Sound(t) && Prefixed(t) && Cleaned(t, f) && Acceptable(t, f) && FirstUnused(t, f, k)
    ensures Prefixed(t[IdOf(f) := Row(t, f, k)]) <==> CoversChildren(t, IdOf(f), Row(t, f, k).slug)
  {
    var u := t[IdOf(f) := Row(t, f, k)];
    SaveKeeps(t, f, k);
    if Prefixed(u) {
      forall x | x in t && x != IdOf(f) && t[x].parent == Some(IdOf(f))
        ensures Row(t, f, k).slug + "/" <= t[x].slug
      {
        assert u[x] == t[x];
      }
    }
  }

  /** Children slugs all begin with the old slug, so: a new slug that is the old one or one of its ancestors in
      the path covers them, and one that is neither above nor below the old one covers none. */
  lemma CoverByPath(t: Table, id: nat, slug: string)
    requires Prefixed(t) && id in t
    ensures slug + "/" <= t[id].slug + "/" ==> CoversChildren(t, id, slug)
    ensures !(slug + "/" <= t[id].slug + "/") && !(t[id].slug + "/" <= slug + "/")
              && (exists x <- t :: x != id && t[x].parent == Some(id)) ==>
              !CoversChildren(t, id, slug)
  {
    forall x | x in t && x != id && t[x].parent == Some(id)
      ensures slug + "/" <= t[id].slug + "/" ==> slug + "/" <= t[x].slug
      ensures slug + "/" <= t[x].slug ==> slug + "/" <= t[id].slug + "/" || t[id].slug + "/" <= slug + "/"
    {}
  }

  /** A save that keeps the category's slug, as one that only renames it or makes it public does, keeps all
      prefixes. */
  lemma SameSlugKeepsPrefixes(t: Table, f: Form, k: nat)
    requires Sound(t) && Prefixed(t) && Cleaned(t, f) && Acceptable(t, f) && FirstUnused(t, f, k)
    requires f.pk.Some? && Row(t, f, k).slug == t[f.pk.value].slug
    ensures Prefixed(t[IdOf(f) := Row(t, f, k)])
  {
    PrefixesKeptExact(t, f, k);
    CoverByPath(t, f.pk.value, Row(t, f, k).slug);
  }

  /** Giving a category with children a slug that is neither above nor below its old one always breaks some. */
  lemma OtherSlugBreaksPrefixes(t: Table, f: Form, k: nat, x: nat)
    requires Sound(t) && Prefixed(t) && Cleaned(t, f) && Acceptable(t, f) && FirstUnused(t, f, k)
    requires f.pk.Some? && x in t && x != f.pk.value && t[x].parent == Some(f.pk.value)
    requires var slug, old_ := Row(t, f, k).slug + "/", t[f.pk.value].slug + "/"; !(slug <= old_) && !(old_ <= slug)
    ensures !Prefixed(t[IdOf(f) := Row(t, f, k)])
  {
    PrefixesKeptExact(t, f, k);
    CoverByPath(t, f.pk.value, Row(t, f, k).slug);
  }

  /** Category a with its child a/c is given the slug b: the child stays a/c. */
  lemma RenamedParentLeavesChild()
    ensures var t: Table := map[1 := Category("A", "a", None), 2 := Category("C", "a/c", Some(1))];
            var f := Form(Some(1), 0, "A", "a", "b", None);
            && Sound(t) && Prefixed(t) && Cleaned(t, f) && Acceptable(t, f) && FirstUnused(t, f, 0)
            && Row(t, f, 0).slug == "b" && !Prefixed(t[1 := Row(t, f, 0)])
  {
    var t: Table := map[1 := Category("A", "a", None), 2 := Category("C", "a/c", Some(1))];
    var f := Form(Some(1), 0, "A", "a", "b", None);
    assert Ends(t, Some(1), 1) && Ends(t, Some(2), 2);
    assert "a/c"[0] == 'a' && "a/c"[1] == '/' && "a/c"[2] == 'c' && "a/c"[..2] == "a/";
    MoveKeepsExact(t, 1, Row(t, f, 0), 0);
    assert Used(t, 1) == {"a/c"};
    assert ("b" + "/")[0] == 'b';
    PrefixesKeptExact(t, f, 0);
    assert t[2].parent == Some(1);
  }
}
