/**
 What an applied report leaves in each table (scripts/categorise-products.ts), row by row, in terms of the report and
 of the tables before and after alone.
 */
module AppliedTables {
  import opened Text
  import opened Catalogue
  import opened Categorisation

  /* ---- the statement ---- */

  /** An ordinary live category that a row moves a product away from, that no row proposes, and that ends up empty. */
  predicate Emptied(env: Env, db: Db, rows: seq<Row>, db': Db, c: Id) {
    && c in db.categories && db.categories[c].deletedAt.None? && !db.categories[c].isSystem
    && (exists r :: r in rows && r.oldCategoryId == c)
    && (forall r :: r in rows ==> env.fold(Trim(r.proposed)) != env.fold(db.categories[c].name))
    && (forall p :: p in db'.products && db'.products[p].live ==> db'.products[p].category != c)
  }

  /** Old categories are retired when they are emptied, and otherwise stay. */
  ghost predicate OldCategories(env: Env, db: Db, rows: seq<Row>, db': Db) {
    forall c :: c in db.categories ==>
      c in db'.categories && db'.categories[c] ==
        if Emptied(env, db, rows, db', c) then db.categories[c].(deletedAt := Some(env.now), active := false)
        else db.categories[c]
  }

  /** Category c is new because row i is the first to propose its name and no live category had it. */
  predicate FirstToPropose(env: Env, db: Db, rows: seq<Row>, c: Category, i: nat) {
    && i < |rows|
    && var name := Trim(rows[i].proposed);
       && c == Category(name, env.details(name).0, env.details(name).1, false, true, None)
       && (forall x :: x in db.categories && db.categories[x].deletedAt.None? ==>
             env.fold(db.categories[x].name) != env.fold(name))
       && (forall j :: 0 <= j < i ==> env.fold(Trim(rows[j].proposed)) != env.fold(name))
  }

  /** New categories are named as the first row that needed them names them, and every proposal has a live category. */
  ghost predicate NewCategories(env: Env, db: Db, rows: seq<Row>, db': Db) {
    && (forall c :: c in db'.categories && c !in db.categories ==> exists i: nat ::
          FirstToPropose(env, db, rows, db'.categories[c], i))
    && (forall r :: r in rows ==> exists c :: c in db'.categories && IsProposed(env, r, db'.categories[c]))
  }

  predicate IsProposed(env: Env, r: Row, c: Category) {
    c.deletedAt.None? && env.fold(c.name) == env.fold(Trim(r.proposed))
  }

  /** A retired category takes its live subcategories with it; other old ones stay. */
  ghost predicate OldSubcategories(env: Env, db: Db, rows: seq<Row>, db': Db) {
    forall s :: s in db.subcategories ==>
      s in db'.subcategories && db'.subcategories[s] ==
        if Emptied(env, db, rows, db', db.subcategories[s].category) && db.subcategories[s].deletedAt.None?
        then db.subcategories[s].(deletedAt := Some(env.now), active := false) else db.subcategories[s]
  }

  /** Row r asks for a subcategory of this category and folded name. */
  predicate AsksFor(env: Env, db': Db, r: Row, category: Id, name: string) {
    && !Blank(r.proposedSub) && env.fold(Trim(r.proposedSub)) == name
    && category in db'.categories && IsProposed(env, r, db'.categories[category])
  }

  /** Subcategory s is new because row i is the first to ask for it and the category had no live one of that name. */
  predicate FirstToAsk(env: Env, db: Db, rows: seq<Row>, db': Db, s: Subcategory, i: nat) {
    && i < |rows| && AsksFor(env, db', rows[i], s.category, env.fold(s.name))
    && s == Subcategory(s.category, Trim(rows[i].proposedSub), true, None)
    && (forall x :: x in db.subcategories ==> !SameLiveSub(env, db.subcategories[x], s))
    && (forall j :: 0 <= j < i ==> !AsksFor(env, db', rows[j], s.category, env.fold(s.name)))
  }

  predicate SameLiveSub(env: Env, x: Subcategory, s: Subcategory) {
    x.deletedAt.None? && x.category == s.category && env.fold(x.name) == env.fold(s.name)
  }

  /** New subcategories are named as the first row that asked for one, one to a name, and every row finds its own. */
  ghost predicate NewSubcategories(env: Env, db: Db, rows: seq<Row>, db': Db) {
    && (forall s :: s in db'.subcategories && s !in db.subcategories ==> exists i: nat ::
          FirstToAsk(env, db, rows, db', db'.subcategories[s], i))
    && NoDoubles(env, db, db')
    && (forall r :: r in rows && !Blank(r.proposedSub) ==> AskedIsThere(env, db', r))
  }

  ghost predicate NoDoubles(env: Env, db: Db, db': Db) {
    forall s, x | s in db'.subcategories && x in db'.subcategories && s !in db.subcategories && s != x ::
      x !in db.subcategories ==> !SameLiveSub(env, db'.subcategories[x], db'.subcategories[s])
  }

  predicate AskedIsThere(env: Env, db': Db, r: Row) {
    exists s ::
      && s in db'.subcategories && db'.subcategories[s].deletedAt.None?
      && AsksFor(env, db', r, db'.subcategories[s].category, env.fold(db'.subcategories[s].name))
  }

  /** A shop carries the new category of each moved product whose old one it carried, and of each product it lists. */
  predicate Wanted(db: Db, db': Db, l: Link) {
    || (exists p :: p in db.products && p in db'.products && db'.products[p].category == l.1
          && db.products[p].category != l.1 && (l.0, db.products[p].category) in db.links)
    || (exists p :: p in db'.products && (l.0, p) in db.listings && db'.products[p].category == l.1)
  }

  /** Links are the old and the wanted ones, but for those to retired categories; old ones keep their columns. */
  ghost predicate Links(env: Env, db: Db, rows: seq<Row>, db': Db) {
    forall l: Link ::
      && (l in db'.links <==> (l in db.links || Wanted(db, db', l)) && !Emptied(env, db, rows, db', l.1))
      && (l in db'.links ==> db'.links[l] == if l in db.links then db.links[l] else env.linkRow)
  }

  /** Every listed product is where one of its rows puts it, and the others are as they were. */
  ghost predicate ListedProducts(env: Env, db: Db, rows: seq<Row>, db': Db) {
    db'.products.Keys == db.products.Keys && forall p :: p in db.products ==> ListedProduct(env, db, rows, db', p)
  }

  ghost predicate ListedProduct(env: Env, db: Db, rows: seq<Row>, db': Db, p: Id)
    requires p in db.products && p in db'.products
  {
    if exists r :: r in rows && r.product == p
    then
      exists r ::
        && r in rows && r.product == p
        && PlacedBy(env, db'.categories, db'.subcategories, db.products[p], db'.products[p], r)
    else db'.products[p] == db.products[p]
  }

  /* ---- categories ---- */

  lemma RetiredMeans(env: Env, rows: seq<Row>, moves: seq<Move>, categories: map<Id, Category>,
      products: map<Id, Product>, c: Id) returns (m: Move)
    requires c in Retired(env, rows, moves, categories, products)
    ensures m in moves && m.from == c
    ensures c in categories && !categories[c].isSystem && Live(categories[c]) && !InUse(products, c)
    ensures forall r :: r in rows ==> env.fold(Trim(r.proposed)) != env.fold(categories[c].name)
  {
    hide InUse, Trim;
    m :| m in moves && m.from == c;
    var kept := set r | r in rows :: Folded(env, r.proposed);
    forall r | r in rows ensures env.fold(Trim(r.proposed)) != env.fold(categories[c].name) {
      assert Folded(env, r.proposed) in kept;
    }
  }

  lemma RetiredIsEmptied(env: Env, db: Db, rows: seq<Row>, t: Trace, c: Id)
    requires Traced(env, db, rows, t) && Approvable(db, rows) && References(db) && c in t.retired
    ensures Emptied(env, db, rows, Committed(env, db, t), c)
  {
    hide Named, Detailed, Retired, WidenedLinks, WantedLinks, SubsRefer, LinksRefer, SubKey, Blank, Folded, Target, Get;
    var m := RetiredMeans(env, rows, t.moves, t.naming.categories, t.products, c);
    var r :| r in rows && m == MoveOf(env, t.naming.byName, t.subs.ids, r) && m.from != m.to;
    assert c in db.categories;
    NameStays(env, db, rows, t, c);
    hide Sent, Approvable, References;
  }

  lemma EmptiedIsRetired(env: Env, db: Db, rows: seq<Row>, t: Trace, c: Id)
    requires Traced(env, db, rows, t) && Emptied(env, db, rows, Committed(env, db, t), c)
    ensures c in t.retired
  {
    var r :| r in rows && r.oldCategoryId == c;
    NameStays(env, db, rows, t, c);
    hide Detailed, WidenedLinks, WantedLinks, UniqueNames, Moved, Extends, Trim, Blank, SubKey, Retired;
    var m := MoveOf(env, t.naming.byName, t.subs.ids, r);
    assert Folded(env, r.proposed) in t.naming.byName;
    assert m.to != c;
    assert m in t.moves;
    hide Named, Sent, IsIndex;
    RetiredWhen(env, rows, t.moves, t.naming.categories, t.products, m);
  }

  lemma RetiredWhen(env: Env, rows: seq<Row>, moves: seq<Move>, categories: map<Id, Category>,
      products: map<Id, Product>, m: Move)
    requires m in moves && m.from in categories && !categories[m.from].isSystem && Live(categories[m.from])
    requires forall r :: r in rows ==> env.fold(Trim(r.proposed)) != env.fold(categories[m.from].name)
    requires forall p :: p in products && products[p].live ==> products[p].category != m.from
    ensures m.from in Retired(env, rows, moves, categories, products)
  {
    hide Trim;
    assert env.fold(categories[m.from].name) !in (set r | r in rows :: Folded(env, r.proposed));
  }

  lemma RetiredExactly(env: Env, db: Db, rows: seq<Row>, t: Trace, c: Id)
    requires Traced(env, db, rows, t) && Approvable(db, rows) && References(db)
    ensures c in t.retired <==> Emptied(env, db, rows, Committed(env, db, t), c)
  {
    hide Traced, Approvable, References, Emptied;
    if c in t.retired {
      RetiredIsEmptied(env, db, rows, t, c);
    }
    if Emptied(env, db, rows, Committed(env, db, t), c) {
      EmptiedIsRetired(env, db, rows, t, c);
    }
  }

  lemma OldCategoriesEnd(env: Env, db: Db, rows: seq<Row>, t: Trace)
    requires Traced(env, db, rows, t) && Approvable(db, rows) && References(db)
    ensures OldCategories(env, db, rows, Committed(env, db, t))
  {
    hide Traced, References, Approvable, Emptied;
    forall c | c in db.categories
      ensures c in t.naming.categories && t.naming.categories[c] == db.categories[c]
      ensures c in t.retired <==> Emptied(env, db, rows, Committed(env, db, t), c)
    {
      NameStays(env, db, rows, t, c);
      RetiredExactly(env, db, rows, t, c);
    }
  }

  /** Distinct keeps the first of each name, and what stood before it stands before it still. */
  lemma {:induction false} DistinctFirst(names: seq<string>, k: nat) returns (i: nat)
    requires k < |Distinct(names)|
    ensures i < |names| && names[i] == Distinct(names)[k]
    ensures forall j :: 0 <= j < i ==> names[j] in Distinct(names)[..k]
  {
    var n := |names| - 1;
    if k < |Distinct(names[..n])| {
      i := DistinctFirst(names[..n], k);
      assert Distinct(names)[..k] == Distinct(names[..n])[..k];
    } else {
      i := n;
      DistinctSame(names[..n]);
      assert Distinct(names)[..k] == Distinct(names[..n]);
      assert forall j :: 0 <= j < n ==> names[j] == names[..n][j];
    }
  }

  /** A created category is the first of the names that folds as it does, and no live category did. */
  lemma {:induction false} CreatedFirst(env: Env, names: seq<string>, n: Naming, c: Id) returns (k: nat)
    requires GoodEnv(env) && c in Created(env, names, n).categories && c !in n.categories
    ensures k < |names| && env.fold(names[k]) !in n.byName
    ensures Created(env, names, n).categories[c] == NewCategory(env, names[k])
    ensures forall j :: 0 <= j < k ==> env.fold(names[j]) != env.fold(names[k])
  {
    if env.fold(names[0]) in n.byName {
      k := CreatedFirst(env, names[1..], n, c);
      k := k + 1;
    } else {
      var id := env.newId(n.categories.Keys);
      var n' := Naming(n.categories[id := NewCategory(env, names[0])], n.byName[env.fold(names[0]) := id]);
      if c in n'.categories {
        CreatedStays(env, names[1..], n', c);
        k := 0;
      } else {
        k := CreatedFirst(env, names[1..], n', c);
        k := k + 1;
      }
    }
  }

  lemma NewCategoryFrom(env: Env, db: Db, rows: seq<Row>, c: Id) returns (i: nat)
    requires GoodEnv(env) && c in TraceOf(env, db, rows).naming.categories && c !in db.categories
    ensures FirstToPropose(env, db, rows, TraceOf(env, db, rows).naming.categories[c], i)
  {
    var proposals := Proposals(rows);
    var n := Naming(db.categories, ByName(env, db.categories));
    var k := CreatedFirst(env, Distinct(proposals), n, c);
    i := DistinctFirst(proposals, k);
    ByNameIsIndex(env, db.categories);
    forall j | 0 <= j < i ensures env.fold(Trim(rows[j].proposed)) != env.fold(Trim(rows[i].proposed)) {
      assert proposals[j] in Distinct(proposals)[..k];
      var l :| 0 <= l < k && Distinct(proposals)[..k][l] == proposals[j];
      assert Distinct(proposals)[l] == proposals[j];
    }
  }

  lemma ProposalHasCategory(env: Env, db: Db, rows: seq<Row>, t: Trace, r: Row)
    requires Traced(env, db, rows, t) && r in rows
    ensures var c := Target(env, t.naming.byName, r);
            && c in t.naming.categories && c !in t.retired && IsProposed(env, r, t.naming.categories[c])
            && c in Committed(env, db, t).categories && Committed(env, db, t).categories[c] == t.naming.categories[c]
  {
    hide Detailed, Sent, WidenedLinks, WantedLinks, UniqueNames, Extends, InUse;
    assert Folded(env, r.proposed) in t.naming.byName;
    var kept := set r' | r' in rows :: Folded(env, r'.proposed);
    assert Folded(env, r.proposed) in kept;
  }

  lemma NewCategoriesEnd(env: Env, db: Db, rows: seq<Row>, t: Trace)
    requires GoodEnv(env) && Traced(env, db, rows, t) && t == TraceOf(env, db, rows)
    requires References(db) && Approvable(db, rows)
    ensures NewCategories(env, db, rows, Committed(env, db, t))
  {
    var db' := Committed(env, db, t);
    hide Traced, TraceOf, References, Approvable, FirstToPropose, IsProposed;
    forall c | c in db'.categories && c !in db.categories
      ensures exists i: nat :: FirstToPropose(env, db, rows, db'.categories[c], i)
    {
      var i := NewCategoryFrom(env, db, rows, c);
      RetiredExactlyOld(env, db, rows, t, c);
    }
    forall r | r in rows ensures exists c :: c in db'.categories && IsProposed(env, r, db'.categories[c]) {
      ProposalHasCategory(env, db, rows, t, r);
    }
  }

  lemma RetiredExactlyOld(env: Env, db: Db, rows: seq<Row>, t: Trace, c: Id)
    requires Traced(env, db, rows, t) && Approvable(db, rows) && References(db) && c !in db.categories
    ensures c !in t.retired
  {
    RetiredExactly(env, db, rows, t, c);
  }

  /* ---- subcategories ---- */

  lemma OldSubcategoriesEnd(env: Env, db: Db, rows: seq<Row>, t: Trace)
    requires Traced(env, db, rows, t) && Approvable(db, rows) && References(db)
    ensures OldSubcategories(env, db, rows, Committed(env, db, t))
  {
    hide Traced, References, Approvable, Emptied, Committed;
    var db' := Committed(env, db, t);
    forall s | s in db.subcategories
      ensures s in db'.subcategories && db'.subcategories[s] ==
                if Emptied(env, db, rows, db', db.subcategories[s].category) && db.subcategories[s].deletedAt.None?
                then db.subcategories[s].(deletedAt := Some(env.now), active := false) else db.subcategories[s]
    {
      RetiredExactly(env, db, rows, t, db.subcategories[s].category);
      OldSubcategoryKept(env, db, rows, t, s);
      SubcategoryAfter(env, db, t, s);
    }
  }

  lemma OldSubcategoryKept(env: Env, db: Db, rows: seq<Row>, t: Trace, s: Id)
    requires Traced(env, db, rows, t) && s in db.subcategories
    ensures s in t.subs.subcategories && t.subs.subcategories[s] == db.subcategories[s]
  {
    hide Named, Sent, WidenedLinks, WantedLinks, Retired;
  }

  lemma SubcategoryAfter(env: Env, db: Db, t: Trace, s: Id)
    requires s in t.subs.subcategories
    ensures var sub := t.subs.subcategories[s];
            var db' := Committed(env, db, t);
            s in db'.subcategories && db'.subcategories[s] ==
              if sub.category in t.retired && sub.deletedAt.None?
              then sub.(deletedAt := Some(env.now), active := false) else sub
  {
  }

  /** Row i of these is the first with this key, and no live subcategory had it before. */
  predicate MadeFor(env: Env, byName: map<string, Id>, before: map<Id, Subcategory>, rows: seq<Row>, i: nat,
      s: Subcategory)
  {
    && i < |rows| && !Blank(rows[i].proposedSub)
    && var key := SubKey(env, byName, rows[i]);
       && s == Subcategory(key.0, Trim(rows[i].proposedSub), true, None)
       && (forall x :: x in before ==> !SameLiveSub(env, before[x], s))
       && (forall j :: 0 <= j < i && !Blank(rows[j].proposedSub) ==> SubKey(env, byName, rows[j]) != key)
  }

  /** What the loop over the rows has made: each new row for the first that asked, kept under its key. */
  ghost predicate SubsMade(env: Env, byName: map<string, Id>, before: map<Id, Subcategory>, rows: seq<Row>, s: Subs) {
    && (forall x :: x in before ==> x in s.subcategories && s.subcategories[x] == before[x])
    && (forall k :: k in s.ids <==> exists r :: r in rows && !Blank(r.proposedSub) && SubKey(env, byName, r) == k)
    && (forall x :: x in s.subcategories && x !in before ==>
          && KeptUnder(env, s, x)
          && exists i: nat :: MadeFor(env, byName, before, rows, i, s.subcategories[x]))
  }

  predicate KeptUnder(env: Env, s: Subs, x: Id)
    requires x in s.subcategories
  {
    var key := (s.subcategories[x].category, env.fold(s.subcategories[x].name));
    key in s.ids && s.ids[key] == x
  }

  lemma MadeStays(env: Env, byName: map<string, Id>, before: map<Id, Subcategory>, rows: seq<Row>, r: Row, i: nat,
      s: Subcategory)
    requires MadeFor(env, byName, before, rows, i, s)
    ensures MadeFor(env, byName, before, rows + [r], i, s)
  {
    assert forall j :: 0 <= j <= i ==> (rows + [r])[j] == rows[j];
  }

  lemma SubMade(env: Env, byName: map<string, Id>, before: map<Id, Subcategory>, rows: seq<Row>, r: Row, s: Subs)
    requires GoodEnv(env) && SubsMade(env, byName, before, rows, s)
    ensures SubsMade(env, byName, before, rows + [r], SubFor(env, byName, r, s))
  {
    hide SubFor, MadeFor, KeptUnder, SubKey, Blank, GoodEnv;
    var s' := SubFor(env, byName, r, s);
    SubForKeeps(env, byName, r, s);
    KeysAsked(env, byName, before, rows, r, s);
    forall x | x in s'.subcategories && x !in before
      ensures KeptUnder(env, s', x)
      ensures exists i: nat :: MadeFor(env, byName, before, rows + [r], i, s'.subcategories[x])
    {
      OneSubMade(env, byName, before, rows, r, s, x);
    }
  }

  lemma OneSubMade(env: Env, byName: map<string, Id>, before: map<Id, Subcategory>, rows: seq<Row>, r: Row, s: Subs,
      x: Id)
    requires GoodEnv(env) && SubsMade(env, byName, before, rows, s)
    requires x in SubFor(env, byName, r, s).subcategories && x !in before
    ensures KeptUnder(env, SubFor(env, byName, r, s), x)
    ensures exists i: nat ::
              MadeFor(env, byName, before, rows + [r], i, SubFor(env, byName, r, s).subcategories[x])
  {
    hide SubFor, MadeFor, SubKey, Blank, GoodEnv;
    SubForKeeps(env, byName, r, s);
    if x in s.subcategories {
      assert KeptUnder(env, s, x);
      var i: nat :| MadeFor(env, byName, before, rows, i, s.subcategories[x]);
      MadeStays(env, byName, before, rows, r, i, s.subcategories[x]);
    } else {
      NewSubMade(env, byName, before, rows, r, s);
    }
  }

  lemma SubForKeeps(env: Env, byName: map<string, Id>, r: Row, s: Subs)
    requires GoodEnv(env)
    ensures var s' := SubFor(env, byName, r, s);
            && (forall x :: x in s.subcategories ==>
               x in s'.subcategories && s'.subcategories[x] == s.subcategories[x])
            && (forall k :: k in s.ids ==> k in s'.ids && s'.ids[k] == s.ids[k])
            && s'.ids.Keys == s.ids.Keys + (if Blank(r.proposedSub) then {} else {SubKey(env, byName, r)})
  {
    assert env.newId(s.subcategories.Keys) !in s.subcategories.Keys;
  }

  lemma KeysAsked(env: Env, byName: map<string, Id>, before: map<Id, Subcategory>, rows: seq<Row>, r: Row, s: Subs)
    requires GoodEnv(env) && SubsMade(env, byName, before, rows, s)
    ensures forall k :: k in SubFor(env, byName, r, s).ids <==>
              exists r' :: r' in rows + [r] && !Blank(r'.proposedSub) && SubKey(env, byName, r') == k
  {
    SubForKeeps(env, byName, r, s);
    hide SubFor, SubKey, Blank, MadeFor, KeptUnder;
    assert forall r' :: r' in rows + [r] <==> r' in rows || r' == r;
  }

  lemma NewSubMade(env: Env, byName: map<string, Id>, before: map<Id, Subcategory>, rows: seq<Row>, r: Row, s: Subs)
    requires GoodEnv(env) && SubsMade(env, byName, before, rows, s)
    requires SubFor(env, byName, r, s).subcategories != s.subcategories
    ensures var id := env.newId(s.subcategories.Keys);
            var s' := SubFor(env, byName, r, s);
            && id !in s.subcategories && s'.subcategories.Keys == s.subcategories.Keys + {id}
            && MadeFor(env, byName, before, rows + [r], |rows|, s'.subcategories[id]) && KeptUnder(env, s', id)
  {
    var key := SubKey(env, byName, r);
    var id := env.newId(s.subcategories.Keys);
    var s' := SubFor(env, byName, r, s);
    assert id !in s.subcategories;
    assert MatchingSubs(env, s.subcategories, key) == {};
    forall x | x in before ensures !SameLiveSub(env, before[x], s'.subcategories[id]) {
      assert x !in MatchingSubs(env, s.subcategories, key);
      assert s.subcategories[x] == before[x];
    }
    forall j | 0 <= j < |rows| && !Blank(rows[j].proposedSub) ensures SubKey(env, byName, rows[j]) != key {
      assert rows[j] in rows;
    }
    assert forall j :: 0 <= j < |rows| ==> (rows + [r])[j] == rows[j];
  }

  lemma {:induction false} SubsAreMade(env: Env, byName: map<string, Id>, before: map<Id, Subcategory>, rows: seq<Row>)
    requires GoodEnv(env)
    ensures SubsMade(env, byName, before, rows, SubsFor(env, byName, rows, Subs(before, map[])))
  {
    if rows == [] {
      NoSubsMade(env, byName, before);
    } else {
      var front, last := rows[..|rows| - 1], rows[|rows| - 1];
      assert rows == front + [last];
      hide SubsMade, SubFor, GoodEnv;
      SubsAreMade(env, byName, before, front);
      SubMade(env, byName, before, front, last, SubsFor(env, byName, front, Subs(before, map[])));
    }
  }

  lemma NoSubsMade(env: Env, byName: map<string, Id>, before: map<Id, Subcategory>)
    ensures SubsMade(env, byName, before, [], Subs(before, map[]))
  {
    hide MadeFor, KeptUnder, SubKey;
  }

  /** A row asks for a category and name exactly when its key in the transaction is theirs. */
  lemma AsksExactly(env: Env, db: Db, rows: seq<Row>, t: Trace, r: Row, category: Id, name: string)
    requires Traced(env, db, rows, t) && r in rows
    ensures AsksFor(env, Committed(env, db, t), r, category, name)
        <==> !Blank(r.proposedSub) && SubKey(env, t.naming.byName, r) == (category, name)
  {
    ProposalHasCategory(env, db, rows, t, r);
    NamesStayUnique(env, t.naming.categories, t.retired);
    hide Detailed, Sent, WidenedLinks, WantedLinks, Extends, Retired, IsIndex, Blank, Trim;
  }

  lemma AskedFirst(env: Env, db: Db, rows: seq<Row>, db': Db, byName: map<string, Id>, s: Subcategory, i: nat)
    requires MadeFor(env, byName, db.subcategories, rows, i, s)
    requires forall j :: 0 <= j <= i ==> (AsksFor(env, db', rows[j], s.category, env.fold(s.name))
               <==> !Blank(rows[j].proposedSub) && SubKey(env, byName, rows[j]) == (s.category, env.fold(s.name)))
    ensures FirstToAsk(env, db, rows, db', s, i)
  {
    hide AsksFor, SameLiveSub, Blank, Target;
  }

  lemma MadeUnder(env: Env, byName: map<string, Id>, before: map<Id, Subcategory>, rows: seq<Row>, i: nat,
      s: Subcategory) returns (key: (Id, string))
    requires MadeFor(env, byName, before, rows, i, s)
    ensures i < |rows| && rows[i] in rows && s.category == Target(env, byName, rows[i])
    ensures key == SubKey(env, byName, rows[i])
  {
    key := SubKey(env, byName, rows[i]);
    hide SameLiveSub, Blank, Trim;
  }

  lemma NewSubcategoryEnd(env: Env, db: Db, rows: seq<Row>, t: Trace, s: Id) returns (i: nat)
    requires Traced(env, db, rows, t) && s in t.subs.subcategories && s !in db.subcategories
    requires SubsMade(env, t.naming.byName, db.subcategories, rows, t.subs)
    ensures FirstToAsk(env, db, rows, Committed(env, db, t), t.subs.subcategories[s], i)
    ensures t.subs.subcategories[s].category !in t.retired
  {
    var sub := t.subs.subcategories[s];
    hide Traced, AsksFor, KeptUnder, Committed, FirstToAsk, SameLiveSub, Blank, SubKey, IsProposed, Target;
    i :| MadeFor(env, t.naming.byName, db.subcategories, rows, i, sub);
    hide SubsMade;
    var key := MadeUnder(env, t.naming.byName, db.subcategories, rows, i, sub);
    hide MadeFor;
    ProposalHasCategory(env, db, rows, t, rows[i]);
    forall j | 0 <= j <= i
      ensures AsksFor(env, Committed(env, db, t), rows[j], sub.category, env.fold(sub.name))
          <==> !Blank(rows[j].proposedSub)
               && SubKey(env, t.naming.byName, rows[j]) == (sub.category, env.fold(sub.name))
    {
      AsksExactly(env, db, rows, t, rows[j], sub.category, env.fold(sub.name));
    }
    AskedFirst(env, db, rows, Committed(env, db, t), t.naming.byName, sub, i);
  }

  lemma AskedEnd(env: Env, db: Db, rows: seq<Row>, t: Trace, r: Row)
    requires Traced(env, db, rows, t) && r in rows && !Blank(r.proposedSub)
    ensures AskedIsThere(env, Committed(env, db, t), r)
  {
    hide Named, Sent, WidenedLinks, WantedLinks, Retired, AsksFor, IsProposed, Blank;
    var s := t.subs.ids[SubKey(env, t.naming.byName, r)];
    ProposalHasCategory(env, db, rows, t, r);
    AsksExactly(env, db, rows, t, r, t.subs.subcategories[s].category, env.fold(t.subs.subcategories[s].name));
    SubsAfter(env, db, t, s);
    hide Committed, SubKey;
    assert AsksFor(env, Committed(env, db, t), r, Committed(env, db, t).subcategories[s].category,
           env.fold(Committed(env, db, t).subcategories[s].name));
  }

  /** No two new subcategories of a category have one folded name. */
  lemma OneEach(env: Env, s: Subs, x: Id, y: Id)
    requires x in s.subcategories && y in s.subcategories && KeptUnder(env, s, x) && KeptUnder(env, s, y)
    requires SameLiveSub(env, s.subcategories[x], s.subcategories[y])
    ensures x == y
  {
  }

  lemma SubsAfter(env: Env, db: Db, t: Trace, s: Id)
    requires s in t.subs.subcategories && t.subs.subcategories[s].category !in t.retired
    ensures s in Committed(env, db, t).subcategories
            && Committed(env, db, t).subcategories[s] == t.subs.subcategories[s]
  {
  }

  lemma SameSubs(env: Env, db: Db, t: Trace)
    ensures Committed(env, db, t).subcategories.Keys == t.subs.subcategories.Keys
  {
  }

  lemma NoDoublesEnd(env: Env, db: Db, rows: seq<Row>, t: Trace)
    requires Traced(env, db, rows, t) && SubsMade(env, t.naming.byName, db.subcategories, rows, t.subs)
    ensures NoDoubles(env, db, Committed(env, db, t))
  {
    var db' := Committed(env, db, t);
    hide Traced, Committed, KeptUnder, MadeFor, SameLiveSub;
    SameSubs(env, db, t);
    forall s, x | s in db'.subcategories && x in db'.subcategories && s !in db.subcategories && s != x
        && x !in db.subcategories
      ensures !SameLiveSub(env, db'.subcategories[x], db'.subcategories[s])
    {
      var i := NewSubcategoryEnd(env, db, rows, t, s);
      var j := NewSubcategoryEnd(env, db, rows, t, x);
      SubsAfter(env, db, t, s);
      SubsAfter(env, db, t, x);
      if SameLiveSub(env, db'.subcategories[x], db'.subcategories[s]) {
        OneEach(env, t.subs, x, s);
      }
    }
  }

  lemma NewSubcategoriesEnd(env: Env, db: Db, rows: seq<Row>, t: Trace)
    requires GoodEnv(env) && Traced(env, db, rows, t) && t == TraceOf(env, db, rows)
    ensures NewSubcategories(env, db, rows, Committed(env, db, t))
  {
    var db' := Committed(env, db, t);
    assert SubsMade(env, t.naming.byName, db.subcategories, rows, t.subs) by {
      SubsAreMade(env, t.naming.byName, db.subcategories, rows);
    }
    hide Traced, TraceOf, FirstToAsk, Committed, SubsMade, NoDoubles, AskedIsThere, Blank, GoodEnv;
    SameSubs(env, db, t);
    NoDoublesEnd(env, db, rows, t);
    forall s | s in db'.subcategories && s !in db.subcategories
      ensures exists i: nat :: FirstToAsk(env, db, rows, db', db'.subcategories[s], i)
    {
      var i := NewSubcategoryEnd(env, db, rows, t, s);
      SubsAfter(env, db, t, s);
    }
    forall r | r in rows && !Blank(r.proposedSub) ensures AskedIsThere(env, db', r) {
      AskedEnd(env, db, rows, t, r);
    }
  }

  /* ---- links and products ---- */

  lemma WantedExactly(env: Env, db: Db, rows: seq<Row>, t: Trace, l: Link)
    requires Traced(env, db, rows, t)
    ensures l in WantedLinks(db, t.products) <==> Wanted(db, Committed(env, db, t), l)
  {
    hide Traced;
    var moved := set l, p | l in db.links && p in db.products && p in t.products
                            && t.products[p].category != db.products[p].category && l.1 == db.products[p].category
                  :: (l.0, t.products[p].category);
    var listed := set listing | listing in db.listings && listing.1 in t.products ::
        (listing.0, t.products[listing.1].category);
    assert WantedLinks(db, t.products) == moved + listed;
    if p :| p in db.products && p in t.products && t.products[p].category == l.1
            && db.products[p].category != l.1 && (l.0, db.products[p].category) in db.links {
      assert (l.0, db.products[p].category) in db.links;
      assert l == ((l.0, db.products[p].category).0, t.products[p].category);
      assert l in moved;
    }
    if p :| p in t.products && (l.0, p) in db.listings && t.products[p].category == l.1 {
      assert l == ((l.0, p).0, t.products[(l.0, p).1].category);
      assert l in listed;
    }
  }

  lemma LinkAfter(env: Env, db: Db, t: Trace, l: Link)
    requires t.links == WidenedLinks(env, db.links, WantedLinks(db, t.products))
    ensures var links := Committed(env, db, t).links;
            && (l in links <==> (l in db.links || l in WantedLinks(db, t.products)) && l.1 !in t.retired)
            && (l in links ==> links[l] == if l in db.links then db.links[l] else env.linkRow)
  {
    hide WantedLinks;
  }

  lemma LinksTraced(env: Env, db: Db, rows: seq<Row>, t: Trace)
    requires Traced(env, db, rows, t)
    ensures t.links == WidenedLinks(env, db.links, WantedLinks(db, t.products))
  {
    hide Named, Detailed, Sent, WidenedLinks, WantedLinks, Retired;
  }

  lemma LinksEnd(env: Env, db: Db, rows: seq<Row>, t: Trace)
    requires Traced(env, db, rows, t) && Approvable(db, rows) && References(db)
    ensures Links(env, db, rows, Committed(env, db, t))
  {
    hide Traced, Approvable, References, Emptied, Wanted, WantedLinks, WidenedLinks, Committed;
    LinksTraced(env, db, rows, t);
    var db' := Committed(env, db, t);
    forall l: Link
      ensures l in db'.links <==> (l in db.links || Wanted(db, db', l)) && !Emptied(env, db, rows, db', l.1)
      ensures l in db'.links ==> db'.links[l] == if l in db.links then db.links[l] else env.linkRow
    {
      RetiredExactly(env, db, rows, t, l.1);
      WantedExactly(env, db, rows, t, l);
      LinkAfter(env, db, t, l);
    }
  }

  lemma ListedProductEnd(env: Env, db: Db, rows: seq<Row>, t: Trace, p: Id) returns (r: Row)
    requires Traced(env, db, rows, t) && Approvable(db, rows) && p in db.products
    requires exists r :: r in rows && r.product == p
    ensures var db' := Committed(env, db, t);
            && r in rows && r.product == p && p in db'.products
            && PlacedBy(env, db'.categories, db'.subcategories, db.products[p], db'.products[p], r)
  {
    r := Placed(env, db, rows, t, p);
    hide DetailedBy, Approvable;
    ProposalHasCategory(env, db, rows, t, r);
    NotRetired(env, db, rows, t, r, t.products[p].category);
    hide Traced;
    PlaceStays(env, t.naming.categories, t.subs.subcategories, t.retired, db.products[p], t.products[p], r);
  }

  /** A category a row proposes is not retired. */
  lemma NotRetired(env: Env, db: Db, rows: seq<Row>, t: Trace, r: Row, c: Id)
    requires Traced(env, db, rows, t) && r in rows && c in t.naming.categories
    requires env.fold(t.naming.categories[c].name) == Folded(env, r.proposed)
    ensures c !in t.retired
  {
    hide Named, Detailed, Sent, WidenedLinks, WantedLinks, InUse;
    var kept := set r' | r' in rows :: Folded(env, r'.proposed);
    assert Folded(env, r.proposed) in kept;
  }

  lemma PlaceStays(env: Env, categories: map<Id, Category>, subcategories: map<Id, Subcategory>, retired: set<Id>,
      was: Product, now: Product, r: Row)
    requires PlacedBy(env, categories, subcategories, was, now, r) && now.category !in retired
    ensures PlacedBy(env, RetiredCategories(env, categories, retired), RetiredSubs(env, subcategories, retired), was,
            now, r)
  {
  }

  lemma ProductsEnd(env: Env, db: Db, rows: seq<Row>, t: Trace)
    requires Traced(env, db, rows, t) && Approvable(db, rows)
    ensures ListedProducts(env, db, rows, Committed(env, db, t))
  {
    hide Traced, Approvable, PlacedBy, ListedProduct;
    LiveStays(env, db, rows, t);
    forall p | p in db.products ensures ListedProduct(env, db, rows, Committed(env, db, t), p) {
      ProductEnd(env, db, rows, t, p);
    }
  }

  lemma ProductEnd(env: Env, db: Db, rows: seq<Row>, t: Trace, p: Id)
    requires Traced(env, db, rows, t) && Approvable(db, rows) && p in db.products
    ensures p in Committed(env, db, t).products && ListedProduct(env, db, rows, Committed(env, db, t), p)
  {
    hide Traced, Approvable, PlacedBy;
    if exists r :: r in rows && r.product == p {
      var r := ListedProductEnd(env, db, rows, t, p);
      hide Committed;
    } else {
      UnlistedStays(env, db, rows, t, p);
    }
  }

  /* ---- the whole ---- */

  /** Every row of every table after an applied report. */
  lemma AppliedExactly(env: Env, db: Db, rows: seq<Row>)
    requires GoodEnv(env) && UniqueNames(env, db.categories) && References(db) && Applied(env, db, rows).Some?
    ensures var db' := Applied(env, db, rows).value;
            && OldCategories(env, db, rows, db') && NewCategories(env, db, rows, db')
            && OldSubcategories(env, db, rows, db') && NewSubcategories(env, db, rows, db')
            && Links(env, db, rows, db') && ListedProducts(env, db, rows, db')
            && db'.shops == db.shops && db'.listings == db.listings
  {
    var t := TraceOf(env, db, rows);
    TraceIsTraced(env, db, rows);
    assert Applied(env, db, rows).value == Committed(env, db, t) && Approvable(db, rows);
    hide TraceOf, Applied, Traced, Approvable, References, UniqueNames;
    hide OldCategories, NewCategories, OldSubcategories, NewSubcategories, Links, ListedProducts;
    OldCategoriesEnd(env, db, rows, t);
    NewCategoriesEnd(env, db, rows, t);
    OldSubcategoriesEnd(env, db, rows, t);
    NewSubcategoriesEnd(env, db, rows, t);
    LinksEnd(env, db, rows, t);
    ProductsEnd(env, db, rows, t);
  }

  /** The categories that the dry run says will be retired are, and every other old one is as it was. */
  ghost predicate RetiresAnnounced(env: Env, db: Db, rows: seq<Row>, db': Db) {
    forall c :: c in db.categories ==>
      c in db'.categories && db'.categories[c] ==
        if c in PlannedRetire(env, rows, db.categories)
        then db.categories[c].(deletedAt := Some(env.now), active := false) else db.categories[c]
  }

  lemma AnnouncedIsRetired(env: Env, db: Db, rows: seq<Row>)
    requires GoodEnv(env) && UniqueNames(env, db.categories) && References(db) && Applied(env, db, rows).Some?
    requires FromDryRun(db, rows)
    ensures RetiresAnnounced(env, db, rows, Applied(env, db, rows).value)
  {
    var t := TraceOf(env, db, rows);
    TraceIsTraced(env, db, rows);
    assert Applied(env, db, rows).value == Committed(env, db, t) && Approvable(db, rows);
    hide TraceOf, Applied, Traced, Approvable, References, UniqueNames, PlannedRetire, Emptied, FromDryRun, Committed;
    DryRunTellsTheTruth(env, db, rows);
    OldCategoriesEnd(env, db, rows, t);
    forall c | c in db.categories
      ensures c in PlannedRetire(env, rows, db.categories) <==> Emptied(env, db, rows, Committed(env, db, t), c)
    {
      RetiredExactly(env, db, rows, t, c);
    }
  }

  /**
   What is announced: a live ordinary category that some row moves away from, that no row of its products keeps, and
   whose name no row proposes.
   */
  lemma AnnouncedExactly(env: Env, rows: seq<Row>, categories: map<Id, Category>, c: Id)
    ensures c in PlannedRetire(env, rows, categories) <==>
              && c in categories && categories[c].deletedAt.None? && !categories[c].isSystem
              && (exists r :: r in rows && r.oldCategoryId == c && env.fold(r.oldCategory) != env.fold(r.proposed))
              && (forall r :: r in rows && r.oldCategoryId == c ==> env.fold(r.oldCategory) != env.fold(r.proposed))
              && (forall r :: r in rows ==> env.fold(r.proposed) != env.fold(categories[c].name))
  {
    assert forall r :: r in rows ==> (Stays(env, r) <==> env.fold(r.oldCategory) == env.fold(r.proposed));
    assert c in MovedAway(env, rows) <==> exists r :: r in rows && !Stays(env, r) && r.oldCategoryId == c;
    assert c in StillUsed(env, rows) <==> exists r :: r in rows && Stays(env, r) && r.oldCategoryId == c;
    if c in categories {
      NameProposed(env, rows, categories[c].name);
    }
    hide MovedAway, StillUsed, ProposedNames, Stays;
  }

  lemma NameProposed(env: Env, rows: seq<Row>, name: string)
    ensures env.fold(name) in ProposedNames(env, rows) <==>
              exists r :: r in rows && env.fold(r.proposed) == env.fold(name)
  {
  }

  /** Every row proposes a name, its product is where it was at the dry run, and every live product has a row. */
  predicate Checked(db: Db, rows: seq<Row>) {
    && (forall r :: r in rows ==>
          && Trim(r.proposed) != "" && r.product in db.products
          && db.products[r.product].category == r.oldCategoryId)
    && (forall p :: p in db.products && db.products[p].live ==> exists r :: r in rows && r.product == p)
  }

  /** A report is applied exactly when it passes these checks and there is a live General category. */
  lemma AppliedWhen(env: Env, db: Db, rows: seq<Row>)
    requires GoodEnv(env) && UniqueNames(env, db.categories)
    ensures Approvable(db, rows) <==> Checked(db, rows)
    ensures Applied(env, db, rows).Some? <==>
              && Checked(db, rows)
              && exists c :: c in db.categories && db.categories[c].deletedAt.None? && db.categories[c].isSystem
  {
    LastCheckNeverFails(env, db, rows);
    hide Applied, Trim;
  }
}
