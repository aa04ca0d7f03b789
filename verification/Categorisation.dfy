/**
 What applying and restoring a categorisation guarantee (scripts/categorise-products.ts).
 */
module Categorisation {
  import opened Text
  import opened Catalogue

  /* ---- categories ---- */

  lemma ByNameIsIndex(env: Env, categories: map<Id, Category>)
    ensures IsIndex(env, Naming(categories, ByName(env, categories)))
  {
  }

  /**
   What creating categories keeps: old rows stay as they are, new ones are live and ordinary, and no name is given
   twice.
   */
  ghost predicate Extends(n: Naming, n': Naming) {
    && (forall c :: c in n.categories ==> c in n'.categories && n'.categories[c] == n.categories[c])
    && (forall c :: c in n'.categories && c !in n.categories ==> Live(n'.categories[c]) && !n'.categories[c].isSystem)
    && (forall name :: name in n.byName ==> name in n'.byName && n'.byName[name] == n.byName[name])
  }

  lemma CreateOne(env: Env, name: string, n: Naming)
    requires GoodEnv(env) && IsIndex(env, n) && UniqueNames(env, n.categories) && env.fold(name) !in n.byName
    ensures var id := env.newId(n.categories.Keys);
            var n' := Naming(n.categories[id := NewCategory(env, name)], n.byName[env.fold(name) := id]);
            IsIndex(env, n') && UniqueNames(env, n'.categories) && Extends(n, n')
  {
    var id := env.newId(n.categories.Keys);
    var n' := Naming(n.categories[id := NewCategory(env, name)], n.byName[env.fold(name) := id]);
    assert id !in n.categories;
    assert forall c :: c in n'.categories ==>
           n'.categories[c] == if c == id then NewCategory(env, name) else n.categories[c];
  }

  lemma {:induction false} CreatedOk(env: Env, names: seq<string>, n: Naming)
    requires GoodEnv(env) && IsIndex(env, n) && UniqueNames(env, n.categories)
    ensures var n' := Created(env, names, n);
            && IsIndex(env, n') && UniqueNames(env, n'.categories) && Extends(n, n')
            && forall name :: name in names ==> env.fold(name) in n'.byName
  {
    if names != [] {
      if env.fold(names[0]) in n.byName {
        CreatedOk(env, names[1..], n);
      } else {
        CreateOne(env, names[0], n);
        var id := env.newId(n.categories.Keys);
        CreatedOk(env, names[1..], Naming(n.categories[id := NewCategory(env, names[0])],
            n.byName[env.fold(names[0]) := id]));
      }
      assert forall name :: name in names ==> name == names[0] || name in names[1..];
    }
  }

  /** A new category is one of the asked-for names that no live category had, as the details for that name say. */
  lemma {:induction false} OnlyMissingCreated(env: Env, names: seq<string>, n: Naming, c: Id)
    requires GoodEnv(env) && c in Created(env, names, n).categories && c !in n.categories
    ensures exists name ::
              && name in names && env.fold(name) !in n.byName
              && Created(env, names, n).categories[c] == NewCategory(env, name)
  {
    assert forall name :: name in names[1..] ==> name in names;
    if env.fold(names[0]) in n.byName {
      OnlyMissingCreated(env, names[1..], n, c);
    } else {
      var id := env.newId(n.categories.Keys);
      var n' := Naming(n.categories[id := NewCategory(env, names[0])], n.byName[env.fold(names[0]) := id]);
      if c in n'.categories {
        CreatedStays(env, names[1..], n', c);
        assert names[0] in names;
      } else {
        OnlyMissingCreated(env, names[1..], n', c);
      }
    }
  }

  lemma {:induction false} CreatedStays(env: Env, names: seq<string>, n: Naming, c: Id)
    requires GoodEnv(env) && c in n.categories
    ensures c in Created(env, names, n).categories && Created(env, names, n).categories[c] == n.categories[c]
  {
    if names != [] {
      if env.fold(names[0]) in n.byName {
        CreatedStays(env, names[1..], n, c);
      } else {
        var id := env.newId(n.categories.Keys);
        CreatedStays(env, names[1..],
            Naming(n.categories[id := NewCategory(env, names[0])], n.byName[env.fold(names[0]) := id]), c);
      }
    }
  }

  lemma {:induction false} DistinctSame(names: seq<string>)
    ensures forall name :: name in Distinct(names) <==> name in names
  {
    if names != [] {
      DistinctSame(names[..|names| - 1]);
      assert forall name :: name in names <==> name in names[..|names| - 1] || name == names[|names| - 1];
    }
  }

  /* ---- subcategories ---- */

  ghost predicate SubsOk(env: Env, categories: map<Id, Category>, before: map<Id, Subcategory>, s: Subs) {
    && (forall x :: x in before ==> x in s.subcategories && s.subcategories[x] == before[x])
    && (forall x :: x in s.subcategories && x !in before ==> s.subcategories[x].category in categories)
    && (forall k :: k in s.ids ==> s.ids[k] in s.subcategories && s.subcategories[s.ids[k]].category == k.0
                                   && env.fold(s.subcategories[s.ids[k]].name) == k.1
                                      && s.subcategories[s.ids[k]].deletedAt.None?)
  }

  lemma SubForOk(env: Env, n: Naming, before: map<Id, Subcategory>, r: Row, s: Subs)
    requires GoodEnv(env) && IsIndex(env, n) && Folded(env, r.proposed) in n.byName
    requires SubsOk(env, n.categories, before, s)
    ensures SubsOk(env, n.categories, before, SubFor(env, n.byName, r, s))
    ensures !Blank(r.proposedSub) ==> SubKey(env, n.byName, r) in SubFor(env, n.byName, r, s).ids
    ensures s.ids.Keys <= SubFor(env, n.byName, r, s).ids.Keys
  {
    var key := SubKey(env, n.byName, r);
    var found := MatchingSubs(env, s.subcategories, key);
    if found != {} {
      assert env.anyId(found) in found;
    } else {
      assert env.newId(s.subcategories.Keys) !in s.subcategories;
    }
  }

  lemma {:induction false} SubsForOk(env: Env, n: Naming, before: map<Id, Subcategory>, rows: seq<Row>)
    requires GoodEnv(env) && IsIndex(env, n)
    requires forall r :: r in rows ==> Folded(env, r.proposed) in n.byName
    ensures var s := SubsFor(env, n.byName, rows, Subs(before, map[]));
            && SubsOk(env, n.categories, before, s)
            && forall r :: r in rows && !Blank(r.proposedSub) ==> SubKey(env, n.byName, r) in s.ids
  {
    if rows != [] {
      var front, last := rows[..|rows| - 1], rows[|rows| - 1];
      assert rows == front + [last];
      SubsForOk(env, n, before, front);
      SubForOk(env, n, before, last, SubsFor(env, n.byName, front, Subs(before, map[])));
    }
  }

  /* ---- moves ---- */

  lemma {:induction false} MovesAre(env: Env, byName: map<string, Id>, ids: map<(Id, string), Id>, rows: seq<Row>)
    ensures forall m :: m in Moves(env, byName, ids, rows) <==>
              exists r :: r in rows && m == MoveOf(env, byName, ids, r) && m.from != m.to
  {
    if rows != [] {
      var front, last := rows[..|rows| - 1], rows[|rows| - 1];
      assert rows == front + [last];
      MovesAre(env, byName, ids, front);
    }
  }

  /** Each product is as before when no move names it, and otherwise where one of its moves puts it. */
  ghost predicate Moved(before: map<Id, Product>, moves: seq<Move>, after: map<Id, Product>) {
    && after.Keys == before.Keys
    && (forall p :: p in before ==> MovedOne(before[p], p, moves, after[p]))
  }

  ghost predicate MovedOne(was: Product, p: Id, moves: seq<Move>, now: Product) {
    || (now == was && forall m :: m in moves ==> m.product != p)
    || (exists m :: m in moves && m.product == p && now == was.(category := m.to, sub := m.sub))
  }

  lemma UpdatedMoves(env: Env, products: map<Id, Product>, batch: seq<Move>)
    requires GoodEnv(env)
    ensures Moved(products, batch, Updated(env, products, batch))
  {
    forall p | p in products ensures MovedOne(products[p], p, batch, Updated(env, products, batch)[p]) {
      var hits := Hits(batch, p);
      if hits == {} {
        assert forall i :: 0 <= i < |batch| && batch[i].product == p ==> i in hits;
      } else {
        assert env.anyIndex(hits) in hits;
      }
    }
  }

  lemma MovedTwice(a: map<Id, Product>, first: seq<Move>, b: map<Id, Product>, second: seq<Move>, c: map<Id, Product>)
    requires Moved(a, first, b) && Moved(b, second, c)
    ensures Moved(a, first + second, c)
  {
    forall p | p in a ensures MovedOne(a[p], p, first + second, c[p]) {
      assert MovedOne(a[p], p, first, b[p]) && MovedOne(b[p], p, second, c[p]);
    }
  }

  lemma {:induction false} BatchesMove(env: Env, products: map<Id, Product>, moves: seq<Move>)
    requires GoodEnv(env)
    ensures Moved(products, moves, UpdatedInBatches(env, products, moves))
    decreases |moves|
  {
    if moves != [] {
      var n := if |moves| < BATCH then |moves| else BATCH;
      var next := Updated(env, products, moves[..n]);
      UpdatedMoves(env, products, moves[..n]);
      BatchesMove(env, next, moves[n..]);
      MovedTwice(products, moves[..n], next, moves[n..], UpdatedInBatches(env, products, moves));
      assert moves[..n] + moves[n..] == moves;
    }
  }

  /** All moves at once. */
  ghost function MovedAtOnce(products: map<Id, Product>, moves: seq<Move>): map<Id, Product> {
    map p | p in products ::
      if exists m :: m in moves && m.product == p
      then (var m :| m in moves && m.product == p; products[p].(category := m.to, sub := m.sub)) else products[p]
  }

  ghost predicate Apart(moves: seq<Move>) {
    forall i, j | 0 <= i < j < |moves| :: moves[i].product != moves[j].product
  }

  /** When no product has two moves, updating in batches of 500 is one simultaneous update. */
  lemma BatchesAreOneUpdate(env: Env, products: map<Id, Product>, moves: seq<Move>)
    requires GoodEnv(env)
    requires Apart(moves)
    ensures UpdatedInBatches(env, products, moves) == MovedAtOnce(products, moves)
  {
    BatchesMove(env, products, moves);
    var after := UpdatedInBatches(env, products, moves);
    forall p | p in products ensures after[p] == MovedAtOnce(products, moves)[p] {
      assert MovedOne(products[p], p, moves, after[p]);
      assert forall m, m' :: m in moves && m' in moves && m.product == m'.product ==> m == m';
    }
  }

  predicate Names(moves: seq<Move>, p: Id) {
    exists i :: 0 <= i < |moves| && moves[i].product == p
  }

  /** A product that moves name is where one of them puts it; another one stays. */
  lemma MovedBy(before: map<Id, Product>, moves: seq<Move>, after: map<Id, Product>, p: Id) returns (j: nat)
    requires Moved(before, moves, after) && p in before
    ensures !Names(moves, p) ==> after[p] == before[p]
    ensures Names(moves, p) ==>
              && j < |moves| && moves[j].product == p
              && after[p] == before[p].(category := moves[j].to, sub := moves[j].sub)
  {
    assert MovedOne(before[p], p, moves, after[p]);
    if Names(moves, p) {
      var i :| 0 <= i < |moves| && moves[i].product == p;
      assert moves[i] in moves;
      var m :| m in moves && m.product == p && after[p] == before[p].(category := m.to, sub := m.sub);
      j :| 0 <= j < |moves| && moves[j] == m;
    } else {
      j := 0;
    }
  }

  lemma NamedLater(moves: seq<Move>, n: nat, p: Id)
    requires n <= |moves|
    ensures Names(moves, p) <==> Names(moves[..n], p) || Names(moves[n..], p)
    ensures !Names(moves[n..], p) ==> forall i :: 0 <= i < |moves| && moves[i].product == p ==> i < n
  {
    if i :| 0 <= i < |moves| && moves[i].product == p {
      assert if i < n then moves[..n][i].product == p else moves[n..][i - n].product == p;
    }
    if i :| 0 <= i < |moves[n..]| && moves[n..][i].product == p {
      assert moves[n + i].product == p;
    }
    forall i | n <= i < |moves| && moves[i].product == p ensures Names(moves[n..], p) {
      assert moves[n..][i - n].product == p;
    }
  }

  /** Of several moves of a product one in the last batch of 500 that names it counts. */
  lemma {:induction false} LastBatchDecides(env: Env, products: map<Id, Product>, moves: seq<Move>, p: Id)
    returns (j: nat)
    requires GoodEnv(env) && p in products && Names(moves, p)
    ensures j < |moves| && moves[j].product == p && p in UpdatedInBatches(env, products, moves)
    ensures UpdatedInBatches(env, products, moves)[p]
            == products[p].(category := moves[j].to, sub := moves[j].sub)
    ensures forall i :: 0 <= i < |moves| && moves[i].product == p ==> i / 500 <= j / 500
    decreases |moves|
  {
    hide Updated, UpdatedInBatches, Moved, Names, GoodEnv;
    var n := if |moves| < BATCH then |moves| else BATCH;
    var first, rest := moves[..n], moves[n..];
    var next := Updated(env, products, first);
    assert forall i :: 0 <= i < n ==> first[i] == moves[i];
    NoNames(moves, p);
    FirstBatch(env, products, moves, n);
    NoNames(rest, p);
    UpdatedMoves(env, products, first);
    BatchesMove(env, next, rest);
    MovedRows(products, first, next);
    NamedLater(moves, n, p);
    var k := MovedBy(products, first, next, p);
    if Names(rest, p) {
      var l := LastBatchDecides(env, next, rest, p);
      j := l + n;
      MovedRows(next, rest, UpdatedInBatches(env, next, rest));
      LaterBatch(moves, n, l, p);
      assert moves[j] == rest[l];
    } else {
      MovedRows(next, rest, UpdatedInBatches(env, next, rest));
      var _ := MovedBy(next, rest, UpdatedInBatches(env, next, rest), p);
      j := k;
      assert forall i :: 0 <= i < |moves| && moves[i].product == p ==> i / 500 == 0;
    }
  }

  lemma FirstBatch(env: Env, products: map<Id, Product>, moves: seq<Move>, n: nat)
    requires moves != [] && n == if |moves| < BATCH then |moves| else BATCH
    ensures UpdatedInBatches(env, products, moves)
         == UpdatedInBatches(env, Updated(env, products, moves[..n]), moves[n..])
  {
    hide Updated;
  }

  lemma NoNames(moves: seq<Move>, p: Id)
    ensures moves == [] ==> !Names(moves, p)
  {
  }

  lemma MovedRows(before: map<Id, Product>, moves: seq<Move>, after: map<Id, Product>)
    requires Moved(before, moves, after)
    ensures after.Keys == before.Keys
  {
  }

  lemma LaterBatch(moves: seq<Move>, n: nat, l: nat, p: Id)
    requires n == 500 <= |moves|
    requires forall i :: 0 <= i < |moves[n..]| && moves[n..][i].product == p ==> i / 500 <= l / 500
    ensures forall i :: 0 <= i < |moves| && moves[i].product == p ==> i / 500 <= (l + n) / 500
  {
    forall i | 0 <= i < |moves| && moves[i].product == p ensures i / 500 <= (l + n) / 500 {
      if i >= n {
        assert moves[n..][i - n].product == p;
      }
    }
  }

  lemma {:induction false} MovesApart(env: Env, byName: map<string, Id>, ids: map<(Id, string), Id>, rows: seq<Row>)
    requires forall i, j | 0 <= i < j < |rows| :: rows[i].product != rows[j].product
    ensures Apart(Moves(env, byName, ids, rows))
  {
    if rows != [] {
      var front, last := rows[..|rows| - 1], rows[|rows| - 1];
      MovesApart(env, byName, ids, front);
      MovesAre(env, byName, ids, front);
      var moves := Moves(env, byName, ids, front);
      forall m | m in moves ensures m.product != last.product {
        var r :| r in front && m == MoveOf(env, byName, ids, r) && m.from != m.to;
        var i :| 0 <= i < |front| && front[i] == r;
        assert rows[i] == r;
      }
      ApartPlus(moves, MoveOf(env, byName, ids, last));
    }
  }

  lemma ApartPlus(moves: seq<Move>, m: Move)
    requires Apart(moves) && forall m' :: m' in moves ==> m'.product != m.product
    ensures Apart(moves + [m])
  {
    var more := moves + [m];
    forall i, j | 0 <= i < j < |more| ensures more[i].product != more[j].product {
      assert moves[i] in moves;
    }
  }

  /* ---- the whole transaction ---- */

  /** What holds of every step of an approved report's transaction. */
  ghost predicate Traced(env: Env, db: Db, rows: seq<Row>, t: Trace) {
    && Named(env, db, rows, t) && Detailed(env, db, rows, t) && Sent(env, db, rows, t)
    && t.links == WidenedLinks(env, db.links, WantedLinks(db, t.products))
    && t.retired == Retired(env, rows, t.moves, t.naming.categories, t.products)
  }

  ghost predicate Named(env: Env, db: Db, rows: seq<Row>, t: Trace) {
    && IsIndex(env, t.naming) && UniqueNames(env, t.naming.categories)
    && Extends(Naming(db.categories, ByName(env, db.categories)), t.naming)
    && (forall r :: r in rows ==> Folded(env, r.proposed) in t.naming.byName)
  }

  ghost predicate Detailed(env: Env, db: Db, rows: seq<Row>, t: Trace) {
    && SubsOk(env, t.naming.categories, db.subcategories, t.subs)
    && (forall r :: r in rows && !Blank(r.proposedSub) ==> SubKey(env, t.naming.byName, r) in t.subs.ids)
  }

  ghost predicate Sent(env: Env, db: Db, rows: seq<Row>, t: Trace) {
    && (forall m :: m in t.moves <==>
       exists r :: r in rows && m == MoveOf(env, t.naming.byName, t.subs.ids, r) && m.from != m.to)
    && Moved(db.products, t.moves, t.products)
  }

  lemma TraceIsTraced(env: Env, db: Db, rows: seq<Row>)
    requires GoodEnv(env) && UniqueNames(env, db.categories)
    ensures Traced(env, db, rows, TraceOf(env, db, rows))
  {
    var t := TraceOf(env, db, rows);
    var names := Distinct(Proposals(rows));
    ByNameIsIndex(env, db.categories);
    CreatedOk(env, names, Naming(db.categories, ByName(env, db.categories)));
    DistinctSame(Proposals(rows));
    forall r | r in rows ensures Folded(env, r.proposed) in t.naming.byName {
      var i :| 0 <= i < |rows| && rows[i] == r;
      assert Proposals(rows)[i] in names;
    }
    SubsForOk(env, t.naming, db.subcategories, rows);
    MovesAre(env, t.naming.byName, t.subs.ids, rows);
    BatchesMove(env, db.products, t.moves);
  }

  /** The row a product's place comes from: of several rows for it, the one whose move the database used last. */
  lemma ChosenRow(env: Env, db: Db, rows: seq<Row>, t: Trace, p: Id) returns (r: Row)
    requires Sent(env, db, rows, t) && Approvable(db, rows)
    requires p in db.products && exists r :: r in rows && r.product == p
    ensures r in rows && r.product == p && p in t.products
    ensures var m := MoveOf(env, t.naming.byName, t.subs.ids, r);
            t.products[p] == if m.to == db.products[p].category then db.products[p]
                else db.products[p].(category := m.to, sub := m.sub)
  {
    assert MovedOne(db.products[p], p, t.moves, t.products[p]);
    if m :| m in t.moves && m.product == p && t.products[p] == db.products[p].(category := m.to, sub := m.sub) {
      r :| r in rows && m == MoveOf(env, t.naming.byName, t.subs.ids, r) && m.from != m.to;
    } else {
      r :| r in rows && r.product == p;
      var m := MoveOf(env, t.naming.byName, t.subs.ids, r);
      assert m.from == m.to;
    }
  }

  /**
   The product is where the row wants it: in the live category so named, and when that is a new one, with the row's
   detail.
   */
  ghost predicate PlacedBy(
    env: Env, categories: map<Id, Category>, subcategories: map<Id, Subcategory>, was: Product, now: Product, r: Row)
  {
    && now.category in categories && Live(categories[now.category])
    && env.fold(categories[now.category].name) == Folded(env, r.proposed)
    && now.live == was.live
    && if now.category == was.category then now.sub == was.sub else DetailedBy(env, subcategories, now, r)
  }

  ghost predicate DetailedBy(env: Env, subcategories: map<Id, Subcategory>, now: Product, r: Row) {
    if Blank(r.proposedSub) then now.sub == None
    else
      && now.sub.Some? && now.sub.value in subcategories
      && var s := subcategories[now.sub.value];
      s.category == now.category && env.fold(s.name) == Folded(env, r.proposedSub) && s.deletedAt.None?
  }

  lemma Placed(env: Env, db: Db, rows: seq<Row>, t: Trace, p: Id) returns (r: Row)
    requires Traced(env, db, rows, t) && Approvable(db, rows)
    requires p in db.products && exists r :: r in rows && r.product == p
    ensures r in rows && r.product == p && p in t.products
    ensures PlacedBy(env, t.naming.categories, t.subs.subcategories, db.products[p], t.products[p], r)
  {
    hide UniqueNames, Extends, WidenedLinks, WantedLinks, Retired;
    r := ChosenRow(env, db, rows, t, p);
    hide Sent, Approvable;
    assert Folded(env, r.proposed) in t.naming.byName;
    assert !Blank(r.proposedSub) ==> SubKey(env, t.naming.byName, r) in t.subs.ids;
  }

  lemma StaysLive(env: Env, db: Db, rows: seq<Row>, t: Trace, p: Id)
    requires Traced(env, db, rows, t) && p in db.products && db.products[p].live
    ensures t.products.Keys == db.products.Keys && t.products[p].live && t.products[p].category !in t.retired
    ensures t.links == WidenedLinks(env, db.links, WantedLinks(db, t.products))
  {
    hide Named, Detailed, WidenedLinks, WantedLinks;
    assert MovedOne(db.products[p], p, t.moves, t.products[p]);
    assert InUse(t.products, t.products[p].category);
  }

  lemma NoOrphan(env: Env, db: Db, rows: seq<Row>)
    requires GoodEnv(env) && UniqueNames(env, db.categories) && Approvable(db, rows)
    ensures var t := TraceOf(env, db, rows); !HasOrphan(t.products,
            RetiredCategories(env, t.naming.categories, t.retired))
  {
    var t := TraceOf(env, db, rows);
    TraceIsTraced(env, db, rows);
    hide TraceOf;
    forall p | p in t.products && t.products[p].live
      ensures t.products[p].category in t.naming.categories && Live(t.naming.categories[t.products[p].category])
              && t.products[p].category !in t.retired
    {
      assert MovedOne(db.products[p], p, t.moves, t.products[p]);
      var r := Placed(env, db, rows, t, p);
      StaysLive(env, db, rows, t, p);
    }
  }

  /**
   A report is applied exactly when it passes the checks made before the first write: the last check never stops it.
   */
  lemma LastCheckNeverFails(env: Env, db: Db, rows: seq<Row>)
    requires GoodEnv(env) && UniqueNames(env, db.categories)
    ensures Applied(env, db, rows).Some? <==> Approvable(db, rows) && HasGeneral(db.categories)
  {
    if Approvable(db, rows) {
      NoOrphan(env, db, rows);
    }
  }

  lemma PlacedInTheEnd(env: Env, db: Db, rows: seq<Row>, t: Trace, p: Id)
    requires Traced(env, db, rows, t) && Approvable(db, rows) && p in db.products && db.products[p].live
    ensures var db' := Committed(env, db, t);
            p in db'.products
            && exists r ::
                  && r in rows && r.product == p
                  && PlacedBy(env, db'.categories, db'.subcategories, db.products[p], db'.products[p], r)
  {
    hide Traced;
    var r := Placed(env, db, rows, t, p);
    StaysLive(env, db, rows, t, p);
    assert PlacedBy(env, RetiredCategories(env, t.naming.categories, t.retired),
           RetiredSubs(env, t.subs.subcategories, t.retired),
                    db.products[p], t.products[p], r);
  }

  lemma NamesStayUnique(env: Env, categories: map<Id, Category>, retired: set<Id>)
    requires UniqueNames(env, categories)
    ensures UniqueNames(env, RetiredCategories(env, categories, retired))
  {
  }

  lemma UnlistedStays(env: Env, db: Db, rows: seq<Row>, t: Trace, p: Id)
    requires Traced(env, db, rows, t) && p in db.products && forall r :: r in rows ==> r.product != p
    ensures p in t.products && t.products[p] == db.products[p]
  {
    hide Named, Detailed, WidenedLinks, WantedLinks, Retired;
    assert MovedOne(db.products[p], p, t.moves, t.products[p]);
  }

  /**
   The report is what happens: every live product goes where a row for it says, a product without a row stays as it
   is, no product comes or goes, and live names stay unique.
   */
  lemma ReportIsApplied(env: Env, db: Db, rows: seq<Row>)
    requires GoodEnv(env) && UniqueNames(env, db.categories) && Applied(env, db, rows).Some?
    ensures var db' := Applied(env, db, rows).value;
            && UniqueNames(env, db'.categories)
            && db'.products.Keys == db.products.Keys
            && (forall p :: p in db.products && db.products[p].live ==>
                  exists r :: r in rows && r.product == p
                              && PlacedBy(env, db'.categories, db'.subcategories, db.products[p], db'.products[p], r))
            && (forall p :: p in db.products && (forall r :: r in rows ==> r.product != p) ==>
               db'.products[p] == db.products[p])
  {
    var t := TraceOf(env, db, rows);
    var db' := Committed(env, db, t);
    TraceIsTraced(env, db, rows);
    assert Applied(env, db, rows).value == db' && Approvable(db, rows);
    hide TraceOf, Applied;
    assert db'.products.Keys == db.products.Keys by { LiveStays(env, db, rows, t); }
    assert db'.products == t.products;
    assert UniqueNames(env, db'.categories) by { NamesStayUnique(env, t.naming.categories, t.retired); }
    hide Committed, Traced, Approvable, UniqueNames, PlacedBy;
    forall p | p in db.products && db.products[p].live
      ensures exists r :: r in rows && r.product == p
                          && PlacedBy(env, db'.categories, db'.subcategories, db.products[p], db'.products[p], r)
    {
      PlacedInTheEnd(env, db, rows, t, p);
    }
    forall p | p in db.products && forall r :: r in rows ==> r.product != p ensures db'.products[p] == db.products[p] {
      UnlistedStays(env, db, rows, t, p);
    }
  }

  lemma LinkKept(env: Env, db: Db, t: Trace, shop: Id, p: Id)
    requires t.links == WidenedLinks(env, db.links, WantedLinks(db, t.products))
    requires p in db.products && p in t.products && t.products[p].category !in t.retired
    requires (shop, db.products[p].category) in db.links || (shop, p) in db.listings
    ensures (shop, t.products[p].category) in Committed(env, db, t).links
  {
    var now := t.products[p].category;
    if (shop, p) in db.listings {
      assert (shop, now) in WantedLinks(db, t.products);
    } else if now != db.products[p].category {
      assert (shop, db.products[p].category) in db.links;
      assert (shop, now) in WantedLinks(db, t.products);
    }
  }

  /**
   Shops keep seeing everything they saw: a live product's new category is carried by each shop that carried the old
   one or lists it.
   */
  lemma ShopsLoseNothing(env: Env, db: Db, rows: seq<Row>, shop: Id, p: Id)
    requires GoodEnv(env) && UniqueNames(env, db.categories) && Applied(env, db, rows).Some?
    requires p in db.products && db.products[p].live
    requires (shop, db.products[p].category) in db.links || (shop, p) in db.listings
    ensures p in Applied(env, db, rows).value.products
    ensures (shop, Applied(env, db, rows).value.products[p].category) in Applied(env, db, rows).value.links
  {
    var t := TraceOf(env, db, rows);
    TraceIsTraced(env, db, rows);
    assert Applied(env, db, rows).value == Committed(env, db, t);
    hide TraceOf, Applied;
    StaysLive(env, db, rows, t, p);
    hide Traced;
    LinkKept(env, db, t, shop, p);
  }

  /* ---- the dry run's prediction comes true ---- */

  /** Rows as the dry run writes them: the old category named by its own name, the proposal trimmed. */
  ghost predicate FromDryRun(db: Db, rows: seq<Row>) {
    forall r :: r in rows ==>
      && r.oldCategoryId in db.categories && r.oldCategory == db.categories[r.oldCategoryId].name
      && Trim(r.proposed) == r.proposed
  }

  lemma PlannedIsRetired(env: Env, db: Db, rows: seq<Row>, t: Trace, c: Id)
    requires Traced(env, db, rows, t) && Approvable(db, rows) && FromDryRun(db, rows)
    requires c in PlannedRetire(env, rows, db.categories)
    ensures c in t.retired
  {
    PlannedIsUnused(env, db, rows, t, c);
    var m := PlannedMoves(env, db, rows, t, c);
    hide Traced, Approvable, InUse;
  }

  lemma PlannedMoves(env: Env, db: Db, rows: seq<Row>, t: Trace, c: Id) returns (m: Move)
    requires Traced(env, db, rows, t) && FromDryRun(db, rows)
    requires c in PlannedRetire(env, rows, db.categories)
    ensures m in t.moves && m.from == c
  {
    var r :| r in rows && !Stays(env, r) && r.oldCategoryId == c;
    m := MoveOf(env, t.naming.byName, t.subs.ids, r);
    hide UniqueNames, Moved, SubsOk, PlannedRetire, WidenedLinks, WantedLinks, Retired;
    assert Folded(env, r.proposed) in t.naming.byName;
  }

  /** Every live product was listed, and has gone where a row sent it: to a category with a proposed name. */
  lemma PlannedIsUnused(env: Env, db: Db, rows: seq<Row>, t: Trace, c: Id)
    requires Traced(env, db, rows, t) && Approvable(db, rows) && FromDryRun(db, rows)
    requires c in PlannedRetire(env, rows, db.categories)
    ensures !InUse(t.products, c)
  {
    LiveStays(env, db, rows, t);
    NameStays(env, db, rows, t, c);
    assert c in db.categories && env.fold(db.categories[c].name) !in ProposedNames(env, rows);
    hide Traced, Approvable, FromDryRun, PlannedRetire, ProposedNames;
    forall p | p in t.products && t.products[p].live ensures t.products[p].category != c {
      PlacedByName(env, db, rows, t, p);
    }
  }

  lemma NameStays(env: Env, db: Db, rows: seq<Row>, t: Trace, c: Id)
    requires Traced(env, db, rows, t) && c in db.categories
    ensures c in t.naming.categories && t.naming.categories[c] == db.categories[c]
  {
    hide Detailed, Sent, WidenedLinks, WantedLinks, Retired, IsIndex, UniqueNames;
  }

  lemma PlacedByName(env: Env, db: Db, rows: seq<Row>, t: Trace, p: Id)
    requires Traced(env, db, rows, t) && Approvable(db, rows) && FromDryRun(db, rows) && p in db.products
             && db.products[p].live
    ensures t.products[p].category in t.naming.categories
    ensures env.fold(t.naming.categories[t.products[p].category].name) in ProposedNames(env, rows)
  {
    var r := Placed(env, db, rows, t, p);
    hide Traced;
  }

  lemma RetiredIsPlanned(env: Env, db: Db, rows: seq<Row>, t: Trace, c: Id)
    requires Traced(env, db, rows, t) && FromDryRun(db, rows)
    requires c in t.retired
    ensures c in PlannedRetire(env, rows, db.categories)
  {
    hide Detailed, UniqueNames, WidenedLinks, WantedLinks, Moved;
    RetiredMovedAway(env, db, rows, t, c);
    NameStays(env, db, rows, t, c);
    var kept := set r' | r' in rows :: Folded(env, r'.proposed);
    assert c in Retired(env, rows, t.moves, t.naming.categories, t.products);
    assert env.fold(db.categories[c].name) !in kept && Live(db.categories[c]) && !db.categories[c].isSystem;
    hide Traced, Retired, MovedAway, InUse;
    assert forall r' :: r' in rows ==> env.fold(r'.proposed) in kept;
    hide Folded;
  }

  lemma RetiredMovedAway(env: Env, db: Db, rows: seq<Row>, t: Trace, c: Id)
    requires Traced(env, db, rows, t) && FromDryRun(db, rows) && c in t.retired
    ensures c in MovedAway(env, rows) && c in db.categories
  {
    hide Detailed, UniqueNames, WidenedLinks, WantedLinks, Moved, SubKey;
    var m :| m in t.moves && m.from == c;
    var r :| r in rows && m == MoveOf(env, t.naming.byName, t.subs.ids, r) && m.from != m.to;
    var kept := set r' | r' in rows :: Folded(env, r'.proposed);
    assert env.fold(t.naming.categories[c].name) !in kept;
    assert !Stays(env, r);
  }

  /** For the dry run's own rows, the categories it says will be retired are the ones that applying them retires. */
  lemma DryRunTellsTheTruth(env: Env, db: Db, rows: seq<Row>)
    requires GoodEnv(env) && UniqueNames(env, db.categories) && Approvable(db, rows) && FromDryRun(db, rows)
    ensures PlannedRetire(env, rows, db.categories) == TraceOf(env, db, rows).retired
  {
    var t := TraceOf(env, db, rows);
    TraceIsTraced(env, db, rows);
    hide TraceOf, PlannedRetire, Traced, Approvable, FromDryRun;
    forall c | c in PlannedRetire(env, rows, db.categories) ensures c in t.retired {
      PlannedIsRetired(env, db, rows, t, c);
    }
    forall c | c in t.retired ensures c in PlannedRetire(env, rows, db.categories) {
      RetiredIsPlanned(env, db, rows, t, c);
    }
  }

  /* ---- foreign keys ---- */

  lemma ProductReferences(env: Env, db: Db, rows: seq<Row>, t: Trace, p: Id)
    requires Traced(env, db, rows, t) && References(db) && p in db.products
    ensures p in t.products && t.products[p].category in t.naming.categories
    ensures t.products[p].sub.Some? ==> t.products[p].sub.value in t.subs.subcategories
  {
    hide Retired, WidenedLinks, WantedLinks, InUse, LinksRefer, SubsRefer, UniqueNames;
    assert MovedOne(db.products[p], p, t.moves, t.products[p]);
    if m :| m in t.moves && m.product == p && t.products[p] == db.products[p].(category := m.to, sub := m.sub) {
      var r :| r in rows && m == MoveOf(env, t.naming.byName, t.subs.ids, r) && m.from != m.to;
      assert Folded(env, r.proposed) in t.naming.byName;
    }
  }

  lemma SubReferences(env: Env, db: Db, rows: seq<Row>, t: Trace, s: Id)
    requires Traced(env, db, rows, t) && References(db) && s in t.subs.subcategories
    ensures t.subs.subcategories[s].category in t.naming.categories
  {
    hide Sent, IsIndex, UniqueNames, WidenedLinks, WantedLinks, Retired, ProductsRefer, LinksRefer;
  }

  lemma LinkReferences(env: Env, db: Db, rows: seq<Row>, t: Trace, l: Link)
    requires Traced(env, db, rows, t) && References(db) && l in t.links
    ensures l.0 in db.shops && l.1 in t.naming.categories
  {
    assert l in db.links || l in WantedLinks(db, t.products);
    assert t.products.Keys == db.products.Keys;
    hide Traced, Moved;
    if l in db.links {
      OldCategoryStays(env, db, rows, t, l.1);
    } else if p :| p in t.products && l.1 == t.products[p].category {
      ProductReferences(env, db, rows, t, p);
    }
  }

  lemma OldCategoryStays(env: Env, db: Db, rows: seq<Row>, t: Trace, c: Id)
    requires Traced(env, db, rows, t) && c in db.categories
    ensures c in t.naming.categories
  {
    hide Detailed, Sent, IsIndex, UniqueNames, WidenedLinks, WantedLinks, Retired;
  }

  /** Applying a report leaves every foreign key pointing at a row, so the database refuses none of its statements. */
  lemma ReferencesStay(env: Env, db: Db, rows: seq<Row>, t: Trace)
    requires Traced(env, db, rows, t) && References(db)
    ensures References(Committed(env, db, t))
  {
    forall p | p in t.products
      ensures t.products[p].category in t.naming.categories
      ensures t.products[p].sub.Some? ==> t.products[p].sub.value in t.subs.subcategories
    {
      LiveStays(env, db, rows, t);
      ProductReferences(env, db, rows, t, p);
    }
    forall s | s in t.subs.subcategories ensures t.subs.subcategories[s].category in t.naming.categories {
      SubReferences(env, db, rows, t, s);
    }
    forall l | l in t.links ensures l.0 in db.shops && l.1 in t.naming.categories {
      LinkReferences(env, db, rows, t, l);
    }
    LiveStays(env, db, rows, t);
    assert forall l :: l in db.listings ==> l.0 in db.shops && l.1 in t.products;
    hide Traced;
    CommittedReferences(env, db, t);
  }

  lemma CommittedReferences(env: Env, db: Db, t: Trace)
    requires forall p :: p in t.products ==>
               t.products[p].category in t.naming.categories
                   && (t.products[p].sub.Some? ==> t.products[p].sub.value in t.subs.subcategories)
    requires forall s :: s in t.subs.subcategories ==> t.subs.subcategories[s].category in t.naming.categories
    requires forall l :: l in t.links ==> l.0 in db.shops && l.1 in t.naming.categories
    requires forall l :: l in db.listings ==> l.0 in db.shops && l.1 in t.products
    ensures References(Committed(env, db, t))
  {
  }

  /* ---- restoring undoes applying ---- */

  /** Which rows an apply leaves behind, and what it may have changed in the ones that were there before. */
  ghost predicate AppliedShape(env: Env, db: Db, db': Db) {
    && References(db')
    && db'.shops == db.shops && db'.listings == db.listings
    && ProductsKept(db.products, db'.products)
    && CategoriesKept(env, db.categories, db'.categories)
    && SubsKept(db.subcategories, db'.subcategories)
  }

  ghost predicate ProductsKept(was: map<Id, Product>, now: map<Id, Product>) {
    was.Keys == now.Keys && forall p :: p in was ==> now[p].live == was[p].live
  }

  ghost predicate CategoriesKept(env: Env, was: map<Id, Category>, now: map<Id, Category>) {
    && (forall c :: c in was ==> c in now && SameButRetired(env, was[c], now[c]))
    && (forall c :: c in now && c !in was ==> !now[c].isSystem)
  }

  ghost predicate SameButRetired(env: Env, was: Category, now: Category) {
    now == was || (!was.isSystem && Live(was) && now == was.(deletedAt := Some(env.now), active := false))
  }

  ghost predicate SubsKept(was: map<Id, Subcategory>, now: map<Id, Subcategory>) {
    forall s :: s in was ==> s in now && now[s].category == was[s].category && now[s].name == was[s].name
  }

  lemma AppliedHasShape(env: Env, db: Db, rows: seq<Row>)
    requires GoodEnv(env) && UniqueNames(env, db.categories) && References(db) && Applied(env, db, rows).Some?
    ensures AppliedShape(env, db, Applied(env, db, rows).value)
  {
    var t := TraceOf(env, db, rows);
    TraceIsTraced(env, db, rows);
    assert Applied(env, db, rows).value == Committed(env, db, t);
    hide TraceOf, Applied;
    ShapeOfTrace(env, db, rows, t);
  }

  lemma ShapeOfTrace(env: Env, db: Db, rows: seq<Row>, t: Trace)
    requires Traced(env, db, rows, t) && References(db)
    ensures AppliedShape(env, db, Committed(env, db, t))
  {
    ReferencesStay(env, db, rows, t);
    LiveStays(env, db, rows, t);
    RetiredCategoriesKept(env, db, rows, t);
    RetiredSubsKept(env, db, rows, t);
    hide Traced, References, CategoriesKept, SubsKept, RetiredCategories, RetiredSubs;
  }

  lemma LiveStays(env: Env, db: Db, rows: seq<Row>, t: Trace)
    requires Traced(env, db, rows, t)
    ensures ProductsKept(db.products, t.products)
  {
    hide Named, Detailed, WidenedLinks, WantedLinks, Retired;
    forall p | p in db.products ensures t.products[p].live == db.products[p].live {
      assert MovedOne(db.products[p], p, t.moves, t.products[p]);
    }
  }

  lemma RetiredCategoriesKept(env: Env, db: Db, rows: seq<Row>, t: Trace)
    requires Traced(env, db, rows, t)
    ensures CategoriesKept(env, db.categories, RetiredCategories(env, t.naming.categories, t.retired))
  {
    hide Detailed, Sent, IsIndex, UniqueNames, WidenedLinks, WantedLinks, InUse;
    assert forall c :: c in t.retired ==>
           c in t.naming.categories && !t.naming.categories[c].isSystem && Live(t.naming.categories[c]);
    hide Retired;
  }

  lemma RetiredSubsKept(env: Env, db: Db, rows: seq<Row>, t: Trace)
    requires Traced(env, db, rows, t)
    ensures SubsKept(db.subcategories, RetiredSubs(env, t.subs.subcategories, t.retired))
  {
    hide Named, Sent, WidenedLinks, WantedLinks, Retired;
  }

  lemma SubsBack(env: Env, db: Db, db': Db)
    requires AppliedShape(env, db, db')
    ensures RestoredSubs(Only(db'.subcategories, db.subcategories.Keys), BackupOf(db)) == db.subcategories
  {
    hide References, ProductsKept, CategoriesKept;
  }

  lemma CategoriesBack(env: Env, db: Db, db': Db)
    requires AppliedShape(env, db, db')
    ensures RestoredCategories(Only(db'.categories, db.categories.Keys), BackupOf(db))
            == db.categories
  {
    hide References, ProductsKept, SubsKept;
  }

  lemma ProductsBack(env: Env, db: Db, db': Db)
    requires AppliedShape(env, db, db')
    ensures RestoredProducts(db'.products, BackupOf(db)) == db.products
  {
    hide References, SubsKept, CategoriesKept;
  }

  lemma LinksBack(env: Env, db: Db, db': Db)
    requires References(db) && AppliedShape(env, db, db')
    ensures (map l | l in db.links && l.0 in db'.shops :: db.links[l]) == db.links
  {
    hide ProductsKept, CategoriesKept, SubsKept, ProductsRefer, SubsRefer;
  }

  lemma OrdinaryOnly(env: Env, db: Db, db': Db)
    requires AppliedShape(env, db, db')
    ensures Only(db'.categories, System(db'.categories) + db.categories.Keys)
            == Only(db'.categories, db.categories.Keys)
  {
    hide References, ProductsKept, SubsKept;
  }

  /** What each statement of the restore leaves in its table. */
  lemma RestoredTables(env: Env, db: Db, db': Db)
    requires References(db) && AppliedShape(env, db, db')
    ensures var r := Restoration(db', BackupOf(db));
            && r.products == db'.(products := db.products)
            && r.links == db'.(products := db.products, links := db.links)
            && r.subsDeleted == r.links.(subcategories := Only(db'.subcategories, db.subcategories.Keys))
            && r.categoriesDeleted == r.subsDeleted.(categories := Only(db'.categories, db.categories.Keys))
            && r.done == db
  {
    ProductsBack(env, db, db');
    LinksBack(env, db, db');
    SubsBack(env, db, db');
    OrdinaryOnly(env, db, db');
    CategoriesBack(env, db, db');
    assert db'.shops == db.shops && db'.listings == db.listings;
    hide AppliedShape, RestoredProducts, RestoredSubs, RestoredCategories, References, Only, System;
  }

  lemma StepsKeepReferences(env: Env, db: Db, db': Db)
    requires References(db) && AppliedShape(env, db, db')
    ensures var d1 := db'.(products := db.products);
            var d2 := d1.(links := db.links);
            var d3 := d2.(subcategories := Only(db'.subcategories, db.subcategories.Keys));
            var d4 := d3.(categories := Only(db'.categories, db.categories.Keys));
            References(d1) && References(d2) && References(d3) && References(d4)
  {
    hide ProductsRefer, LinksRefer;
    OldRowsStay(env, db, db');
    hide SubsKept, CategoriesKept, Only, SubsRefer;
    var subs := Only(db'.subcategories, db.subcategories.Keys);
    RefersMore(db, subs, db'.categories.Keys, db.subcategories.Keys);
    RefersMore(db, subs, db'.categories.Keys, db'.subcategories.Keys);
  }

  /** A restore keeps exactly the rows there were, and their subcategories refer to the same categories. */
  lemma OldRowsStay(env: Env, db: Db, db': Db)
    requires SubsKept(db.subcategories, db'.subcategories) && CategoriesKept(env, db.categories, db'.categories)
    requires SubsRefer(db.subcategories, db.categories.Keys)
    ensures db.categories.Keys <= db'.categories.Keys && db.subcategories.Keys <= db'.subcategories.Keys
    ensures Only(db'.categories, db.categories.Keys).Keys == db.categories.Keys
    ensures var subs := Only(db'.subcategories, db.subcategories.Keys);
            subs.Keys == db.subcategories.Keys && SubsRefer(subs, db.categories.Keys)
  {
  }

  /** With more rows to refer to, references stay good. */
  lemma RefersMore(db: Db, subs: map<Id, Subcategory>, categories: set<Id>, subcategories: set<Id>)
    requires db.categories.Keys <= categories && db.subcategories.Keys <= subcategories
    requires References(db) && SubsRefer(subs, db.categories.Keys)
    ensures ProductsRefer(db.products, categories, subcategories) && SubsRefer(subs, categories)
    ensures LinksRefer(db.links.Keys, db.shops, categories)
  {
  }

  /**
   With no other writer in between, restoring the backup gives back every table exactly, and no statement of it is
   refused.
   */
  lemma RestoreUndoesShape(env: Env, db: Db, db': Db)
    requires References(db) && AppliedShape(env, db, db')
    ensures Restored(db', BackupOf(db)) == Some(db)
  {
    RestoredTables(env, db, db');
    StepsKeepReferences(env, db, db');
    hide AppliedShape, Restoration, References, BackupOf;
  }

  lemma RestoreUndoesApply(env: Env, db: Db, rows: seq<Row>)
    requires GoodEnv(env) && UniqueNames(env, db.categories) && References(db) && Applied(env, db, rows).Some?
    ensures Restored(Applied(env, db, rows).value, BackupOf(db)) == Some(db)
  {
    AppliedHasShape(env, db, rows);
    hide Applied, Restored;
    RestoreUndoesShape(env, db, Applied(env, db, rows).value);
  }

  /**
   The unique index on live names is checked row by row. Whichever of the old categories the restore's last statement
   has put back already, no two live ones share a folded name.
   */
  lemma RestoredNamesNeverClash(env: Env, db: Db, db': Db, done: set<Id>)
    requires UniqueNames(env, db.categories) && AppliedShape(env, db, db')
    ensures forall c :: c in db.categories ==> c in db'.categories
    ensures UniqueNames(env, map c | c in db.categories :: if c in done then db.categories[c] else db'.categories[c])
  {
    hide References, ProductsKept, SubsKept;
    var mixed := map c | c in db.categories :: if c in done then db.categories[c] else db'.categories[c];
    assert forall c :: c in mixed && Live(mixed[c]) ==>
           Live(db.categories[c]) && mixed[c].name == db.categories[c].name;
  }
}
