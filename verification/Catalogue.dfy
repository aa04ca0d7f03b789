/**
 The one-time categorisation of scripts/categorise-products.ts as a machine over its tables: what the dry run
 predicts, what applying an approved report does, and what restoring the backup does. Each SQL statement is its
 effect on the tables; each loop of the script is a loop here.

 Deleting a category or subcategory sets its deletion time. Slugs and audit rows are not part of this model.
 */
module Catalogue {
  import opened Text

  type Id = string

  datatype Product = Product(category: Id, sub: Option<Id>, live: bool)

  datatype Category = Category(
    name: string, department: string, description: string, isSystem: bool, active: bool, deletedAt: Option<int>)

  datatype Subcategory = Subcategory(category: Id, name: string, active: bool, deletedAt: Option<int>)

  /** A shop and a category it carries. */
  type Link = (Id, Id)

  /**
   The four tables; a link's other columns are one text. Shops and live listings (shop, product) only ever get read.
   */
  datatype Db = Db(
    products: map<Id, Product>, categories: map<Id, Category>, subcategories: map<Id, Subcategory>,
    links: map<Link, string>, shops: set<Id>, listings: set<(Id, Id)>)

  /** A row of the report. */
  datatype Row = Row(product: Id, oldCategoryId: Id, oldCategory: string, proposed: string, proposedSub: string)

  /** The backup holds each product's category and subcategory, and the other three tables whole. */
  datatype Backup = Backup(
    products: map<Id, (Id, Option<Id>)>, categories: map<Id, Category>, subcategories: map<Id, Subcategory>,
    links: map<Link, string>)

  /**
   What the script gets from outside: the case folding that JavaScript and SQL share, the details of a category to
   create, fresh ids, the database's choice among rows when it returns or uses only one of several, the time, and
   the other columns of a new link.
   */
  datatype Env = Env(
    fold: string -> string, details: string -> (string, string), newId: set<Id> -> Id,
    anyId: set<Id> -> Id, anyIndex: set<nat> -> nat, now: int, linkRow: string)

  ghost predicate GoodEnv(env: Env) {
    && (forall ids :: env.newId(ids) !in ids)
    && (forall ids :: ids != {} ==> env.anyId(ids) in ids)
    && (forall indices :: indices != {} ==> env.anyIndex(indices) in indices)
  }

  predicate Live(c: Category) {
    c.deletedAt.None?
  }

  function Folded(env: Env, text: string): string {
    env.fold(Trim(text))
  }

  /* ---- constraints the database keeps ---- */

  /** No two live categories share a folded name: the index product_categories_name_live_unique. */
  ghost predicate UniqueNames(env: Env, categories: map<Id, Category>) {
    forall c, d | c in categories && d in categories && Live(categories[c]) && Live(categories[d])
      :: env.fold(categories[c].name) == env.fold(categories[d].name) ==> c == d
  }

  predicate ProductsRefer(products: map<Id, Product>, categories: set<Id>, subcategories: set<Id>) {
    forall p :: p in products ==>
      products[p].category in categories && (products[p].sub.Some? ==> products[p].sub.value in subcategories)
  }

  predicate SubsRefer(subcategories: map<Id, Subcategory>, categories: set<Id>) {
    forall s :: s in subcategories ==> subcategories[s].category in categories
  }

  predicate LinksRefer(links: set<(Id, Id)>, shops: set<Id>, others: set<Id>) {
    forall l :: l in links ==> l.0 in shops && l.1 in others
  }

  /** Every foreign key of the tables points at a row. */
  predicate References(db: Db) {
    && ProductsRefer(db.products, db.categories.Keys, db.subcategories.Keys)
    && SubsRefer(db.subcategories, db.categories.Keys)
    && LinksRefer(db.links.Keys, db.shops, db.categories.Keys)
    && LinksRefer(db.listings, db.shops, db.products.Keys)
  }

  /* ---- the dry run's prediction ---- */

  function ProposedNames(env: Env, rows: seq<Row>): set<string> {
    set r | r in rows :: env.fold(r.proposed)
  }

  predicate Stays(env: Env, r: Row) {
    env.fold(r.oldCategory) == env.fold(r.proposed)
  }

  function StillUsed(env: Env, rows: seq<Row>): set<Id> {
    set r | r in rows && Stays(env, r) :: r.oldCategoryId
  }

  function MovedAway(env: Env, rows: seq<Row>): set<Id> {
    set r | r in rows && !Stays(env, r) :: r.oldCategoryId
  }

  /** The live categories the report says will be retired. */
  function PlannedRetire(env: Env, rows: seq<Row>, categories: map<Id, Category>): set<Id> {
    set c | c in categories && Live(categories[c]) && !categories[c].isSystem
            && c in MovedAway(env, rows) && c !in StillUsed(env, rows)
            && env.fold(categories[c].name) !in ProposedNames(env, rows)
  }

  method PlanRetire(env: Env, rows: seq<Row>, categories: map<Id, Category>) returns (retire: set<Id>)
    ensures retire == PlannedRetire(env, rows, categories)
  {
    var proposed: set<string> := {};
    var stillUsed: set<Id> := {};
    var movedAway: set<Id> := {};
    for i := 0 to |rows|
      invariant proposed == ProposedNames(env, rows[..i])
      invariant stillUsed == StillUsed(env, rows[..i])
      invariant movedAway == MovedAway(env, rows[..i])
    {
      var r := rows[i];
      assert rows[..i + 1] == rows[..i] + [r];
      proposed := proposed + {env.fold(r.proposed)};
      if env.fold(r.oldCategory) == env.fold(r.proposed) {
        stillUsed := stillUsed + {r.oldCategoryId};
      } else {
        movedAway := movedAway + {r.oldCategoryId};
      }
    }
    assert rows[..|rows|] == rows;
    retire := set c | c in categories && Live(categories[c]) && !categories[c].isSystem
                      && c in movedAway && c !in stillUsed && env.fold(categories[c].name) !in proposed;
  }

  /* ---- applying: categories ---- */

  /** The categories and the index from folded names to live ones that the script keeps beside them. */
  datatype Naming = Naming(categories: map<Id, Category>, byName: map<string, Id>)

  ghost predicate IsIndex(env: Env, n: Naming) {
    && (forall name :: name in n.byName ==>
          && n.byName[name] in n.categories
          && Live(n.categories[n.byName[name]]) && env.fold(n.categories[n.byName[name]].name) == name)
    && (forall c :: c in n.categories && Live(n.categories[c]) ==> env.fold(n.categories[c].name) in n.byName)
  }

  function LiveNames(env: Env, categories: map<Id, Category>): set<string> {
    set c | c in categories && Live(categories[c]) :: env.fold(categories[c].name)
  }

  /** The index of the live categories. */
  ghost function ByName(env: Env, categories: map<Id, Category>): map<string, Id> {
    map name | name in LiveNames(env, categories) ::
      var c :| c in categories && Live(categories[c]) && env.fold(categories[c].name) == name; c
  }

  function NewCategory(env: Env, name: string): Category {
    Category(name, env.details(name).0, env.details(name).1, false, true, None)
  }

  function Created(env: Env, names: seq<string>, n: Naming): Naming {
    if names == [] then n
    else if env.fold(names[0]) in n.byName then Created(env, names[1..], n)
    else
      var id := env.newId(n.categories.Keys);
      Created(env, names[1..], Naming(n.categories[id := NewCategory(env, names[0])],
          n.byName[env.fold(names[0]) := id]))
  }

  /** `[...new Set(names)]`: each name once, where it first stood. */
  function Distinct(names: seq<string>): seq<string> {
    if names == [] then []
    else
      var n := |names| - 1;
      if names[n] in names[..n] then Distinct(names[..n]) else Distinct(names[..n]) + [names[n]]
  }

  function Proposals(rows: seq<Row>): seq<string> {
    seq(|rows|, i requires 0 <= i < |rows| => Trim(rows[i].proposed))
  }

  /* ---- applying: subcategories ---- */

  datatype Subs = Subs(subcategories: map<Id, Subcategory>, ids: map<(Id, string), Id>)

  function Get<K, V>(m: map<K, V>, k: K, default: V): V {
    if k in m then m[k] else default
  }

  function Target(env: Env, byName: map<string, Id>, r: Row): Id {
    Get(byName, Folded(env, r.proposed), "")
  }

  function SubKey(env: Env, byName: map<string, Id>, r: Row): (Id, string) {
    (Target(env, byName, r), Folded(env, r.proposedSub))
  }

  function MatchingSubs(env: Env, subcategories: map<Id, Subcategory>, key: (Id, string)): set<Id> {
    set s | s in subcategories && subcategories[s].category == key.0 && env.fold(subcategories[s].name) == key.1
            && subcategories[s].deletedAt.None?
  }

  function SubFor(env: Env, byName: map<string, Id>, r: Row, s: Subs): Subs {
    var key := SubKey(env, byName, r);
    if Blank(r.proposedSub) || key in s.ids then s
    else
      var found := MatchingSubs(env, s.subcategories, key);
      if found != {} then s.(ids := s.ids[key := env.anyId(found)])
      else
        var id := env.newId(s.subcategories.Keys);
        Subs(s.subcategories[id := Subcategory(key.0, Trim(r.proposedSub), true, None)], s.ids[key := id])
  }

  function SubsFor(env: Env, byName: map<string, Id>, rows: seq<Row>, s: Subs): Subs {
    if rows == [] then s else SubFor(env, byName, rows[|rows| - 1], SubsFor(env, byName, rows[..|rows| - 1], s))
  }

  /* ---- applying: moves ---- */

  datatype Move = Move(product: Id, from: Id, to: Id, sub: Option<Id>)

  const BATCH := 500

  function MoveOf(env: Env, byName: map<string, Id>, ids: map<(Id, string), Id>, r: Row): Move {
    Move(r.product, r.oldCategoryId, Target(env, byName, r),
         if Blank(r.proposedSub) then None else Some(Get(ids, SubKey(env, byName, r), "")))
  }

  function Moves(env: Env, byName: map<string, Id>, ids: map<(Id, string), Id>, rows: seq<Row>): seq<Move> {
    if rows == [] then []
    else
      var n := |rows| - 1;
      var m := MoveOf(env, byName, ids, rows[n]);
      Moves(env, byName, ids, rows[..n]) + (if m.from != m.to then [m] else [])
  }

  function Hits(batch: seq<Move>, product: Id): set<nat> {
    set i: nat | i < |batch| && batch[i].product == product
  }

  /** One UPDATE: when several rows of the batch name a product, the database uses one of them. */
  function Updated(env: Env, products: map<Id, Product>, batch: seq<Move>): map<Id, Product> {
    map p | p in products ::
      var hits := Hits(batch, p);
      var i := env.anyIndex(hits);
      if hits == {} || i >= |batch| then products[p]
      else products[p].(category := batch[i].to, sub := batch[i].sub)
  }

  function UpdatedInBatches(env: Env, products: map<Id, Product>, moves: seq<Move>): map<Id, Product>
    decreases |moves|
  {
    if moves == [] then products
    else
      var n := if |moves| < BATCH then |moves| else BATCH;
      UpdatedInBatches(env, Updated(env, products, moves[..n]), moves[n..])
  }

  /* ---- applying: links and retirement ---- */

  /**
   The links a shop gets: the new category of every moved product whose old one it carried, and of every product it
   lists.
   */
  function WantedLinks(before: Db, products: map<Id, Product>): set<Link> {
    (set l, p | l in before.links && p in before.products && p in products
                && products[p].category != before.products[p].category && l.1 == before.products[p].category
              :: (l.0, products[p].category))
    + (set listing | listing in before.listings && listing.1 in products :: (listing.0, products[listing.1].category))
  }

  function WidenedLinks(env: Env, links: map<Link, string>, wanted: set<Link>): map<Link, string> {
    map l | l in links.Keys + wanted :: if l in links then links[l] else env.linkRow
  }

  predicate InUse(products: map<Id, Product>, c: Id) {
    exists p :: p in products && products[p].live && products[p].category == c
  }

  function Retired(env: Env, rows: seq<Row>, moves: seq<Move>, categories: map<Id, Category>,
      products: map<Id, Product>): set<Id>
  {
    set m | m in moves && m.from in categories && !categories[m.from].isSystem && Live(categories[m.from])
            && env.fold(categories[m.from].name) !in (set r | r in rows :: Folded(env, r.proposed))
            && !InUse(products, m.from) :: m.from
  }

  function RetiredCategories(env: Env, categories: map<Id, Category>, retired: set<Id>): map<Id, Category> {
    map c | c in categories :: if c in retired then categories[c].(deletedAt := Some(env.now), active := false)
        else categories[c]
  }

  function RetiredSubs(env: Env, subcategories: map<Id, Subcategory>, retired: set<Id>): map<Id, Subcategory> {
    map s | s in subcategories ::
      if subcategories[s].category in retired && subcategories[s].deletedAt.None?
      then subcategories[s].(deletedAt := Some(env.now), active := false) else subcategories[s]
  }

  predicate HasOrphan(products: map<Id, Product>, categories: map<Id, Category>) {
    exists p :: p in products && products[p].live && products[p].category in categories
        && !Live(categories[products[p].category])
  }

  /* ---- applying: the whole ---- */

  /** What the script checks before it writes anything. */
  predicate Approvable(db: Db, rows: seq<Row>) {
    && (forall r :: r in rows ==> !Blank(r.proposed))
    && (forall r :: r in rows ==> r.product in db.products && db.products[r.product].category == r.oldCategoryId)
    && (forall p :: p in db.products && db.products[p].live ==> exists r :: r in rows && r.product == p)
  }

  predicate HasGeneral(categories: map<Id, Category>) {
    exists c :: c in categories && Live(categories[c]) && categories[c].isSystem
  }

  /** Everything the transaction computes, step by step. */
  datatype Trace = Trace(naming: Naming, subs: Subs, moves: seq<Move>, products: map<Id, Product>,
      links: map<Link, string>, retired: set<Id>)

  ghost function TraceOf(env: Env, db: Db, rows: seq<Row>): Trace {
    var naming := Created(env, Distinct(Proposals(rows)), Naming(db.categories, ByName(env, db.categories)));
    var subs := SubsFor(env, naming.byName, rows, Subs(db.subcategories, map[]));
    var moves := Moves(env, naming.byName, subs.ids, rows);
    var products := UpdatedInBatches(env, db.products, moves);
    Trace(naming, subs, moves, products, WidenedLinks(env, db.links, WantedLinks(db, products)),
          Retired(env, rows, moves, naming.categories, products))
  }

  ghost function Committed(env: Env, db: Db, t: Trace): Db {
    db.(products := t.products, categories := RetiredCategories(env, t.naming.categories, t.retired),
        subcategories := RetiredSubs(env, t.subs.subcategories, t.retired),
        links := map l | l in t.links && l.1 !in t.retired :: t.links[l])
  }

  /** The tables after applying the report; None when the script stops and nothing is kept. */
  ghost function Applied(env: Env, db: Db, rows: seq<Row>): Option<Db> {
    if !Approvable(db, rows) || !HasGeneral(db.categories) then None
    else
      var t := TraceOf(env, db, rows);
      if HasOrphan(t.products, RetiredCategories(env, t.naming.categories, t.retired)) then None
      else Some(Committed(env, db, t))
  }

  function BackupOf(db: Db): Backup {
    Backup(map p | p in db.products ::
        (db.products[p].category, db.products[p].sub), db.categories, db.subcategories, db.links)
  }

  /* ---- restoring ---- */

  function RestoredProducts(products: map<Id, Product>, b: Backup): map<Id, Product> {
    map p | p in products ::
      if p in b.products then products[p].(category := b.products[p].0, sub := b.products[p].1) else products[p]
  }

  function RestoredSubs(subcategories: map<Id, Subcategory>, b: Backup): map<Id, Subcategory> {
    map s | s in subcategories ::
      if s in b.subcategories
      then subcategories[s].(deletedAt := b.subcategories[s].deletedAt, active := b.subcategories[s].active)
          else subcategories[s]
  }

  function RestoredCategory(now: Category, was: Category): Category {
    if now.isSystem then now
    else now.(name := was.name, deletedAt := was.deletedAt, active := was.active, department := was.department,
        description := was.description)
  }

  function RestoredCategories(categories: map<Id, Category>, b: Backup): map<Id, Category> {
    map c | c in categories :: if c in b.categories then RestoredCategory(categories[c], b.categories[c])
        else categories[c]
  }

  function System(categories: map<Id, Category>): set<Id> {
    set c | c in categories && categories[c].isSystem
  }

  function Only<V>(rows: map<Id, V>, ids: set<Id>): map<Id, V> {
    map id | id in rows && id in ids :: rows[id]
  }

  /** The statements of a restore, in order. */
  datatype Restoring = Restoring(products: Db, links: Db, subsDeleted: Db, categoriesDeleted: Db, subsUpdated: Db,
      done: Db)

  function Restoration(db: Db, b: Backup): Restoring {
    var d1 := db.(products := RestoredProducts(db.products, b));
    var d2 := d1.(links := map l | l in b.links && l.0 in db.shops :: b.links[l]);
    var d3 := d2.(subcategories := Only(db.subcategories, b.subcategories.Keys));
    var d4 := d3.(categories := Only(db.categories, System(db.categories) + b.categories.Keys));
    var d5 := d4.(subcategories := RestoredSubs(d3.subcategories, b));
    var d6 := d5.(categories := RestoredCategories(d4.categories, b));
    Restoring(d1, d2, d3, d4, d5, d6)
  }

  /** The tables after restoring; None when a statement would break a foreign key and the transaction is rolled back. */
  ghost function Restored(db: Db, b: Backup): Option<Db> {
    var r := Restoration(db, b);
    if References(r.products) && References(r.links) && References(r.subsDeleted) && References(r.categoriesDeleted)
    then Some(r.done) else None
  }
}
