/**
 The tables of scripts/categorise-products.ts as the script changes them: its loops over rows and batches, and one
 method for each of its two transactions.
 */
module CatalogueStore {
  import opened Text
  import opened Catalogue
  import Categorisation

  lemma IndexIsByName(env: Env, categories: map<Id, Category>, byName: map<string, Id>)
    requires UniqueNames(env, categories) && IsIndex(env, Naming(categories, byName))
    ensures byName == ByName(env, categories)
  {
    Categorisation.ByNameIsIndex(env, categories);
  }

  class Store {
    var products: map<Id, Product>
    var categories: map<Id, Category>
    var subcategories: map<Id, Subcategory>
    var links: map<Link, string>
    const shops: set<Id>
    const listings: set<(Id, Id)>

    ghost function Snapshot(): Db
      reads this
    {
      Db(products, categories, subcategories, links, shops, listings)
    }

    constructor (db: Db)
      ensures Snapshot() == db
    {
      products, categories, subcategories, links := db.products, db.categories, db.subcategories, db.links;
      shops, listings := db.shops, db.listings;
    }

    /** The index of the live categories by folded name. */
    method LiveByName(env: Env) returns (byName: map<string, Id>)
      requires UniqueNames(env, categories)
      ensures byName == ByName(env, categories)
    {
      byName := map[];
      var todo := set c | c in categories && Live(categories[c]);
      while todo != {}
        invariant forall c :: c in todo ==> c in categories && Live(categories[c])
        invariant forall c :: c in categories && Live(categories[c]) ==>
                  c in todo || env.fold(categories[c].name) in byName
        invariant forall name :: name in byName ==>
                    && byName[name] in categories && Live(categories[byName[name]])
                    && env.fold(categories[byName[name]].name) == name
        decreases |todo|
      {
        var c :| c in todo;
        byName := byName[env.fold(categories[c].name) := c];
        todo := todo - {c};
      }
      IndexIsByName(env, categories, byName);
    }

    method CreateCategories(env: Env, names: seq<string>, index: map<string, Id>) returns (byName: map<string, Id>)
      modifies this`categories
      ensures Naming(categories, byName) == Created(env, names, Naming(old(categories), index))
    {
      byName := index;
      assert names[0..] == names;
      for i := 0 to |names|
        invariant Created(env, names[i..], Naming(categories, byName))
                  == Created(env, names, Naming(old(categories), index))
      {
        var name := names[i];
        assert names[i..][1..] == names[i + 1..];
        if env.fold(name) !in byName {
          var id := env.newId(categories.Keys);
          categories := categories[id := NewCategory(env, name)];
          byName := byName[env.fold(name) := id];
        }
      }
    }

    method CreateSubcategories(env: Env, byName: map<string, Id>, rows: seq<Row>) returns (ids: map<(Id, string), Id>)
      modifies this`subcategories
      ensures Subs(subcategories, ids) == SubsFor(env, byName, rows, Subs(old(subcategories), map[]))
    {
      ids := map[];
      for i := 0 to |rows|
        invariant Subs(subcategories, ids) == SubsFor(env, byName, rows[..i], Subs(old(subcategories), map[]))
      {
        var r := rows[i];
        assert rows[..i + 1][..i] == rows[..i];
        if !Blank(r.proposedSub) {
          var key := SubKey(env, byName, r);
          if key !in ids {
            var found := MatchingSubs(env, subcategories, key);
            if found != {} {
              ids := ids[key := env.anyId(found)];
            } else {
              var id := env.newId(subcategories.Keys);
              subcategories := subcategories[id := Subcategory(key.0, Trim(r.proposedSub), true, None)];
              ids := ids[key := id];
            }
          }
        }
      }
      assert rows[..|rows|] == rows;
    }

    method MoveProducts(env: Env, moves: seq<Move>)
      modifies this`products
      ensures products == UpdatedInBatches(env, old(products), moves)
    {
      var i := 0;
      assert moves[0..] == moves;
      while i < |moves|
        invariant 0 <= i
        invariant UpdatedInBatches(env, products, if i <= |moves| then moves[i..] else [])
                  == UpdatedInBatches(env, old(products), moves)
      {
        var end := if i + BATCH < |moves| then i + BATCH else |moves|;
        assert moves[i..][..end - i] == moves[i..end];
        assert moves[i..][end - i..] == moves[end..];
        products := Updated(env, products, moves[i..end]);
        i := i + BATCH;
      }
    }

    /**
     Applying an approved report. Without a backup nothing was written; otherwise the tables are as the report says, or,
     when the transaction stopped, as they were.
     */
    method Apply(env: Env, rows: seq<Row>) returns (backup: Option<Backup>, done: bool)
      requires UniqueNames(env, categories)
      modifies this
      ensures backup == if Approvable(old(Snapshot()), rows) then Some(BackupOf(old(Snapshot()))) else None
      ensures done == Applied(env, old(Snapshot()), rows).Some?
      ensures Snapshot() == if done then Applied(env, old(Snapshot()), rows).value else old(Snapshot())
    {
      var before := Db(products, categories, subcategories, links, shops, listings);
      if !Approvable(before, rows) {
        return None, false;
      }
      backup := Some(BackupOf(before));
      var byName := LiveByName(env);
      if !HasGeneral(categories) {
        return backup, false;
      }
      byName := CreateCategories(env, Distinct(Proposals(rows)), byName);
      var ids := CreateSubcategories(env, byName, rows);
      var moves := Moves(env, byName, ids, rows);
      MoveProducts(env, moves);
      links := WidenedLinks(env, links, WantedLinks(before, products));
      var retired := Retired(env, rows, moves, categories, products);
      ghost var t := TraceOf(env, before, rows);
      assert t == Trace(Naming(categories, byName), Subs(subcategories, ids), moves, products, links, retired);
      categories := RetiredCategories(env, categories, retired);
      links := map l | l in links && l.1 !in retired :: links[l];
      subcategories := RetiredSubs(env, subcategories, retired);
      done := !HasOrphan(products, categories);
      if !done {
        products, categories, subcategories, links := before.products, before.categories, before.subcategories,
            before.links;
      }
    }

    /** Restoring a backup: all of it, or nothing when a statement would leave a foreign key pointing nowhere. */
    method Restore(b: Backup) returns (done: bool)
      modifies this
      ensures done == Restored(old(Snapshot()), b).Some?
      ensures Snapshot() == if done then Restored(old(Snapshot()), b).value else old(Snapshot())
    {
      var before := Db(products, categories, subcategories, links, shops, listings);
      products := RestoredProducts(products, b);
      done := References(Db(products, categories, subcategories, links, shops, listings));
      if done {
        links := map l | l in b.links && l.0 in shops :: b.links[l];
        done := References(Db(products, categories, subcategories, links, shops, listings));
      }
      if done {
        subcategories := Only(subcategories, b.subcategories.Keys);
        done := References(Db(products, categories, subcategories, links, shops, listings));
      }
      if done {
        categories := Only(categories, System(categories) + b.categories.Keys);
        done := References(Db(products, categories, subcategories, links, shops, listings));
      }
      if done {
        subcategories := RestoredSubs(subcategories, b);
        categories := RestoredCategories(categories, b);
      } else {
        products, categories, subcategories, links := before.products, before.categories, before.subcategories,
            before.links;
      }
    }
  }
}
