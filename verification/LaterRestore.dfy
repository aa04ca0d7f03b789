/**
 Restoring a backup at any later time (scripts/categorise-products.ts), whatever was written in between: what each
 table holds afterwards, and when a foreign key stops it.
 */
module LaterRestore {
  import opened Text
  import opened Catalogue

  /** A category the restore does not delete. */
  predicate Stays(db: Db, b: Backup, c: Id) {
    c in db.categories && (c in b.categories || db.categories[c].isSystem)
  }

  /** A product is put back where the backup has it; one added since stays where it is. */
  function PlaceOf(db: Db, b: Backup, p: Id): (Id, Option<Id>)
    requires p in db.products
  {
    if p in b.products then b.products[p] else (db.products[p].category, db.products[p].sub)
  }

  predicate SubStays(db: Db, b: Backup, s: Id) {
    s in db.subcategories && s in b.subcategories
  }

  /** What the restore leaves is referred to by nothing that it deletes. */
  predicate Restorable(db: Db, b: Backup) {
    && (forall p :: p in db.products ==>
          && Stays(db, b, PlaceOf(db, b, p).0)
          && (PlaceOf(db, b, p).1.Some? ==> SubStays(db, b, PlaceOf(db, b, p).1.value)))
    && (forall s :: s in db.subcategories && SubStays(db, b, s) ==> Stays(db, b, db.subcategories[s].category))
    && (forall l :: l in b.links && l.0 in db.shops ==> Stays(db, b, l.1))
  }

  lemma StepsRefer(db: Db, b: Backup)
    requires References(db)
    ensures var r := Restoration(db, b);
            && References(r.products) && References(r.links) && References(r.subsDeleted)
            && References(r.categoriesDeleted)
            <==> Restorable(db, b)
  {
    var r := Restoration(db, b);
    ProductsAfter(db, b);
    LinksAfter(db, b);
    SubsAfterDelete(db, b);
    CategoriesAfterDelete(db, b);
    hide Restoration, Stays, SubStays, PlaceOf;
    if Restorable(db, b) {
      Allowed(db, b, r);
    }
    if References(r.products) && References(r.links) && References(r.subsDeleted) && References(r.categoriesDeleted) {
      Needed(db, b, r);
    }
  }

  /** What the tables hold when the statements are done, apart from the columns put back. */
  ghost predicate Afterwards(db: Db, b: Backup, r: Restoring) {
    && r.products == db.(products := r.products.products)
    && r.links == r.products.(links := r.links.links)
    && r.subsDeleted == r.links.(subcategories := r.subsDeleted.subcategories)
    && r.categoriesDeleted == r.subsDeleted.(categories := r.categoriesDeleted.categories)
  }

  lemma ProductsAfter(db: Db, b: Backup)
    ensures var r := Restoration(db, b);
            && Afterwards(db, b, r)
            && r.products.products.Keys == db.products.Keys
            && forall p :: p in db.products ==>
                 r.products.products[p]
                 == db.products[p].(category := PlaceOf(db, b, p).0, sub := PlaceOf(db, b, p).1)
  {
  }

  lemma LinksAfter(db: Db, b: Backup)
    ensures var r := Restoration(db, b);
            forall l :: l in r.links.links <==> l in b.links && l.0 in db.shops
  {
  }

  lemma SubsAfterDelete(db: Db, b: Backup)
    ensures var r := Restoration(db, b);
            forall s :: s in r.subsDeleted.subcategories ==>
              && s in db.subcategories && r.subsDeleted.subcategories[s] == db.subcategories[s]
    ensures forall s :: s in Restoration(db, b).subsDeleted.subcategories <==> SubStays(db, b, s)
  {
  }

  lemma CategoriesAfterDelete(db: Db, b: Backup)
    ensures forall c :: c in Restoration(db, b).categoriesDeleted.categories <==> Stays(db, b, c)
  {
  }

  ghost predicate Left(db: Db, b: Backup, r: Restoring) {
    && Afterwards(db, b, r)
    && r.products.products.Keys == db.products.Keys
    && (forall p :: p in db.products ==>
          r.products.products[p] == db.products[p].(category := PlaceOf(db, b, p).0, sub := PlaceOf(db, b, p).1))
    && (forall l :: l in r.links.links <==> l in b.links && l.0 in db.shops)
    && (forall s :: s in r.subsDeleted.subcategories <==> SubStays(db, b, s))
    && (forall s :: s in r.subsDeleted.subcategories ==>
          s in db.subcategories && r.subsDeleted.subcategories[s] == db.subcategories[s])
    && (forall c :: c in r.categoriesDeleted.categories <==> Stays(db, b, c))
  }

  /** What refers to rows that stay refers to rows there are, before and after the deletions. */
  lemma AllRefer(db: Db, b: Backup, d: Db)
    requires d.shops == db.shops && d.listings == db.listings && d.products.Keys == db.products.Keys
    requires LinksRefer(db.listings, db.shops, db.products.Keys) && LinksRefer(d.links.Keys, d.shops, d.categories.Keys)
    requires forall p :: p in d.products ==>
               && d.products[p].category in d.categories
               && (d.products[p].sub.Some? ==> d.products[p].sub.value in d.subcategories)
    requires forall s :: s in d.subcategories ==> d.subcategories[s].category in d.categories
    ensures References(d)
  {
    hide LinksRefer;
  }

  lemma KeptAreThere(db: Db, b: Backup)
    ensures forall c :: Stays(db, b, c) ==> c in db.categories
    ensures forall s :: SubStays(db, b, s) ==> s in db.subcategories
  {
  }

  lemma Allowed(db: Db, b: Backup, r: Restoring)
    requires References(db) && Left(db, b, r) && Restorable(db, b)
    ensures References(r.products) && References(r.links) && References(r.subsDeleted)
            && References(r.categoriesDeleted)
  {
    KeptAreThere(db, b);
    hide PlaceOf, Stays, SubStays;
    var d1, d2, d3, d4 := r.products, r.links, r.subsDeleted, r.categoriesDeleted;
    assert LinksRefer(d1.links.Keys, d1.shops, d1.categories.Keys);
    assert LinksRefer(d2.links.Keys, d2.shops, d2.categories.Keys);
    assert LinksRefer(d4.links.Keys, d4.shops, d4.categories.Keys);
    AllRefer(db, b, d1);
    AllRefer(db, b, d2);
    AllRefer(db, b, d3);
    AllRefer(db, b, d4);
    hide References, Left, Restorable;
  }

  lemma Needed(db: Db, b: Backup, r: Restoring)
    requires References(db) && Left(db, b, r) && References(r.categoriesDeleted)
    ensures Restorable(db, b)
  {
    hide PlaceOf, Stays;
    assert r.categoriesDeleted.products == r.products.products;
    assert r.categoriesDeleted.links == r.links.links;
    assert r.categoriesDeleted.subcategories == r.subsDeleted.subcategories;
    forall p | p in db.products
      ensures Stays(db, b, PlaceOf(db, b, p).0)
      ensures PlaceOf(db, b, p).1.Some? ==> SubStays(db, b, PlaceOf(db, b, p).1.value)
    {
      assert r.categoriesDeleted.products[p].category == PlaceOf(db, b, p).0;
    }
  }

  /** A restore is refused exactly when something it leaves refers to a category or subcategory that it deletes. */
  lemma RefusedExactly(db: Db, b: Backup)
    requires References(db)
    ensures Restored(db, b).Some? <==> Restorable(db, b)
  {
    StepsRefer(db, b);
    hide Restoration, Restorable, References;
  }

  /** What a restore leaves in each table, row by row. */
  ghost predicate PutBack(db: Db, b: Backup, db': Db) {
    && db'.shops == db.shops && db'.listings == db.listings
    && db'.products.Keys == db.products.Keys
    && (forall p :: p in db.products ==>
          db'.products[p] == if p in b.products
            then Product(b.products[p].0, b.products[p].1, db.products[p].live) else db.products[p])
    && (forall l :: l in db'.links <==> l in b.links && l.0 in db.shops)
    && (forall l :: l in db'.links ==> db'.links[l] == b.links[l])
    && (forall s :: s in db'.subcategories <==> s in db.subcategories && s in b.subcategories)
    && (forall s :: s in db'.subcategories ==>
          db'.subcategories[s] == Subcategory(db.subcategories[s].category, db.subcategories[s].name,
             b.subcategories[s].active, b.subcategories[s].deletedAt))
    && CategoriesPutBack(db, b, db')
  }

  /** Categories added since are deleted; a General category stays as it is, whatever the backup says. */
  ghost predicate CategoriesPutBack(db: Db, b: Backup, db': Db) {
    && (forall c :: c in db'.categories <==> c in db.categories && (c in b.categories || db.categories[c].isSystem))
    && (forall c :: c in db'.categories ==>
          db'.categories[c] == if db.categories[c].isSystem then db.categories[c]
            else Category(b.categories[c].name, b.categories[c].department, b.categories[c].description, false,
                b.categories[c].active, b.categories[c].deletedAt))
  }

  lemma RestoredExactly(db: Db, b: Backup)
    requires Restored(db, b).Some?
    ensures PutBack(db, b, Restored(db, b).value)
  {
    var db' := Restoration(db, b).done;
    assert Restored(db, b).value == db';
    hide References, Restored;
    CategoriesDone(db, b);
    hide CategoriesPutBack, RestoredCategories, System;
  }

  lemma CategoriesDone(db: Db, b: Backup)
    ensures CategoriesPutBack(db, b, Restoration(db, b).done)
  {
    hide RestoredProducts, RestoredSubs, References;
  }
}
