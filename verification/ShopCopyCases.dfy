/**
 Exports for which copying shops does what one might not expect (scripts/copy-shops/copy-shops.ts), one small case each.
 */
module ShopCopyCases {
  import opened Text
  import opened CopyShops
  import opened ShopClashes

  const EMPTY := Db(map[], {}, map[], map[], map[], map[], map[], map[], {}, map[], {})

  /** Milk, by the litre; only the code and the web address differ from one such product to the next. */
  function Milk(category: Id, code: int, slug: string): Product {
    Product("Milk", None, "LITRE", 1000, None, category, None, None, code, slug, true)
  }

  const DAIRY := Category("dairy", "Dairy", false, true)

  /** One shop that lists the milk of two exported products. */
  const TWO_MILKS := Bundle(
    map["owner" := User("owner@example.com", false, None, ShopOwner, true)], map["dairy" := DAIRY], map[], map[],
    map["milk" := Milk("dairy", 1, "milk"), "fresh" := Milk("dairy", 2, "milk-fresh")],
    [("shop", Shop("owner", "Store", "411014", None, 1, "store", true))], map[], [],
    [("first", Listing("shop", "milk", "")), ("second", Listing("shop", "fresh", ""))], [])

  /**
   Such an export is whole and nothing on an empty target stands in its way, and yet it can never be copied: the second
   product is matched to the first, and their listings are one.
   */
  lemma TwoMilksMeet(f: Folding)
    ensures Closed(EMPTY) && Whole(TWO_MILKS) && EmailsAgree(f, TWO_MILKS, EMPTY.users)
    ensures TwinsToCopy(f, TWO_MILKS, EMPTY)
  {
    TwoMilksWhole();
    TwoMilksListed(f);
    hide TWO_MILKS, ListsTwins, Whole, Closed, EmailsAgree;
    assert Closed(EMPTY) by { EmptyClosed(); }
    assert EmailsAgree(f, TWO_MILKS, EMPTY.users) by { EmptyAgrees(f, TWO_MILKS); }
    assert 0 < |TWO_MILKS.shops|;
  }

  lemma EmptyClosed()
    ensures Closed(EMPTY)
  {
  }

  lemma EmptyAgrees(f: Folding, b: Bundle)
    ensures EmailsAgree(f, b, EMPTY.users)
  {
  }

  lemma TwoMilksWhole()
    ensures Whole(TWO_MILKS)
  {
  }

  lemma TwoMilksListed(f: Folding)
    ensures |TWO_MILKS.shops| == 1 && Lone(f, TWO_MILKS.shops, 0)
    ensures !AlreadyThere(f, EMPTY.shops, TWO_MILKS.shops[0].0, TWO_MILKS.shops[0].1)
    ensures ListsTwins(f, TWO_MILKS, EMPTY.products, TWO_MILKS.shops[0].0)
  {
    var l, m := TWO_MILKS.listings[0], TWO_MILKS.listings[1];
    assert |TWO_MILKS.listings| == 2 && l == ("first", Listing("shop", "milk", ""))
           && m == ("second", Listing("shop", "fresh", ""));
    assert "first" != "second";
    assert TWO_MILKS.products["milk"] == Milk("dairy", 1, "milk")
           && TWO_MILKS.products["fresh"] == Milk("dairy", 2, "milk-fresh");
    assert TwinRows(f, TWO_MILKS, EMPTY.products, "shop", l.1, m.1);
  }

  /** The same shop with milk and curd. */
  const MILK_AND_CURD := TWO_MILKS.(
    products := map["milk" := Milk("dairy", 1, "milk"), "fresh" := Milk("dairy", 2, "curd").(name := "Curd")])

  /** That one is stopped by nothing but the database. */
  lemma MilkAndCurdGoThrough(f: Folding)
    requires f.lower("Milk") != f.lower("Curd")
    ensures Closed(EMPTY) && Whole(MILK_AND_CURD) && EmailsAgree(f, MILK_AND_CURD, EMPTY.users)
    ensures Clashless(f, MILK_AND_CURD, EMPTY)
  {
    EmptyClosed();
    EmptyAgrees(f, MILK_AND_CURD);
    MilkAndCurdWhole();
    MilkAndCurdApart(f);
    hide MILK_AND_CURD, TWO_MILKS, Whole, Closed, EmailsAgree, ListingsApart;
    assert MILK_AND_CURD.mappings == [] by { NoKindsOfShop(); }
  }

  lemma NoKindsOfShop()
    ensures MILK_AND_CURD.mappings == [] && MILK_AND_CURD.shopCategories == map[]
  {
  }

  lemma MilkAndCurdWhole()
    ensures Whole(MILK_AND_CURD)
  {
  }

  lemma MilkAndCurdApart(f: Folding)
    requires f.lower("Milk") != f.lower("Curd")
    ensures ListingsApart(f, MILK_AND_CURD, EMPTY)
  {
    var b := MILK_AND_CURD;
    assert |b.listings| == 2 && b.listings[0] == ("first", Listing("shop", "milk", ""))
           && b.listings[1] == ("second", Listing("shop", "fresh", ""));
    assert "first" != "second" && "milk" != "fresh";
    assert b.products["milk"] == Milk("dairy", 1, "milk")
           && b.products["fresh"] == Milk("dairy", 2, "curd").(name := "Curd");
    assert ProductsApart(f, b.products, EMPTY.products, "milk", "fresh");
  }

  /**
   Two exported kinds of shop, one with the web address of a row of the target and one with its name, meet: both come
   to that row.
   */
  lemma SlugMeetsName(f: Folding, from: map<Id, ShopCategory>, categories: map<Id, ShopCategory>, t: Id, a: Id, b: Id)
    requires UniqueKinds(f, categories) && t in categories && a in from && b in from
    requires a !in categories && b !in categories && from[a].slug == categories[t].slug
    requires SameKindName(f, categories[t], from[b])
    requires forall r :: r in categories ==> categories[r].slug != from[b].slug
    ensures Meet(f, from, categories, a, b)
  {
    RowsAre(f, from, categories, a);
    RowsAre(f, from, categories, b);
    hide RowsFor;
    var bySlug := set x | x in categories && categories[x].slug == from[a].slug;
    var byName := set x | x in categories && SameKindName(f, categories[x], from[b]);
    assert t in bySlug && forall x :: x in bySlug ==> x == t;
    assert bySlug == {t};
    assert t in byName && forall x :: x in byName ==> x == t;
    assert byName == {t};
  }

  const KIRANA := ShopCategory("grocery", "Kirana")

  /** A target with one kind of shop. */
  const ONE_KIND := EMPTY.(shopCategories := map["k" := KIRANA])

  /** One shop of two kinds, of which the target's kind has the one's web address and the other's name. */
  const TWO_KINDS := Bundle(
    map["owner" := User("owner@example.com", false, None, ShopOwner, true)], map[], map[], map[], map[],
    [("shop", Shop("owner", "Store", "411014", None, 1, "store", true))],
    map["g" := ShopCategory("grocery", "Grocery"), "n" := ShopCategory("kirana", "Kirana")],
    [("shop", "g"), ("shop", "n")], [], [])

  /** Such an export is whole and nothing else on that target stands in its way, and yet it can never be copied. */
  lemma TwoKindsMeet(f: Folding)
    ensures Closed(ONE_KIND) && Whole(TWO_KINDS) && EmailsAgree(f, TWO_KINDS, ONE_KIND.users)
    ensures ListingsApart(f, TWO_KINDS, ONE_KIND) && UniqueKinds(f, ONE_KIND.shopCategories)
    ensures KindTwinsToCopy(f, TWO_KINDS, ONE_KIND)
  {
    TwoKindsWhole(f);
    TwoKindsRows(f);
    hide TWO_KINDS, ONE_KIND, Whole, Closed, EmailsAgree, KindTwins, ListingsApart;
    assert 0 < |TWO_KINDS.shops|;
  }

  lemma TwoKindsWhole(f: Folding)
    ensures Closed(ONE_KIND) && Whole(TWO_KINDS) && EmailsAgree(f, TWO_KINDS, ONE_KIND.users)
    ensures ListingsApart(f, TWO_KINDS, ONE_KIND)
  {
  }

  lemma TwoKindsRows(f: Folding)
    ensures UniqueKinds(f, ONE_KIND.shopCategories)
    ensures |TWO_KINDS.shops| == 1 && Lone(f, TWO_KINDS.shops, 0)
    ensures !AlreadyThere(f, ONE_KIND.shops, TWO_KINDS.shops[0].0, TWO_KINDS.shops[0].1)
    ensures KindTwins(f, TWO_KINDS, ONE_KIND, TWO_KINDS.shops[0].0)
  {
    var from, categories := TWO_KINDS.shopCategories, ONE_KIND.shopCategories;
    assert "g" != "n" && "g" != "k" && "n" != "k" && "grocery" != "kirana";
    assert from["g"] == ShopCategory("grocery", "Grocery") && from["n"] == ShopCategory("kirana", "Kirana");
    assert SlugsApart(from);
    SlugMeetsName(f, from, categories, "k", "g", "n");
    var rows := TWO_KINDS.mappings;
    assert rows[..1] == [("shop", "g")] && rows[..1][..0] == [];
    assert Kinds(rows[..1], "shop") == ["g"];
    assert Kinds(rows, "shop") == ["g", "n"];
    hide Meet;
    var kinds := Kinds(rows, "shop");
    assert Meet(f, from, categories, kinds[0], kinds[1]);
  }

  /** A removed category with the exported one's web address is the one used. */
  lemma RemovedCategoryIsUsed(f: Folding, r: Id)
    requires Used(CategoryMatches(f, map["old" := DAIRY.(live := false)], "dairy", DAIRY), "dairy", r)
    ensures r == "old" && UniqueSlugs(map["old" := DAIRY.(live := false)])
    ensures HeldByRemoved(map["old" := DAIRY.(live := false)], "dairy", DAIRY)
  {
    assert "old" != "dairy";
    RemovedWithSlug(f, map["old" := DAIRY.(live := false)], "old", "dairy", DAIRY, r);
  }

  lemma RemovedWithSlug(f: Folding, categories: map<Id, Category>, t: Id, id: Id, c: Category, r: Id)
    requires UniqueSlugs(categories) && t in categories && !categories[t].live && categories[t].slug == c.slug
             && id !in categories
    requires Used(CategoryMatches(f, categories, id, c), id, r)
    ensures r == t && HeldByRemoved(categories, id, c)
  {
    var bySlug := set x | x in categories && categories[x].slug == c.slug;
    var byName := set x | x in categories && categories[x].live && f.lower(categories[x].name) == f.lower(c.name);
    assert t in bySlug;
    assert CategoryMatches(f, categories, id, c) == [Named(id, categories.Keys), bySlug, byName];
    FirstOfThree(Named(id, categories.Keys), bySlug, byName);
    hide First;
  }

  /** The target has the product by its id but no category like its exported one: that category is added for nothing. */
  lemma CategoryOfMatchedProduct(f: Folding)
    ensures First(ProductMatches(f, map["milk" := Milk("other", 7, "milk")], "milk", Milk("dairy", 1, "milk"),
            "dairy")) == {"milk"}
    ensures First(CategoryMatches(f, map[], "dairy", DAIRY)) == {}
  {
    var products := map["milk" := Milk("other", 7, "milk")];
    assert ProductMatches(f, products, "milk", Milk("dairy", 1, "milk"), "dairy")[0] == {"milk"};
    NoneAlike(f, map[], "dairy", DAIRY);
  }

  lemma NoneAlike(f: Folding, categories: map<Id, Category>, id: Id, c: Category)
    requires id !in categories && forall x :: x in categories ==>
             categories[x].slug != c.slug && f.lower(categories[x].name) != f.lower(c.name)
    ensures First(CategoryMatches(f, categories, id, c)) == {}
  {
    var bySlug := set x | x in categories && categories[x].slug == c.slug;
    var byName := set x | x in categories && categories[x].live && f.lower(categories[x].name) == f.lower(c.name);
    assert CategoryMatches(f, categories, id, c) == [Named(id, categories.Keys), bySlug, byName];
    FirstOfThree(Named(id, categories.Keys), bySlug, byName);
    hide First;
  }
}
