/**
 The run of a shop copy (scripts/copy-shops/copy-shops.ts): its maps, its tables and its loops. A method that is stopped
 has met a failure, which undoes the whole run.
 */
module ShopCopier {
  import opened Text
  import opened CopyShops
  import opened ShopClashes
  import opened ShopLookups

  /** The row's own web address, or when that is taken, one with a random ending. */
  method SlugFor(slug: string, taken: bool) returns (r: string)
    ensures AddressGiven(taken, slug, r)
  {
    r := slug;
    if taken {
      var suffix: string := *;
      r := slug + "-" + suffix;
    }
  }

  class Copier {
    const f: Folding
    const b: Bundle
    const registrations: Numbers
    const codes: Numbers
    ghost const start: Db
    ghost const first: int

    var db: Db
    var userMap: map<Id, Id>
    var productCategoryMap: map<Id, Id>
    var subcategoryMap: map<Id, Id>
    var brandMap: map<Id, Id>
    var productMap: map<Id, (Id, bool)>
    var tally: Tally

    constructor (f: Folding, b: Bundle, db: Db, registrations: Numbers, codes: Numbers)
      requires db.owners <= db.users.Keys && registrations.Valid() && codes.Valid() && codes != registrations
      ensures this.f == f && this.b == b && this.registrations == registrations && this.codes == codes
              && this.db == db && start == db
      ensures StateOk() && Fresh()
    {
      hide UsersState, CategoriesImported, SubcategoriesImported, BrandsImported, ProductsImported, ShopsImported;
      hide KindsAlone, MappingsImported, OfShops, ListingsImported, ChosenImported, Numbers.Upcoming;
      hide Numbers.Valid;
      Beginning(f, b, db, registrations.Upcoming());
      AloneSelf(f, b.shopCategories, db.shopCategories);
      this.f, this.b, this.registrations, this.codes := f, b, registrations, codes;
      start, first, this.db := db, registrations.Upcoming(), db;
      userMap, productCategoryMap, subcategoryMap, brandMap, productMap := map[], map[], map[], map[], map[];
      tally := Tally(0, 0, 0, 0, 0, 0, 0, 0);
    }

    ghost predicate Fresh()
      reads this, registrations
    {
      tally == Tally(0, 0, 0, 0, 0, 0, 0, 0) && first == registrations.Upcoming()
    }

    ghost predicate UsersOk()
      reads this`db, this`userMap, this`tally
    {
      UsersState(f, b, start, db, userMap, tally)
    }

    ghost predicate CategoriesOk()
      reads this`db, this`productCategoryMap, this`tally
    {
      && CategoriesImported(f, b.categories, start.categories, db.categories, productCategoryMap)
      && CategoriesCounted(tally.categories, start, |db.categories|, |db.shopCategories|)
    }

    ghost predicate SubcategoriesOk()
      reads this`db, this`subcategoryMap, this`productCategoryMap
    {
      SubcategoriesImported(b.subcategories, start.subcategories, db.subcategories, subcategoryMap, productCategoryMap)
    }

    ghost predicate BrandsOk()
      reads this`db, this`brandMap
    {
      BrandsImported(b.brands, start.brands, db.brands, brandMap)
    }

    ghost predicate ProductsOk()
      reads this`db, this`productMap, this`productCategoryMap, this`subcategoryMap, this`brandMap, this`tally
    {
      && ProductsImported(f, b.products, start.products, db.products, productMap, productCategoryMap, subcategoryMap,
         brandMap)
      && NamesAlone(f, start.products, db.products)
      && Counted(tally.newProducts, tally.matchedProducts, |start.products|, |db.products|, |productMap|)
    }

    ghost predicate CatalogueOk()
      reads this
    {
      CategoriesOk() && SubcategoriesOk() && BrandsOk() && ProductsOk()
    }

    /** An owner's account on the target, created when none matches; either way an active shop owner. */
    method Owner(id: Id) returns (r: Outcome<Id>)
      requires UsersOk()
      modifies this`db, this`userMap, this`tally
      ensures r.Ok? ==> UsersOk() && Kept(old(userMap), userMap) && id in userMap && userMap[id] == r.value
      ensures r.Ok? ==> db == old(db).(users := db.users, owners := db.owners)
      ensures r.Ok? ==> tally == old(tally).(newOwners := tally.newOwners, existingOwners := tally.existingOwners)
      ensures r.Ok? && id in old(userMap) ==> db == old(db) && userMap == old(userMap)
      ensures r.Ok? && id !in old(userMap) ==>
                && id in b.users && Used(UserMatches(f, old(db.users), id, b.users[id]), id, r.value)
                && userMap == old(userMap)[id := r.value]
                && OwnerDone(f, old(db), db, old(tally), tally, id, b.users[id], r.value)
      ensures r == Stopped(Missing) <==> id !in old(userMap) && id !in b.users
      ensures r == Stopped(OtherEmail) <==>
                && id !in old(userMap) && id in b.users && id in old(db.users)
                && f.lower(old(db.users)[id].email) != f.lower(b.users[id].email)
      ensures r != Stopped(Clash)
    {
      hide UsersState, UserMatches, First, Used, AsOwner, OwnerDone;
      if id in userMap {
        return Ok(userMap[id]);
      }
      if id !in b.users {
        return Stopped(Missing);
      }
      var u := b.users[id];
      if id in db.users && f.lower(db.users[id].email) != f.lower(u.email) {
        return Stopped(OtherEmail);
      }
      var found, target := Pick(UserMatches(f, db.users, id, u), id);
      OwnerStep(f, b, start, db, userMap, tally, id, found, target);
      OwnerIsDone(f, db, tally, id, u, found, target);
      if found {
        tally := tally.(existingOwners := tally.existingOwners + 1);
      } else {
        var refused := *;
        if refused {
          return Stopped(Refused);
        }
        db := db.(users := db.users[id := u.(role := ShopOwner, live := true)]);
        tally := tally.(newOwners := tally.newOwners + 1);
      }
      db := db.(owners := db.owners + {target});
      db := db.(users := AsOwner(db.users, target));
      userMap := userMap[id := target];
      r := Ok(target);
    }

    method ProductCategory(id: Id) returns (r: Outcome<Id>)
      requires CategoriesOk()
      modifies this`db, this`productCategoryMap, this`tally
      ensures r.Ok? ==> CategoriesOk() && Kept(old(productCategoryMap), productCategoryMap)
      ensures r.Ok? ==> id in productCategoryMap && productCategoryMap[id] == r.value
      ensures r.Ok? ==>
                db == old(db).(categories := db.categories) && tally == old(tally).(categories := tally.categories)
      ensures r.Ok? && id in old(productCategoryMap) ==> db == old(db) && productCategoryMap == old(productCategoryMap)
      ensures r.Ok? && id !in old(productCategoryMap) ==>
                && id in b.categories && Used(CategoryMatches(f, old(db.categories), id, b.categories[id]), id, r.value)
                && CategoryDone(f, old(db.categories), db.categories, id, b.categories[id], r.value)
      ensures r.Ok? ==>
                db.categories == WithCategory(f, b.categories, old(db.categories), old(productCategoryMap), id)
      ensures r.Ok? && id !in old(productCategoryMap)
              && First(CategoryMatches(f, old(db.categories), id, b.categories[id])) == {} ==>
                id !in old(db.categories)
      ensures r.Stopped? ==> Lacking(r.why, id !in b.categories, b)
    {
      hide CategoriesImported, CategoryMatches, First, Used, CategoryUsed, NoCategory;
      if id in productCategoryMap {
        return Ok(productCategoryMap[id]);
      }
      if id !in b.categories {
        return Stopped(Missing);
      }
      var c := b.categories[id];
      var found, target := Pick(CategoryMatches(f, db.categories, id, c), id);
      CategoryStep(f, b.categories, start.categories, db.categories, productCategoryMap, id, target);
      CategoryFoundBy(f, db.categories, id, c, target);
      KeptPlus(productCategoryMap, id, target);
      if !found {
        var refused := *;
        if refused {
          return Stopped(Refused);
        }
        db := db.(categories := db.categories[id := c.(isSystem := false, live := true)]);
        tally := tally.(categories := tally.categories + 1);
      }
      productCategoryMap := productCategoryMap[id := target];
      r := Ok(target);
    }

    /**
     A subcategory on the target; one that has to be inserted goes under its own category, matched or inserted too.
     */
    method Subcategory(id: Option<Id>) returns (r: Outcome<Option<Id>>)
      requires CategoriesOk() && SubcategoriesOk()
      modifies this`db, this`subcategoryMap, this`productCategoryMap, this`tally
      ensures r.Ok? ==> CategoriesOk() && SubcategoriesOk()
      ensures r.Ok? ==> Kept(old(productCategoryMap), productCategoryMap) && Kept(old(subcategoryMap), subcategoryMap)
      ensures r.Ok? ==> Translated(id, r.value, subcategoryMap)
      ensures r.Ok? ==> db == old(db).(categories := db.categories, subcategories := db.subcategories)
      ensures r.Ok? ==> tally == old(tally).(categories := tally.categories)
      ensures r.Ok? && id.Some? && id.value !in old(subcategoryMap) ==>
                && id.value in b.subcategories
                && Used(SubcategoryMatches(old(db.subcategories), id.value, b.subcategories[id.value]), id.value,
                   r.value.value)
                && SubcategoryDone(old(db.subcategories), db.subcategories, id.value, b.subcategories[id.value],
                   productCategoryMap, r.value.value)
      ensures r.Stopped? ==> Lacking(r.why, id.Some? && id.value !in b.subcategories, b)
    {
      hide CategoriesCounted, CategoriesImported, SubcategoriesImported, SubcategoryMatches, First, Used;
      hide SubcategoryUsed, NoSubcategory, CategoryDone, WithCategory;
      if id.None? {
        return Ok(None);
      }
      if id.value in subcategoryMap {
        return Ok(Some(subcategoryMap[id.value]));
      }
      if id.value !in b.subcategories {
        return Stopped(Missing);
      }
      var s := b.subcategories[id.value];
      var found, target := Pick(SubcategoryMatches(db.subcategories, id.value, s), id.value);
      SubcategoryMatched(db.subcategories, id.value, s, target);
      SubcategoryFoundBy(db.subcategories, id.value, s, target);
      if !found {
        var category := ProductCategory(s.category);
        if category.Stopped? {
          return Stopped(category.why);
        }
        var refused := *;
        if refused {
          return Stopped(Refused);
        }
        SubcategoriesStay(b.subcategories, start.subcategories, db.subcategories, subcategoryMap,
            old(productCategoryMap), productCategoryMap);
        SubcategoryAdded(b.subcategories, start.subcategories, db.subcategories, subcategoryMap, productCategoryMap,
            id.value);
        db := db.(subcategories := db.subcategories[id.value := s.(category := category.value, live := true)]);
      } else {
        SubcategoryFound(b.subcategories, start.subcategories, db.subcategories, subcategoryMap, productCategoryMap,
            id.value, target);
      }
      subcategoryMap := subcategoryMap[id.value := target];
      return Ok(Some(target));
    }

    method Brand(id: Option<Id>) returns (r: Outcome<Option<Id>>)
      requires BrandsOk()
      modifies this`db, this`brandMap
      ensures r.Ok? ==> BrandsOk() && Kept(old(brandMap), brandMap) && Translated(id, r.value, brandMap)
      ensures r.Ok? ==> db == old(db).(brands := db.brands)
      ensures r.Ok? && id.Some? && id.value !in old(brandMap) ==>
                && id.value in b.brands
                && Used(BrandMatches(old(db.brands), id.value, b.brands[id.value]), id.value, r.value.value)
                && BrandDone(old(db.brands), db.brands, id.value, b.brands[id.value], r.value.value)
      ensures r.Stopped? ==> Lacking(r.why, id.Some? && id.value !in b.brands, b)
    {
      hide BrandsImported, BrandMatches, First, Used, BrandUsed, NoBrand;
      if id.None? {
        return Ok(None);
      }
      if id.value in brandMap {
        return Ok(Some(brandMap[id.value]));
      }
      if id.value !in b.brands {
        return Stopped(Missing);
      }
      var found, target := Pick(BrandMatches(db.brands, id.value, b.brands[id.value]), id.value);
      BrandStep(b.brands, start.brands, db.brands, brandMap, id.value, target);
      BrandFoundBy(db.brands, id.value, b.brands[id.value], target);
      if !found {
        var refused := *;
        if refused {
          return Stopped(Refused);
        }
        db := db.(brands := db.brands[id.value := b.brands[id.value].(live := true)]);
      }
      brandMap := brandMap[id.value := target];
      return Ok(Some(target));
    }

    /** A product category, with the rest of the catalogue as it was. */
    method CategoryFor(id: Id) returns (r: Outcome<Id>)
      requires CatalogueOk()
      modifies this`db, this`productCategoryMap, this`tally
      ensures r.Ok? ==> CatalogueOk() && Kept(old(productCategoryMap), productCategoryMap)
      ensures r.Ok? ==> id in productCategoryMap && productCategoryMap[id] == r.value
      ensures r.Ok? ==>
                db == old(db).(categories := db.categories) && tally == old(tally).(categories := tally.categories)
      ensures r.Ok? && id !in old(productCategoryMap) ==> id in b.categories
      ensures r.Ok? ==>
                db.categories == WithCategory(f, b.categories, old(db.categories), old(productCategoryMap), id)
      ensures r.Ok? && id !in old(productCategoryMap)
              && First(CategoryMatches(f, old(db.categories), id, b.categories[id])) == {} ==>
                id !in old(db.categories)
      ensures r.Stopped? ==> Lacking(r.why, id !in b.categories, b)
    {
      hide NamesAlone, CategoriesImported, SubcategoriesImported, BrandsImported, ProductsImported, CategoryMatches;
      hide WithCategory, CategoryDone;
      hide Used, First;
      hide Kept, CategoriesCounted, Counted;
      r := ProductCategory(id);
      if r.Ok? {
        SubcategoriesStay(b.subcategories, start.subcategories, db.subcategories, subcategoryMap,
            old(productCategoryMap), productCategoryMap);
        KeptSelf(subcategoryMap);
        KeptSelf(brandMap);
        ProductsStay(f, b.products, start.products, db.products, productMap, old(productCategoryMap), subcategoryMap,
            brandMap,
                     productCategoryMap, subcategoryMap, brandMap);
      }
    }

    /** A catalogue product on the target, added when none matches; the flag says whether this run added it. */
    method Product(id: Id) returns (r: Outcome<(Id, bool)>)
      requires CatalogueOk() && codes.Valid()
      modifies this`db, this`productCategoryMap, this`subcategoryMap, this`brandMap, this`productMap, this`tally, codes
      ensures codes.Valid()
      ensures r.Ok? ==>
                && CatalogueOk() && Kept(old(productMap), productMap)
                && Kept(old(productCategoryMap), productCategoryMap)
      ensures r.Ok? ==> id in productMap && productMap[id] == r.value
      ensures r.Ok? ==> OnlyCatalogue(old(db), db, old(tally), tally)
      ensures r.Ok? && id !in old(productMap) ==>
                && id in b.products && b.products[id].category in productCategoryMap
                && Used(ProductMatches(f, old(db.products), id, b.products[id],
                   productCategoryMap[b.products[id].category]), id, r.value.0)
      ensures r.Ok? && id !in old(productMap) && !r.value.1 ==>
                db.categories == WithCategory(f, b.categories, old(db.categories), old(productCategoryMap),
                   b.products[id].category)
      ensures r.Ok? && id !in old(productMap) ==>
                && ProductDone(f, old(db.products), db.products, id, b.products[id], r.value, old(codes.Upcoming()),
                   productCategoryMap, subcategoryMap, brandMap)
                && codes.Upcoming() == old(codes.Upcoming()) + (if r.value.1 then 1 else 0)
      ensures r.Stopped? ==> Lacking(r.why, id !in b.products, b)
    {
      hide NamesAlone, CategoriesImported, SubcategoriesImported, BrandsImported, ProductsImported, ProductMatches;
      hide First, Used, SameProduct, WithCategory, ProductDone;
      hide CategoriesCounted, Numbers.Upcoming, Numbers.Valid;
      if id in productMap {
        return Ok(productMap[id]);
      }
      if id !in b.products {
        return Stopped(Missing);
      }
      var p := b.products[id];
      hide Kept;
      var c := CategoryFor(p.category);
      if c.Stopped? {
        return Stopped(c.why);
      }
      var found, target := Pick(ProductMatches(f, db.products, id, p, c.value), id);
      ProductMatched(f, db.products, id, p, target, productCategoryMap);
      KeptPlus(productMap, id, (target, !found));
      if found {
        ProductFound(f, b.products, start.products, db.products, productMap, productCategoryMap, subcategoryMap,
            brandMap, id, target);
        ProductIsFound(f, db.products, id, p, target, codes.Upcoming(), productCategoryMap, subcategoryMap, brandMap);
        productMap := productMap[id := (target, false)];
        tally := tally.(matchedProducts := tally.matchedProducts + 1);
        r := Ok((target, false));
      } else {
        ghost var before := productCategoryMap;
        var code := codes.Next();
        r := AddProduct(id, p, c.value, code);
        if r.Ok? {
          KeptTwice(old(productCategoryMap), before, productCategoryMap);
          KeptAt(before, productCategoryMap, p.category);
        }
      }
    }

    /** The subcategory and the brand a new product refers to. */
    method Details(id: Id) returns (r: Outcome<(Option<Id>, Option<Id>)>)
      requires CatalogueOk() && id in b.products
      modifies this`db, this`productCategoryMap, this`subcategoryMap, this`brandMap, this`tally
      ensures r.Ok? ==> CatalogueOk() && Kept(old(productCategoryMap), productCategoryMap)
      ensures r.Ok? ==>
                && Translated(b.products[id].sub, r.value.0, subcategoryMap)
                && Translated(b.products[id].brand, r.value.1, brandMap)
      ensures r.Ok? ==> db == old(db).(categories := db.categories, subcategories := db.subcategories,
              brands := db.brands)
      ensures r.Ok? ==> tally == old(tally).(categories := tally.categories)
      ensures r.Stopped? ==> Lacking(r.why, false, b)
    {
      hide NamesAlone, CategoriesCounted, CategoriesImported, SubcategoriesImported, BrandsImported, ProductsImported;
      hide Kept, Translated, Counted, SubcategoryDone, BrandDone;
      var sub := Subcategory(b.products[id].sub);
      if sub.Stopped? {
        return Stopped(sub.why);
      }
      var brand := Brand(b.products[id].brand);
      if brand.Stopped? {
        return Stopped(brand.why);
      }
      ProductsStay(f, b.products, start.products, db.products, productMap, old(productCategoryMap),
          old(subcategoryMap), old(brandMap),
                   productCategoryMap, subcategoryMap, brandMap);
      r := Ok((sub.value, brand.value));
    }

    /** The rest of a product's copy when nothing matches it. */
    method AddProduct(id: Id, p: Product, category: Id, code: int) returns (r: Outcome<(Id, bool)>)
      requires CatalogueOk()
      requires id in b.products && b.products[id] == p && id !in productMap && id !in db.products
      requires p.category in productCategoryMap && productCategoryMap[p.category] == category
      requires First(ProductMatches(f, db.products, id, p, category)) == {}
      modifies this`db, this`productCategoryMap, this`subcategoryMap, this`brandMap, this`productMap, this`tally
      ensures r.Ok? ==> CatalogueOk() && r == Ok((id, true)) && productMap == old(productMap)[id := r.value]
      ensures r.Ok? ==> Kept(old(productCategoryMap), productCategoryMap)
      ensures r.Ok? ==> OnlyCatalogue(old(db), db, old(tally), tally)
      ensures r.Ok? ==> ProductDone(f, old(db.products), db.products, id, p, (id, true), code, productCategoryMap,
              subcategoryMap, brandMap)
      ensures r.Stopped? ==> Lacking(r.why, false, b)
    {
      hide First, ProductMatches, NamesAlone, Counted;
      hide CategoriesCounted, CategoriesImported, SubcategoriesImported, BrandsImported, ProductsImported, Kept;
      hide AddedProduct, ProductDone, AddressGiven;
      var details := Details(id);
      if details.Stopped? {
        return Stopped(details.why);
      }
      var (sub, brand) := details.value;
      var refused := *;
      if refused {
        return Stopped(Refused);
      }
      var slug := SlugFor(p.slug, ProductSlugTaken(db.products, p.slug));
      KeptAt(old(productCategoryMap), productCategoryMap, p.category);
      MakesAdded(p, code, slug, sub, brand, productCategoryMap, subcategoryMap, brandMap);
      var row := p.(code := code, slug := slug, category := category, sub := sub, brand := brand, live := true);
      ProductIsAdded(f, db.products, id, p, row, code, category, productCategoryMap, subcategoryMap, brandMap);
      InsertProduct(id, row);
      r := Ok((id, true));
    }

    method InsertProduct(id: Id, row: Product)
      requires CatalogueOk()
      requires id in b.products && id !in productMap && id !in db.products
      requires AddedProduct(b.products[id], row, productCategoryMap, subcategoryMap, brandMap)
      requires First(ProductMatches(f, db.products, id, b.products[id], row.category)) == {}
      modifies this`db, this`productMap, this`tally
      ensures CatalogueOk() && productMap == old(productMap)[id := (id, true)]
      ensures db == old(db).(products := old(db.products)[id := row])
      ensures tally == old(tally).(newProducts := old(tally.newProducts) + 1)
    {
      hide First, ProductMatches, NamesAlone, CategoriesCounted, CategoriesImported, SubcategoriesImported;
      hide BrandsImported, ProductsImported, Kept, Translated, AddedProduct;
      ProductAdded(f, b.products, start.products, db.products, productMap, productCategoryMap, subcategoryMap,
          brandMap, id, row);
      AddedNames(f, b.products, start.products, db.products, productMap, productCategoryMap, subcategoryMap,
          brandMap, id, row);
      db := db.(products := db.products[id := row]);
      productMap := productMap[id := (id, true)];
      tally := tally.(newProducts := tally.newProducts + 1);
    }

    ghost predicate ShopsOk()
      reads this`db, this`userMap, registrations
    {
      && registrations.Valid() && first <= registrations.Upcoming()
      && ShopsImported(f, b.shops, start.shops, db.shops, userMap, first, registrations.Upcoming())
    }

    ghost predicate MappingsOk()
      reads this`db
    {
      && KindsAlone(f, b.shopCategories, start.shopCategories, db.shopCategories)
      && MappingsImported(f, b.mappings, b.shopCategories, start.mappings, db.mappings, db.shopCategories)
      && OfShops(start.mappings, db.mappings, db.shops)
    }

    ghost predicate ListingsOk()
      reads this`db, this`productMap, this`tally
    {
      && ListingsImported(b.listings, start.listings, db.listings, productMap, db.shops)
      && tally.listings == |db.listings| - |start.listings|
    }

    ghost predicate ChosenOk()
      reads this`db, this`productCategoryMap
    {
      ChosenImported(b.chosen, start.chosen, db.chosen, productCategoryMap)
          && OfShops(start.chosen, db.chosen, db.shops)
    }

    /** What adding a shop has done: its row is there, under its owner's account and with the number that was next. */
    ghost predicate ShopAdded(was: Db, users: map<Id, Id>, counted: Tally, id: Id, s: Shop, number: int)
      reads this`db, this`userMap, this`tally, registrations
    {
      && Kept(users, userMap) && s.owner in userMap
      && ShopInserted(was, db, counted, tally, id, s, userMap[s.owner], number)
      && registrations.Upcoming() == number + 1
    }

    /** The shop's row, under its owner's account and with the next registration number. */
    method InsertShop(id: Id, s: Shop) returns (r: Outcome<()>)
      requires UsersOk() && ShopsOk() && (id, s) in b.shops && !AlreadyThere(f, db.shops, id, s)
      modifies this`db, this`userMap, this`tally, registrations
      ensures r.Ok? ==>
                && UsersOk() && ShopsOk()
                && ShopAdded(old(db), old(userMap), old(tally), id, s, old(registrations.Upcoming()))
      ensures r.Stopped? ==> Reason(f, b, start, r.why)
    {
      hide UsersState, ShopsImported, AlreadyThere, Kept, Used, UserMatches, Numbers.Upcoming;
      hide Numbers.Valid, Reason, ShopInserted, ShopAdded, EmailsAgree, OwnerDone;
      var owner := Owner(s.owner);
      if owner.Stopped? {
        OwnerReason(f, b, start, old(db), old(userMap), old(tally), id, s, owner.why);
        return Stopped(owner.why);
      }
      ShopsStay(f, b.shops, start.shops, db.shops, old(userMap), userMap, first, registrations.Upcoming());
      ghost var mid, counted := db, tally;
      r := PlaceShop(id, s, owner.value);
      if r.Ok? {
        InsertedAfterOwner(old(db), mid, db, old(tally), counted, tally, id, s, owner.value,
            old(registrations.Upcoming()));
        IsAdded(old(db), old(userMap), old(tally), id, s, old(registrations.Upcoming()));
      }
    }

    lemma IsAdded(was: Db, users: map<Id, Id>, counted: Tally, id: Id, s: Shop, number: int)
      requires Kept(users, userMap) && s.owner in userMap && registrations.Upcoming() == number + 1
      requires ShopInserted(was, db, counted, tally, id, s, userMap[s.owner], number)
      ensures ShopAdded(was, users, counted, id, s, number)
    {
      hide Kept, ShopInserted, Numbers.Upcoming;
    }

    method PlaceShop(id: Id, s: Shop, owner: Id) returns (r: Outcome<()>)
      requires UsersOk() && ShopsOk() && (id, s) in b.shops && !AlreadyThere(f, db.shops, id, s)
      requires s.owner in userMap && userMap[s.owner] == owner
      modifies this`db, registrations
      ensures r.Ok? ==>
                && UsersOk() && ShopsOk()
                && ShopInserted(old(db), db, tally, tally, id, s, owner, old(registrations.Upcoming()))
                && registrations.Upcoming() == old(registrations.Upcoming()) + 1
      ensures r.Stopped? ==> r.why == Refused && Reason(f, b, start, r.why)
    {
      hide UsersState, ShopsImported, Kept, Numbers.Upcoming, Numbers.Valid, Twins, AddressGiven;
      var number := registrations.Next();
      var slug := SlugFor(s.slug, ShopSlugTaken(db.shops, s.slug));
      var refused := *;
      if refused {
        return Stopped(Refused);
      }
      ShopPlaced(f, b.shops, start.shops, db.shops, userMap, first, number, id, s, owner, slug);
      var row := s.(owner := owner, registration := number, slug := slug);
      UsersUntouched(f, b, start, db, db.shops[id := row], userMap, tally);
      db := db.(shops := db.shops[id := row]);
      r := Ok(());
    }

    /** The row used for one of the kinds of shop it is, inserted when none matches. */
    method KindRow(c: Id) returns (r: Outcome<Id>)
      requires CategoriesOk() && MappingsOk()
      modifies this`db, this`tally
      ensures r.Ok? ==>
                && CategoriesOk() && MappingsOk() && c in b.shopCategories
                && Used(ShopCategoryMatches(f, old(db.shopCategories), c, b.shopCategories[c]), c, r.value)
                && StandsFor(f, b.shopCategories, db.shopCategories, c, r.value)
                && ShopKindDone(f, old(db.shopCategories), db.shopCategories, c, b.shopCategories[c], r.value)
      ensures r.Ok? ==> db.shopCategories == WithKind(f, b.shopCategories, old(db.shopCategories), c)
      ensures r.Ok? ==> OnlyMappings(old(db), db, old(tally), tally) && db.mappings == old(db.mappings)
      ensures r == Stopped(Missing) <==> c !in b.shopCategories
      ensures r.Stopped? ==> r.why == Missing || r.why == Refused
    {
      hide OfShops, CategoriesImported, KindsAlone, MappingsImported, StandsFor, Kept, Used, First;
      hide ShopCategoryMatches, ShopKindUsed, NoShopKind;
      if c !in b.shopCategories {
        return Stopped(Missing);
      }
      var found, target := Pick(ShopCategoryMatches(f, db.shopCategories, c, b.shopCategories[c]), c);
      KindStep(f, b.shopCategories, start.shopCategories, db.shopCategories, c, target);
      ShopKindFoundBy(f, db.shopCategories, c, b.shopCategories[c], target);
      if !found {
        var refused := *;
        if refused {
          return Stopped(Refused);
        }
        db := db.(shopCategories := db.shopCategories[c := b.shopCategories[c]]);
        tally := tally.(categories := tally.categories + 1);
      }
      MappingsStay(f, b.mappings, b.shopCategories, start.mappings, db.mappings, old(db.shopCategories),
          db.shopCategories);
      r := Ok(target);
    }

    /** One of the kinds of shop it is; target is the row used for it, linked unless it is linked already. */
    method CopyMapping(shop: Id, c: Id) returns (r: Outcome<()>, target: Id)
      requires CategoriesOk() && MappingsOk() && (shop, c) in b.mappings && shop in db.shops
      modifies this`db, this`tally
      ensures KindCopied(f, b, shop, c, old(db), db, old(tally), tally, r, target)
      ensures r.Ok? ==> CategoriesOk() && MappingsOk()
    {
      hide OfShops, Linked, CategoriesImported, KindsAlone, MappingsImported, StandsFor, Kept;
      hide CategoriesCounted, WithKind, Used, ShopCategoryMatches, ShopKindDone;
      var row := KindRow(c);
      if row.Stopped? {
        return Stopped(row.why), c;
      }
      target := row.value;
      r := LinkKind(shop, c, target);
    }

    method LinkKind(shop: Id, c: Id, target: Id) returns (r: Outcome<()>)
      requires MappingsOk() && (shop, c) in b.mappings && shop in db.shops
      requires StandsFor(f, b.shopCategories, db.shopCategories, c, target)
      modifies this`db
      ensures r.Ok? ==> MappingsOk() && (shop, target) !in old(db.mappings)
      ensures db == if r.Ok? then old(db).(mappings := Linked(old(db.mappings), shop, target)) else old(db)
      ensures r.Ok? ==> old(db.mappings) <= db.mappings
      ensures r == Stopped(Clash) <==> (shop, target) in old(db.mappings)
      ensures r.Stopped? ==> r.why == Clash || r.why == Refused
    {
      hide OfShops, Linked, KindsAlone, MappingsImported, StandsFor;
      if (shop, target) in db.mappings {
        return Stopped(Clash);
      }
      var refused := *;
      if refused {
        return Stopped(Refused);
      }
      var mappings := Linked(db.mappings, shop, target);
      MappingAdded(f, b.mappings, b.shopCategories, start.mappings, db.mappings, mappings, db.shopCategories,
          db.shops, shop, c, target);
      db := db.(mappings := mappings);
      r := Ok(());
    }

    /**
     The kinds of shop it is, each matched or inserted. The rows used for them come back in order; it stops on a clash
     exactly when the last of them is one of the others or was linked before. One can tell that beforehand: kinds that
     meet always clash, and kinds of a shop without links clash only when they may meet.
     */
    method CopyMappings(shop: Id) returns (r: Outcome<()>, targets: seq<Id>)
      requires CategoriesOk() && MappingsOk() && shop in db.shops
      modifies this`db, this`tally
      ensures r.Ok? ==> CategoriesOk() && MappingsOk() && OnlyMappings(old(db), db, old(tally), tally)
      ensures r.Ok? ==> MappingsDone(f, b, b.mappings, shop, db.mappings, db.shopCategories)
      ensures r.Ok? ==>
                db.shopCategories == WithKinds(f, b.shopCategories, old(db.shopCategories), Kinds(b.mappings, shop))
      ensures r.Ok? || r == Stopped(Clash) ==>
                KindsUsed(f, b.shopCategories, old(db.shopCategories), Kinds(b.mappings, shop), targets)
      ensures r.Ok? ==> |targets| == |Kinds(b.mappings, shop)| && Unlinked(shop, targets, old(db.mappings))
      ensures r == Stopped(Clash) ==> !Unlinked(shop, targets, old(db.mappings))
      ensures r.Ok? && SlugsApart(b.shopCategories) ==>
                !KindsMeet(f, b.shopCategories, old(db.shopCategories), Kinds(b.mappings, shop))
      ensures r == Stopped(Clash) && SlugsApart(b.shopCategories) && NoLinks(shop, old(db.mappings)) ==>
                KindsMayMeet(f, b.shopCategories, old(db.shopCategories), Kinds(b.mappings, shop))
      ensures r.Stopped? ==> r.why == Clash || Lacking(r.why, false, b)
    {
      hide KindsMeet, KindsMayMeet, SlugsApart, NoLinks, KindsUsed, Unlinked, WithKinds, MappingsDone, Whole, Kinds;
      r, targets := LinkKinds(shop);
      if (r.Ok? || r == Stopped(Clash)) && SlugsApart(b.shopCategories) {
        KindsClash(f, b.shopCategories, old(db.shopCategories), shop, Kinds(b.mappings, shop), targets,
            old(db.mappings));
      }
    }

    method LinkKinds(shop: Id) returns (r: Outcome<()>, targets: seq<Id>)
      requires CategoriesOk() && MappingsOk() && shop in db.shops
      modifies this`db, this`tally
      ensures r.Ok? ==> CategoriesOk() && MappingsOk() && OnlyMappings(old(db), db, old(tally), tally)
      ensures r.Ok? ==> MappingsDone(f, b, b.mappings, shop, db.mappings, db.shopCategories)
      ensures r.Ok? ==>
                db.shopCategories == WithKinds(f, b.shopCategories, old(db.shopCategories), Kinds(b.mappings, shop))
      ensures r.Ok? || r == Stopped(Clash) ==>
                KindsUsed(f, b.shopCategories, old(db.shopCategories), Kinds(b.mappings, shop), targets)
      ensures r.Ok? ==> |targets| == |Kinds(b.mappings, shop)| && Unlinked(shop, targets, old(db.mappings))
      ensures r == Stopped(Clash) ==> !Unlinked(shop, targets, old(db.mappings))
      ensures r.Stopped? ==> r.why == Clash || Lacking(r.why, false, b)
    {
      hide OfShops, CategoriesImported, KindsAlone, MappingsImported, MappingsDone, Mapped, StandsFor, Kept;
      hide KindsUsed, Unlinked, LinkedTo, Linked, CategoriesCounted, Whole, WithKind, Used, ShopCategoryMatches;
      KeptSelf(db.shopCategories);
      NothingMapped(f, b, shop, db);
      targets := [];
      NoKinds(f, b, shop, db);
      hide WithKinds, Kinds;
      for i := 0 to |b.mappings|
        invariant CategoriesOk() && MappingsOk() && OnlyMappings(old(db), db, old(tally), tally)
        invariant MappingsDone(f, b, b.mappings[..i], shop, db.mappings, db.shopCategories)
        invariant KindsLinked(f, b, shop, Kinds(b.mappings[..i], shop), targets, old(db), db)
      {
        ghost var before := db;
        KeptSelf(db.shopCategories);
        KindAt(b.mappings, i, shop);
        if b.mappings[i].0 == shop {
          var target;
          KindInside(b, i);
          r, target := CopyMapping(shop, b.mappings[i].1);
          if r.Ok? || r == Stopped(Clash) {
            KindMore(f, b.shopCategories, shop, Kinds(b.mappings[..i], shop), b.mappings[i].1, targets, target,
                old(db.mappings), before.mappings, old(db.shopCategories));
            targets := targets + [target];
            KindsUsedBefore(f, b.shopCategories, old(db.shopCategories), Kinds(b.mappings[..i + 1], shop),
                Kinds(b.mappings, shop), targets);
          }
          if r.Stopped? {
            return;
          }
          KeptTwice(old(db.shopCategories), before.shopCategories, db.shopCategories);
          NowMapped(f, b, shop, b.mappings[i].1, target, before.mappings, db);
        }
        MappingsDoneMore(f, b, i, shop, before, db);
      }
      assert b.mappings[..|b.mappings|] == b.mappings;
      r := Ok(());
    }

    /** The shop's listings with their products matched or added, ready to insert. */
    method Collect(shop: Id) returns (r: Outcome<seq<(Id, Listing)>>)
      requires CatalogueOk() && codes.Valid() && shop in db.shops
      modifies this`db, this`productCategoryMap, this`subcategoryMap, this`brandMap, this`productMap, this`tally, codes
      ensures r.Ok? ==> CatalogueOk() && Collected(b.listings, |b.listings|, shop, productMap, db.shops, r.value)
      ensures r.Ok? ==> r.value == Translations(b.listings, shop, productMap)
      ensures r.Ok? ==> Kept(old(productMap), productMap) && Kept(old(productCategoryMap), productCategoryMap)
      ensures r.Ok? ==> OnlyCatalogue(old(db), db, old(tally), tally)
      ensures codes.Valid()
      ensures r.Stopped? ==> Lacking(r.why, false, b)
    {
      hide CategoriesCounted, CategoriesImported, SubcategoriesImported, BrandsImported, ProductsImported, Counted;
      hide Kept, Collected;
      hide Used, ProductMatches, NamesAlone, Whole, Translations, Numbers.Upcoming, Numbers.Valid;
      KeptSelf(productMap);
      KeptSelf(productCategoryMap);
      var out: seq<(Id, Listing)> := [];
      NothingCollected(b.listings, shop, productMap, db.shops);
      for i := 0 to |b.listings|
        invariant CatalogueOk() && codes.Valid() && Collected(b.listings, i, shop, productMap, db.shops, out)
        invariant out == Translations(b.listings[..i], shop, productMap)
        invariant Kept(old(productMap), productMap) && Kept(old(productCategoryMap), productCategoryMap)
        invariant OnlyCatalogue(old(db), db, old(tally), tally)
      {
        var l := b.listings[i].1;
        ghost var products, categories := productMap, productCategoryMap;
        if l.shop == shop {
          ListingInside(b, i);
          var p := Product(l.product);
          if p.Stopped? {
            return Stopped(p.why);
          }
          KeptTwice(old(productMap), products, productMap);
          KeptTwice(old(productCategoryMap), categories, productCategoryMap);
          CollectedStays(b.listings, i, shop, products, productMap, db.shops, out);
          CollectedTranslated(b.listings, i, shop, products, productMap, db.shops, out);
          CollectedMore(b.listings, i, shop, productMap, db.shops, out);
          out := out + [(b.listings[i].0, l.(product := p.value.0))];
        } else {
          CollectedMore(b.listings, i, shop, productMap, db.shops, out);
        }
        TranslationAt(b.listings, i, shop, productMap);
      }
      assert b.listings[..|b.listings|] == b.listings;
      r := Ok(out);
    }

    /** One INSERT of all rows: it clashes exactly when they do not fit beside one another and the rows there. */
    method InsertListings(out: seq<(Id, Listing)>) returns (r: Outcome<()>)
      requires ListingsOk()
      requires forall e :: e in out ==> ListingImported(b.listings, e.0, e.1, productMap) && e.1.shop in db.shops
      modifies this`db, this`tally
      ensures r.Ok? ==>
                && ListingsOk() && Inserted(out, db.listings) && Kept(old(db.listings), db.listings)
                && Fits(out, old(db.listings))
      ensures r.Ok? ==> db == old(db).(listings := db.listings) && tally == old(tally).(listings := tally.listings)
      ensures r == Stopped(Clash) ==> !Fits(out, old(db.listings))
      ensures r.Stopped? ==> r.why == Clash || r.why == Refused
    {
      hide ListingsImported, ListingImported, Kept, Inserted, Fits, Filled, Taken;
      KeptSelf(db.listings);
      NothingFilled(out, db.listings);
      var listings := db.listings;
      for i := 0 to |out|
        invariant db == old(db) && tally == old(tally)
        invariant ListingsImported(b.listings, start.listings, listings, productMap, db.shops)
                  && |listings| == |db.listings| + i
        invariant Filled(out[..i], db.listings, listings) && Fits(out[..i], db.listings)
      {
        var id, row := out[i].0, out[i].1;
        FitsMore(out, i, db.listings, listings);
        if id in listings || Taken(listings, row) {
          FitsAfterAll(out, i + 1, db.listings);
          return Stopped(Clash);
        }
        var refused := *;
        if refused {
          return Stopped(Refused);
        }
        NotTaken(listings, row);
        ListingAdded(b.listings, start.listings, listings, productMap, db.shops, id, row);
        listings := listings[id := row];
      }
      assert out[..|out|] == out;
      FilledIsInserted(out, db.listings, listings);
      db := db.(listings := listings);
      tally := tally.(listings := tally.listings + |out|);
      r := Ok(());
    }

    /** The product categories the shop chose to sell in, collected and then inserted. */
    method CopyChosen(shop: Id) returns (r: Outcome<()>)
      requires CatalogueOk() && ChosenOk() && shop in db.shops
      modifies this`db, this`productCategoryMap, this`tally
      ensures r.Ok? ==>
                && CatalogueOk() && ChosenOk()
                && ChosenCopied(b.chosen, shop, old(db), db, old(tally), tally, old(productCategoryMap),
                   productCategoryMap)
      ensures r.Stopped? ==> Lacking(r.why, false, b)
    {
      hide CategoriesCounted, CategoriesImported, SubcategoriesImported, BrandsImported, ProductsImported, Counted;
      hide Kept, OfShops, Linked, ChosenImported, ChosenCopied, NamesAlone, First, CategoryMatches, Whole;
      var wanted := db.chosen;
      NothingChosen(b.chosen, shop, db, tally, productCategoryMap);
      for i := 0 to |b.chosen|
        invariant CatalogueOk() && db.shops == old(db.shops)
        invariant ChosenImported(b.chosen, start.chosen, wanted, productCategoryMap)
                  && OfShops(start.chosen, wanted, db.shops)
        invariant ChosenCopied(b.chosen[..i], shop, old(db), db.(chosen := wanted), old(tally), tally,
                  old(productCategoryMap), productCategoryMap)
      {
        ghost var memo, before, counted := productCategoryMap, db.(chosen := wanted), tally;
        KeptSelf(memo);
        if b.chosen[i].0 == shop {
          ChosenInside(b, i);
          var category := CategoryFor(b.chosen[i].1);
          if category.Stopped? {
            return Stopped(category.why);
          }
          wanted := Linked(wanted, shop, category.value);
        }
        ChosenCopiedMore(b.chosen, i, shop, old(db), before, db.(chosen := wanted), old(tally), counted, tally,
            old(productCategoryMap), memo, productCategoryMap, start.chosen);
      }
      assert b.chosen[..|b.chosen|] == b.chosen;
      var refused := *;
      if refused {
        return Stopped(Refused);
      }
      db := db.(chosen := wanted);
      r := Ok(());
    }

    ghost predicate StateOk()
      reads this, registrations, codes
    {
      UsersOk() && CatalogueOk() && ShopsOk() && MappingsOk() && ListingsOk() && ChosenOk() && codes.Valid()
          && codes != registrations
    }

    /** One shop with everything the export has for it. */
    method CopyShop(id: Id, s: Shop) returns (r: Outcome<()>)
      requires StateOk() && (id, s) in b.shops && !AlreadyThere(f, db.shops, id, s)
      modifies this`db, this`userMap, this`productCategoryMap, this`subcategoryMap, this`brandMap, this`productMap,
          this`tally
      modifies registrations, codes
      ensures r.Ok? ==> StateOk() && Complete(f, b, id, db, productMap, productCategoryMap)
      ensures r.Ok? ==> Advanced(old(db), db, old(productMap), productMap, old(productCategoryMap), productCategoryMap)
      ensures r.Ok? ==>
                && Kept(old(userMap), userMap) && s.owner in userMap
                && ShopRow(old(db.shops), db.shops, id, s, userMap[s.owner], old(registrations.Upcoming()))
                && registrations.Upcoming() == old(registrations.Upcoming()) + 1
      ensures r.Ok? ==> SameShopTotals(old(tally), tally) && !KindTwins(f, b, start, id)
      ensures r.Stopped? ==> Reason(f, b, start, r.why)
    {
      hide UsersOk, CatalogueOk, ShopsOk, MappingsOk, ListingsOk, ChosenOk, Complete, AlreadyThere, Kept, Reason;
      hide NoListings, NoLinks, Closed, KindTwins, ShopRow, Numbers.Upcoming, Numbers.Valid;
      NewShopIsBare(id, s);
      r := AddShop(id, s);
      if r.Ok? {
        RowIsOneMore(old(db.shops), db.shops, id, s, userMap[s.owner], old(registrations.Upcoming()));
        r := CopyContents(id);
      }
    }

    /** A shop that is not there yet has nothing on the target either. */
    lemma NewShopIsBare(id: Id, s: Shop)
      requires StateOk() && !AlreadyThere(f, db.shops, id, s)
      ensures Closed(start) ==> NoListings(id, db.listings) && NoLinks(id, db.mappings)
    {
      hide UsersOk, CatalogueOk, ChosenOk, Closed, NoListings, NoLinks;
      if Closed(start) {
        NothingYet(f, b, start, db, productMap, id);
      }
    }

    method AddShop(id: Id, s: Shop) returns (r: Outcome<()>)
      requires StateOk() && (id, s) in b.shops && !AlreadyThere(f, db.shops, id, s)
      modifies this`db, this`userMap, this`tally, registrations
      ensures r.Ok? ==>
                StateOk() && ShopAdded(old(db), old(userMap), old(tally), id, s, old(registrations.Upcoming()))
      ensures r.Stopped? ==> Reason(f, b, start, r.why)
    {
      hide CategoriesCounted, CategoriesImported, SubcategoriesImported, BrandsImported, ProductsImported;
      hide UsersImported, ShopsImported;
      hide Counted, Kept, AlreadyThere, Numbers.Upcoming, Numbers.Valid, NamesAlone, Reason;
      hide OfShops, KindsAlone, MappingsImported, ListingsImported, ChosenImported, ShopRow;
      r := InsertShop(id, s);
      if r.Ok? {
        KeptSelf(productMap);
        RowIsOneMore(old(db.shops), db.shops, id, s, userMap[s.owner], old(registrations.Upcoming()));
        ListingsStay(b.listings, start.listings, db.listings, productMap, productMap, old(db.shops), db.shops);
        OfShopsStay(start.mappings, db.mappings, old(db.shops), db.shops);
        OfShopsStay(start.chosen, db.chosen, old(db.shops), db.shops);
      }
    }

    /** What belongs to a shop just added: its kinds, its listings and the product categories it chose. */
    method CopyContents(id: Id) returns (r: Outcome<()>)
      requires StateOk() && id in db.shops
      requires Closed(start) ==> NoListings(id, db.listings) && NoLinks(id, db.mappings)
      modifies this`db, this`productCategoryMap, this`subcategoryMap, this`brandMap, this`productMap, this`tally, codes
      ensures r.Ok? ==> StateOk() && Complete(f, b, id, db, productMap, productCategoryMap) && db.shops == old(db.shops)
      ensures r.Ok? ==> Advanced(old(db), db, old(productMap), productMap, old(productCategoryMap), productCategoryMap)
      ensures r.Ok? ==> SameShopTotals(old(tally), tally) && !KindTwins(f, b, start, id)
      ensures r.Stopped? ==> Reason(f, b, start, r.why)
    {
      hide UsersOk, CatalogueOk, ShopsOk, MappingsOk, ListingsOk, ChosenOk, Kept, Reason, KindTwins;
      hide ListingsDone, MappingsDone, ChosenDone, NoListings, NoLinks, Closed;
      KeptSelf(db.shops);
      r := CopyKinds(id);
      if r.Ok? {
        r := CopyGoods(id);
      }
    }

    /** The kinds of shop it is. */
    method CopyKinds(shop: Id) returns (r: Outcome<()>)
      requires StateOk() && shop in db.shops && (Closed(start) ==> NoLinks(shop, db.mappings))
      modifies this`db, this`tally
      ensures r.Ok? ==> StateOk() && MappingsDone(f, b, b.mappings, shop, db.mappings, db.shopCategories)
      ensures r.Ok? ==> OnlyMappings(old(db), db, old(tally), tally) && !KindTwins(f, b, start, shop)
      ensures r.Stopped? ==> Reason(f, b, start, r.why)
    {
      hide Reason, CategoriesCounted, CategoriesImported, SubcategoriesImported, BrandsImported;
      hide ProductsImported, UsersImported, ShopsImported, NoLinks, Closed, KindsUsed, KindTwins, WithKinds, Kinds;
      hide Counted, MappingsDone, Numbers.Upcoming, Numbers.Valid, NamesAlone, Whole, Kept, KindsMeet, KindsMayMeet;
      hide OfShops, KindsAlone, MappingsImported, ListingsImported, ChosenImported, SlugsApart, Lacking;
      hide Unlinked;
      var targets: seq<Id>;
      r, targets := CopyMappings(shop);
      KindsOutcome(f, b, start, old(db.shopCategories), shop, targets, old(db.mappings), r);
    }

    /** The listings of a shop and the product categories it chose. */
    method CopyGoods(shop: Id) returns (r: Outcome<()>)
      requires StateOk() && shop in db.shops && (Closed(start) ==> NoListings(shop, db.listings))
      modifies this`db, this`productCategoryMap, this`subcategoryMap, this`brandMap, this`productMap, this`tally, codes
      ensures r.Ok? ==>
                && StateOk() && ListingsDone(b.listings, shop, db.listings, productMap)
                && ChosenDone(b.chosen, shop, db.chosen, productCategoryMap)
      ensures r.Ok? ==>
                && Kept(old(db.listings), db.listings) && old(db.chosen) <= db.chosen
                && Kept(old(productMap), productMap) && Kept(old(productCategoryMap), productCategoryMap)
                && db.shops == old(db.shops) && db.shopCategories == old(db.shopCategories)
                && db.mappings == old(db.mappings) && SameShopTotals(old(tally), tally)
      ensures r.Stopped? ==> Reason(f, b, start, r.why)
    {
      hide EmailsAgree, CategoriesCounted, CategoriesImported, SubcategoriesImported, BrandsImported;
      hide ProductsImported, UsersImported, ShopsImported, Closed, NoListings, ListingsApart, KindsApart;
      hide Counted, Kept, ListingsDone, ChosenDone, Numbers.Upcoming, Numbers.Valid, NamesAlone, Whole;
      hide OfShops, KindsAlone, MappingsImported, ListingsImported, ChosenImported, Fits;
      r := CopyListings(shop);
      if r.Ok? {
        ghost var memo := productCategoryMap;
        r := CopyChosen(shop);
        if r.Ok? {
          KeptTwice(old(productCategoryMap), memo, productCategoryMap);
        }
      }
    }

    /** The shop's listings: it clashes exactly when, with their products translated, they do not fit. */
    method CopyListings(shop: Id) returns (r: Outcome<()>)
      requires CatalogueOk() && ListingsOk() && ChosenOk() && codes.Valid() && shop in db.shops
      modifies this`db, this`productCategoryMap, this`subcategoryMap, this`brandMap, this`productMap, this`tally, codes
      ensures codes.Valid()
      ensures r.Ok? ==>
                CatalogueOk() && ListingsOk() && ChosenOk() && ListingsDone(b.listings, shop, db.listings, productMap)
      ensures r.Ok? ==> Kept(old(productMap), productMap) && Kept(old(productCategoryMap), productCategoryMap)
      ensures r.Ok? ==> Kept(old(db.listings), db.listings)
      ensures r.Ok? ==> OnlyCatalogue(old(db).(listings := db.listings), db, old(tally).(listings := tally.listings),
              tally)
      ensures r.Ok? || r == Stopped(Clash) ==> AllTranslated(b.listings, shop, productMap)
      ensures r.Ok? ==> Fits(Translations(b.listings, shop, productMap), old(db.listings))
      ensures r == Stopped(Clash) ==> !Fits(Translations(b.listings, shop, productMap), old(db.listings))
      ensures r == Stopped(Clash) && NoListings(shop, old(db.listings)) ==> !ListingsApart(f, b, start)
      ensures r.Stopped? ==> r.why == Clash || Lacking(r.why, false, b)
    {
      hide CategoriesCounted, CategoriesImported, SubcategoriesImported, BrandsImported, ProductsImported, Counted;
      hide Kept;
      hide OfShops, ListingsImported, ChosenImported, Inserted, ListingsDone, NamesAlone, Whole, Fits, Translations;
      hide AllTranslated, ListingsApart, NoListings;
      hide Numbers.Upcoming, Numbers.Valid;
      var out := Collect(shop);
      if out.Stopped? {
        return Stopped(out.why);
      }
      KeptSelf(db.shops);
      ListingsStay(b.listings, start.listings, db.listings, old(productMap), productMap, db.shops, db.shops);
      ChosenStay(b.chosen, start.chosen, db.chosen, old(productCategoryMap), productCategoryMap);
      CollectedAll(b.listings, shop, productMap, db.shops, out.value);
      ApartAllFit(f, b, start, db, productMap, productCategoryMap, subcategoryMap, brandMap, shop);
      r := InsertListings(out.value);
      if r.Ok? {
        AllListed(b.listings, shop, productMap, db.shops, out.value, db.listings);
      }
    }

    /** Whatever a run has added so far, its references are good. */
    lemma StateIsClosed()
      requires StateOk() && Closed(start)
      ensures Closed(db)
    {
      SubcategoriesClosed(f, b, start, db, subcategoryMap, productCategoryMap);
      ProductsClosed(f, b, start, db, productMap, productCategoryMap, subcategoryMap, brandMap);
      ShopsClosed(f, b, start, db, userMap, first, registrations.Upcoming());
      ListingsClosed(f, b, start, db, productMap, productCategoryMap);
      LinksClosed(f, b, start, db, productCategoryMap);
      hide SubcategoriesRefer, ProductsRefer, ShopsRefer, ListingsRefer, PairsRefer, CatalogueOk, ShopsOk, MappingsOk;
      hide ListingsOk, ChosenOk;
      hide UsersImported, Counted, NamesAlone;
    }

    /** Nothing is lost or changed, no new shop has a twin, and the report's totals are right. */
    lemma StateIsGrown()
      requires StateOk()
      ensures Grown(start, db) && NoNewTwins(f, start.shops, db.shops)
      ensures tally.copied == |db.shops| - |start.shops| ==> TotalsAreRows(tally, start, db)
    {
      hide NamesAlone, Kept, UsersKept, Twins, UsersAdded, UsersMeant, ProductsMeant, AddedProduct, ShopImported;
      hide ListingImported, StandsFor, OfShops, RowsFor, SameKindName;
      hide CategoriesCounted;
    }

    method CountShop(copied: bool)
      requires StateOk()
      modifies this`tally
      ensures StateOk()
      ensures tally == if copied then old(tally).(copied := old(tally.copied) + 1)
              else old(tally).(skipped := old(tally.skipped) + 1)
    {
      hide CategoriesCounted, CategoriesImported, SubcategoriesImported, BrandsImported, ProductsImported;
      hide UsersImported, ShopsImported;
      hide OfShops, Counted, KindsAlone, MappingsImported, ListingsImported, ChosenImported;
      hide Numbers.Upcoming, Numbers.Valid;
      hide NamesAlone;
      tally := if copied then tally.(copied := tally.copied + 1) else tally.(skipped := tally.skipped + 1);
    }

    /** All shops of the export, those already there skipped; a stop undoes everything. */
    method CopyShops() returns (r: Outcome<()>)
      requires StateOk() && Fresh() && db == start
      modifies this`db, this`userMap, this`productCategoryMap, this`subcategoryMap, this`brandMap, this`productMap,
          this`tally
      modifies registrations, codes
      ensures r.Ok? ==> StateOk() && AllThere(f, db.shops, b.shops)
      ensures r.Ok? ==> NewComplete(f, b, start.shops, db, productMap, productCategoryMap)
      ensures r.Ok? ==> tally.copied == |db.shops| - |start.shops| && tally.copied + tally.skipped == |b.shops|
      ensures r.Ok? ==> NoKindTwins(f, b, start, db.shops)
      ensures r.Ok? ==> ShopsCopied(f, start.shops, db.shops, b.shops, |b.shops|, userMap, first)
      ensures AllThere(f, start.shops, b.shops) ==> r.Ok? && db == start && tally.skipped == |b.shops|
      ensures r.Stopped? ==> Reason(f, b, start, r.why)
    {
      hide UsersOk, CatalogueOk, ShopsOk, MappingsOk, ListingsOk, ChosenOk, Complete, AlreadyThere, NewComplete;
      hide AllThere, Kept;
      hide Reason, Numbers.Upcoming, Numbers.Valid, KindTwins;
      NothingNew(f, b, db, productMap, productCategoryMap);
      NoneLeft(f, db.shops, b.shops);
      NoShopsCopied(f, db.shops, b.shops, userMap, first);
      hide ShopsCopied, Copied, CopiedBefore, ShopRow;
      for i := 0 to |b.shops|
        invariant StateOk() && AllThere(f, db.shops, b.shops[..i])
        invariant NewComplete(f, b, start.shops, db, productMap, productCategoryMap)
        invariant NoKindTwins(f, b, start, db.shops)
        invariant ShopsCopied(f, start.shops, db.shops, b.shops, i, userMap, first)
        invariant registrations.Upcoming() == first + CopiedBefore(f, start.shops, b.shops, i)
        invariant tally.copied == |db.shops| - |start.shops| && tally.copied + tally.skipped == i
        invariant AllThere(f, start.shops, b.shops) ==> db == start && tally.copied == 0
      {
        var id, s := b.shops[i].0, b.shops[i].1;
        ghost var before, products, categories, users := db, productMap, productCategoryMap, userMap;
        KeptSelf(db.shops);
        SkippedExactly(f, start.shops, db.shops, b.shops, i, userMap, first);
        if AlreadyThere(f, db.shops, id, s) {
          RowSkipped(f, start.shops, db.shops, b.shops, i, userMap, first);
          CountShop(false);
        } else {
          ThereAt(f, start.shops, b.shops, i);
          r := CopyShop(id, s);
          if r.Stopped? {
            return;
          }
          RowCopied(f, start.shops, before.shops, db.shops, b.shops, i, users, userMap, first);
          RowIsOneMore(before.shops, db.shops, id, s, userMap[s.owner],
              first + CopiedBefore(f, start.shops, b.shops, i));
          NewCompleteMore(f, b, start.shops, before, db, products, productMap, categories, productCategoryMap, id);
          ThereNow(f, db.shops, id, s);
          CountShop(true);
        }
        AllThereMore(f, before.shops, db.shops, b.shops, i);
      }
      assert b.shops[..|b.shops|] == b.shops;
      r := Ok(());
    }

    /**
     A run that ended well has copied no shop that lists two products that become one, though every lone shop was
     copied.
     */
    lemma NoTwinsCopied(shop: Id)
      requires StateOk() && Closed(start) && NewComplete(f, b, start.shops, db, productMap, productCategoryMap)
      ensures shop in db.shops && shop !in start.shops ==> !ListsTwins(f, b, start.products, shop)
    {
      if shop in db.shops && shop !in start.shops {
        assert Complete(f, b, shop, db, productMap, productCategoryMap);
        hide NewComplete, UsersOk, ShopsOk, MappingsOk, ChosenOk, CategoriesOk, SubcategoriesOk, BrandsOk, ListsTwins;
        hide ProductsImported, NamesAlone, ListingsImported, ListingsDone, Counted;
        CopiedListsNoTwins(f, b, start, db, productMap, productCategoryMap, subcategoryMap, brandMap, shop);
      }
    }

    lemma LoneCopied(i: nat)
      requires StateOk() && AllThere(f, db.shops, b.shops) && i < |b.shops| && Lone(f, b.shops, i)
      requires !AlreadyThere(f, start.shops, b.shops[i].0, b.shops[i].1)
      ensures b.shops[i].0 in db.shops && b.shops[i].0 !in start.shops
    {
      hide UsersOk, CatalogueOk, MappingsOk, ListingsOk, ChosenOk, ShopsImported, AlreadyThere, AllThere, Lone;
      hide Numbers.Upcoming;
      LoneIsCopied(f, b.shops, start.shops, db.shops, userMap, first, registrations.Upcoming(), i);
    }

    /** A run that ended well had nothing to copy that becomes one. */
    lemma NothingMet()
      requires StateOk() && Closed(start) && AllThere(f, db.shops, b.shops) && NoKindTwins(f, b, start, db.shops)
      requires NewComplete(f, b, start.shops, db, productMap, productCategoryMap)
      ensures !TwinsToCopy(f, b, start) && !KindTwinsToCopy(f, b, start)
    {
      hide StateOk, AllThere, NewComplete, ListsTwins, Lone, AlreadyThere, KindTwins, Closed;
      forall i | 0 <= i < |b.shops| && Lone(f, b.shops, i)
          && !AlreadyThere(f, start.shops, b.shops[i].0, b.shops[i].1)
        ensures !ListsTwins(f, b, start.products, b.shops[i].0) && !KindTwins(f, b, start, b.shops[i].0)
      {
        LoneCopied(i);
        NoTwinsCopied(b.shops[i].0);
      }
    }

    /** What a run that ended well leaves, when it is kept. */
    lemma EndedWell()
      requires StateOk() && Closed(start) && AllThere(f, db.shops, b.shops)
      requires tally.copied == |db.shops| - |start.shops|
      requires NewComplete(f, b, start.shops, db, productMap, productCategoryMap)
      requires ShopsCopied(f, start.shops, db.shops, b.shops, |b.shops|, userMap, first)
      ensures Closed(db) && Grown(start, db) && NoNewTwins(f, start.shops, db.shops)
      ensures CopiedWell(f, b, start, db, tally, first)
    {
      hide StateOk, AllThere, NewComplete, Closed, Grown, NoNewTwins, TotalsAreRows, ShopsCopied;
      StateIsClosed();
      StateIsGrown();
    }
  }

  /**
   A copy that ended well: every shop of the export is on the target, the new ones whole, numbered in their order and no
   others, and the report's totals are right.
   */
  ghost predicate CopiedWell(f: Folding, b: Bundle, db: Db, result: Db, tally: Tally, first: int) {
    && AllThere(f, result.shops, b.shops) && TotalsAreRows(tally, db, result)
    && AllShopsCopied(f, db.shops, result.shops, b.shops, first)
    && exists products, categories :: NewComplete(f, b, db.shops, result, products, categories)
  }

  /**
   What one run of the script comes to. A plan and a run that stops change nothing; a copy that ends well leaves every
   shop of the export on the target, whole, and when they were all there before it writes nothing. An export of which a
   shop to be copied lists two products, or has two kinds, that become one is never copied; one of which no rows can
   meet is stopped by nothing but the database.
   */
  ghost predicate Imported(mode: Mode, f: Folding, b: Bundle, db: Db, result: Db, r: Outcome<()>, tally: Tally,
      first: int)
  {
    && Closed(result) && Grown(db, result) && NoNewTwins(f, db.shops, result.shops)
    && (mode == PlanMode || r.Stopped? ==> result == db)
    && (mode == CopyMode && r.Ok? ==> CopiedWell(f, b, db, result, tally, first))
    && (r.Ok? ==> tally.copied + tally.skipped == |b.shops|)
    && (AllThere(f, db.shops, b.shops) ==> r.Ok? && result == db)
    && (TwinsToCopy(f, b, db) || KindTwinsToCopy(f, b, db) ==> r.Stopped?)
    && (r.Stopped? ==> Reason(f, b, db, r.why))
    && (Whole(b) && EmailsAgree(f, b, db.users) && Clashless(f, b, db) ==> r.Ok? || r.why == Refused)
  }

  lemma OnlyRefused(f: Folding, b: Bundle, db: Db, why: Stop)
    requires Reason(f, b, db, why) && Closed(db)
    ensures Whole(b) && EmailsAgree(f, b, db.users) && Clashless(f, b, db) ==> why == Refused
  {
    hide Whole, EmailsAgree, Clashless, Closed;
  }

  lemma StoppedImport(mode: Mode, f: Folding, b: Bundle, db: Db, r: Outcome<()>, tally: Tally, first: int)
    requires r.Stopped? && Closed(db) && Reason(f, b, db, r.why) && !AllThere(f, db.shops, b.shops)
    ensures Imported(mode, f, b, db, db, r, tally, first)
  {
    hide Closed, Grown, NoNewTwins, AllThere, Whole, EmailsAgree, Clashless, TwinsToCopy, KindTwinsToCopy, Reason;
    NothingChanged(f, db);
    OnlyRefused(f, b, db, r.why);
  }

  lemma GoodImport(mode: Mode, f: Folding, b: Bundle, db: Db, now: Db, r: Outcome<()>, tally: Tally, first: int)
    requires r.Ok? && Closed(db) && Closed(now) && Grown(db, now) && NoNewTwins(f, db.shops, now.shops)
    requires CopiedWell(f, b, db, now, tally, first) && tally.copied + tally.skipped == |b.shops|
    requires AllThere(f, db.shops, b.shops) ==> now == db
    requires !TwinsToCopy(f, b, db) && !KindTwinsToCopy(f, b, db)
    ensures Imported(mode, f, b, db, if mode == CopyMode then now else db, r, tally, first)
  {
    hide Closed, Grown, NoNewTwins, AllThere, CopiedWell, TwinsToCopy, KindTwinsToCopy;
    NothingChanged(f, db);
  }

  method Import(mode: Mode, f: Folding, b: Bundle, db: Db, registration: (int, bool), code: (int, bool))
    returns (result: Db, r: Outcome<()>, tally: Tally)
    requires Closed(db)
    ensures Imported(mode, f, b, db, result, r, tally, NextNumber(registration))
  {
    hide AllThere, Copier.StateOk, NewComplete, NoKindTwins, ShopsCopied, Closed, Reason, Imported, Numbers.Valid;
    var registrations := new Numbers(mode, registration.0, registration.1);
    var codes := new Numbers(mode, code.0, code.1);
    assert db.owners <= db.users.Keys by { ClosedOwners(db); }
    var copier := new Copier(f, b, db, registrations, codes);
    r := copier.CopyShops();
    result, tally := db, copier.tally;
    if r.Stopped? {
      StoppedImport(mode, f, b, db, r, tally, NextNumber(registration));
    } else {
      copier.NothingMet();
      copier.EndedWell();
      GoodImport(mode, f, b, db, copier.db, r, tally, NextNumber(registration));
      if mode == CopyMode {
        result := copier.db;
      }
    }
  }

  lemma ClosedOwners(db: Db)
    requires Closed(db)
    ensures db.owners <= db.users.Keys
  {
  }

  /** Running it again with the same export writes nothing. */
  method ImportTwice(
    f: Folding, b: Bundle, db: Db, registration: (int, bool), code: (int, bool), registration': (int, bool),
    code': (int, bool))
    returns (once: Db, twice: Db, r: Outcome<()>)
    requires Closed(db)
    ensures r.Ok? ==> twice == once && AllThere(f, once.shops, b.shops)
    ensures r.Stopped? ==> once == db
  {
    hide AllThere, AllShopsCopied, Grown, NoNewTwins, Closed, TotalsAreRows, NewComplete, TwinsToCopy, KindTwinsToCopy;
    hide Clashless, Reason, Whole, EmailsAgree;
    var tally: Tally;
    once, r, tally := Import(CopyMode, f, b, db, registration, code);
    var again: Outcome<()>;
    twice, again, tally := Import(CopyMode, f, b, once, registration', code');
  }
}
