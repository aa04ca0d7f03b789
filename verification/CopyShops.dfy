/**
 Copying exported shops into another database (scripts/copy-shops/copy-shops.ts): every row an export refers to is
 matched to one that is there or inserted, and references are translated through maps filled on the way.

 Photos, consents and audit rows are not part of this model, nor are columns the copy only passes on. The database may
 refuse any insert for a reason of its own, which ends the run and undoes it.
 */
module CopyShops {
  import opened Text

  type Id = string

  datatype Role = Customer | ShopOwner | Other(name: string)

  datatype User = User(email: string, placeholder: bool, phone: Option<string>, role: Role, live: bool)

  datatype Category = Category(slug: string, name: string, isSystem: bool, live: bool)

  datatype Subcategory = Subcategory(category: Id, slug: string, live: bool)

  datatype Brand = Brand(slug: string, live: bool)

  datatype Product = Product(
    name: string, variant: Option<string>, unit: string, size: int, gtin: Option<string>,
    category: Id, sub: Option<Id>, brand: Option<Id>, code: int, slug: string, live: bool)

  datatype Shop = Shop(owner: Id, name: string, pincode: string, actKey: Option<string>, registration: int,
      slug: string, live: bool)

  datatype ShopCategory = ShopCategory(slug: string, name: string)

  datatype Listing = Listing(shop: Id, product: Id, terms: string)

  /**
   The target's tables. `owners` are the users with an active SHOP_OWNER grant; mappings and chosen pair a shop with a
   category.
   */
  datatype Db = Db(
    users: map<Id, User>, owners: set<Id>, categories: map<Id, Category>, subcategories: map<Id, Subcategory>,
    brands: map<Id, Brand>, products: map<Id, Product>, shops: map<Id, Shop>, shopCategories: map<Id, ShopCategory>,
    mappings: set<(Id, Id)>, listings: map<Id, Listing>, chosen: set<(Id, Id)>)

  /** An export, its shops in the order of their registration numbers. */
  datatype Bundle = Bundle(
    users: map<Id, User>, categories: map<Id, Category>, subcategories: map<Id, Subcategory>, brands: map<Id, Brand>,
    products: map<Id, Product>, shops: seq<(Id, Shop)>, shopCategories: map<Id, ShopCategory>,
    mappings: seq<(Id, Id)>, listings: seq<(Id, Listing)>, chosen: seq<(Id, Id)>)

  /** What the report counts. */
  datatype Tally = Tally(
    copied: int, skipped: int, newOwners: int, existingOwners: int, newProducts: int, matchedProducts: int,
    categories: int, listings: int)

  /**
   Why a run stopped: a row the export lacks, an owner's id with another e-mail, two rows that become one, or the
   database.
   */
  datatype Stop = Missing | OtherEmail | Clash | Refused

  datatype Outcome<+T> = Ok(value: T) | Stopped(why: Stop)

  /** How the database folds text: lower(x), and lower(trim(x)) for shop names. */
  datatype Folding = Folding(lower: string -> string, shopName: string -> string)

  /* ---- what an export has to hold ---- */

  predicate RefersInside(from: Option<Id>, ids: set<Id>) {
    from.Some? ==> from.value in ids
  }

  /** Every row that another row of the export refers to is in the export. */
  predicate Whole(b: Bundle) {
    && (forall row :: row in b.shops ==> row.1.owner in b.users)
    && (forall row :: row in b.mappings ==> row.1 in b.shopCategories)
    && (forall row :: row in b.listings ==> row.1.product in b.products)
    && (forall row :: row in b.chosen ==> row.1 in b.categories)
    && (forall s :: s in b.subcategories ==> b.subcategories[s].category in b.categories)
    && (forall p :: p in b.products ==>
          && b.products[p].category in b.categories && RefersInside(b.products[p].sub, b.subcategories.Keys)
          && RefersInside(b.products[p].brand, b.brands.Keys))
  }

  /** A run stopped because the database refused a row, or because the export lacks one. */
  predicate Lacking(why: Stop, gone: bool, b: Bundle) {
    why == Refused || (why == Missing && (gone || !Whole(b)))
  }

  /** An owner whose id the target has too has the same e-mail there. */
  predicate EmailsAgree(f: Folding, b: Bundle, users: map<Id, User>) {
    forall row :: row in b.shops && row.1.owner in b.users && row.1.owner in users ==>
      f.lower(users[row.1.owner].email) == f.lower(b.users[row.1.owner].email)
  }

  /* ---- numbers ---- */

  datatype Mode = PlanMode | CopyMode

  /** The next values of a database sequence: taken in copy mode, only predicted in plan mode. */
  class Numbers {
    const mode: Mode
    var last: int
    var called: bool
    var predicted: Option<int>

    /** The number the next request gets. */
    ghost function Upcoming(): int
      reads this
    {
      if predicted.Some? then predicted.value + 1 else if called then last + 1 else last
    }

    ghost predicate Valid()
      reads this
    {
      mode == CopyMode ==> predicted.None?
    }

    constructor (mode: Mode, last: int, called: bool)
      ensures Valid() && this.mode == mode && this.last == last && this.called == called
      ensures Upcoming() == if called then last + 1 else last
    {
      this.mode, this.last, this.called, predicted := mode, last, called, None;
    }

    /**
     Either mode gives consecutive numbers from the same first one, so a plan shows what a copy will use; a plan takes
     none.
     */
    method Next() returns (n: int)
      requires Valid()
      modifies this
      ensures Valid() && n == old(Upcoming()) && Upcoming() == n + 1
      ensures mode == PlanMode ==> last == old(last) && called == old(called)
    {
      if mode == CopyMode {
        if called {
          last := last + 1;
        }
        called := true;
        n := last;
      } else {
        if predicted.None? {
          predicted := Some(last + if called then 1 else 0);
        } else {
          predicted := Some(predicted.value + 1);
        }
        n := predicted.value;
      }
    }
  }

  /* ---- matching ---- */

  /** The first of the candidate sets that is not empty. */
  function First(candidates: seq<set<Id>>): set<Id> {
    if candidates == [] then {} else if candidates[0] != {} then candidates[0] else First(candidates[1..])
  }

  /** The row used for an exported one: one of the first candidates there are, else the row itself, inserted. */
  predicate Used(candidates: seq<set<Id>>, id: Id, r: Id) {
    if First(candidates) == {} then r == id else r in First(candidates)
  }

  method Pick(candidates: seq<set<Id>>, id: Id) returns (found: bool, r: Id)
    ensures found <==> First(candidates) != {}
    ensures Used(candidates, id, r)
  {
    assert candidates[0..] == candidates;
    for i := 0 to |candidates|
      invariant First(candidates) == First(candidates[i..])
    {
      assert candidates[i..][1..] == candidates[i + 1..];
      if candidates[i] != {} {
        r :| r in candidates[i];
        return true, r;
      }
    }
    found, r := false, id;
  }

  function Named(id: Id, ids: set<Id>): set<Id> {
    if id in ids then {id} else {}
  }

  predicate Present(text: Option<string>) {
    text.Some? && text.value != ""
  }

  function UserMatches(f: Folding, users: map<Id, User>, id: Id, u: User): seq<set<Id>> {
    [Named(id, users.Keys),
     (set x | x in users && !u.placeholder && users[x].live && f.lower(users[x].email) == f.lower(u.email)),
     set x | x in users && Present(u.phone) && users[x].live && users[x].phone == u.phone]
  }

  function CategoryMatches(f: Folding, categories: map<Id, Category>, id: Id, c: Category): seq<set<Id>> {
    [Named(id, categories.Keys),
     (set x | x in categories && categories[x].slug == c.slug),
     set x | x in categories && categories[x].live && f.lower(categories[x].name) == f.lower(c.name)]
  }

  function SubcategoryMatches(subcategories: map<Id, Subcategory>, id: Id, s: Subcategory): seq<set<Id>> {
    [Named(id, subcategories.Keys), (set x | x in subcategories && subcategories[x].slug == s.slug)]
  }

  function BrandMatches(brands: map<Id, Brand>, id: Id, b: Brand): seq<set<Id>> {
    [Named(id, brands.Keys), (set x | x in brands && brands[x].slug == b.slug)]
  }

  function ShopCategoryMatches(f: Folding, categories: map<Id, ShopCategory>, id: Id, c: ShopCategory): seq<set<Id>> {
    [Named(id, categories.Keys),
     (set x | x in categories && categories[x].slug == c.slug),
     set x | x in categories && f.lower(categories[x].name) == f.lower(c.name)]
  }

  function Variant(f: Folding, p: Product): string {
    if p.variant.Some? then f.lower(p.variant.value) else ""
  }

  predicate SameName(f: Folding, a: Product, p: Product, category: Id) {
    && a.live && f.lower(a.name) == f.lower(p.name) && Variant(f, a) == Variant(f, p)
    && a.unit == p.unit && a.size == p.size && a.category == category
  }

  /** A name match counts only when it is the only one. */
  function Single(ids: set<Id>): set<Id> {
    if |ids| == 1 then ids else {}
  }

  function ProductMatches(f: Folding, products: map<Id, Product>, id: Id, p: Product, category: Id): seq<set<Id>> {
    [Named(id, products.Keys),
     (set x | x in products && Present(p.gtin) && products[x].live && products[x].gtin == p.gtin),
     Single(set x | x in products && SameName(f, products[x], p, category))]
  }

  /** Why a shop is left out: its id, its name in its PIN code, or its Shop Act registration is already there. */
  predicate AlreadyThere(f: Folding, shops: map<Id, Shop>, id: Id, s: Shop) {
    || id in shops
    || (exists x :: x in shops && Twins(f, shops[x], s))
    || (Present(s.actKey) && exists x :: x in shops && shops[x].live && shops[x].actKey == s.actKey)
  }

  predicate Twins(f: Folding, a: Shop, s: Shop) {
    a.live && f.shopName(a.name) == f.shopName(s.name) && a.pincode == s.pincode
  }

  predicate ProductSlugTaken(products: map<Id, Product>, slug: string) {
    exists x :: x in products && products[x].slug == slug
  }

  predicate ShopSlugTaken(shops: map<Id, Shop>, slug: string) {
    exists x :: x in shops && shops[x].slug == slug
  }

  /* ---- what every table keeps ---- */

  /** No row is lost or changed. */
  ghost predicate Kept<V>(was: map<Id, V>, now: map<Id, V>) {
    forall id :: id in was ==> id in now && now[id] == was[id]
  }

  /** Users may only become shop owners. */
  ghost predicate UsersKept(was: map<Id, User>, now: map<Id, User>) {
    forall u :: u in was ==>
          u in now && (now[u] == was[u] || (was[u].role == Customer && now[u] == was[u].(role := ShopOwner)))
  }

  ghost predicate Grown(was: Db, now: Db) {
    && UsersKept(was.users, now.users) && was.owners <= now.owners
    && Kept(was.categories, now.categories) && Kept(was.subcategories, now.subcategories)
       && Kept(was.brands, now.brands)
    && Kept(was.products, now.products) && Kept(was.shops, now.shops) && Kept(was.shopCategories, now.shopCategories)
    && was.mappings <= now.mappings && Kept(was.listings, now.listings) && was.chosen <= now.chosen
  }

  ghost predicate ProductRefers(p: Product, categories: set<Id>, subcategories: set<Id>, brands: set<Id>) {
    p.category in categories && (p.sub.Some? ==> p.sub.value in subcategories)
        && (p.brand.Some? ==> p.brand.value in brands)
  }

  ghost predicate PairsRefer(pairs: set<(Id, Id)>, shops: set<Id>, others: set<Id>) {
    forall x :: x in pairs ==> x.0 in shops && x.1 in others
  }

  ghost predicate SubcategoriesRefer(subcategories: map<Id, Subcategory>, categories: set<Id>) {
    forall s :: s in subcategories ==> subcategories[s].category in categories
  }

  ghost predicate ProductsRefer(products: map<Id, Product>, categories: set<Id>, subcategories: set<Id>,
      brands: set<Id>)
  {
    forall p :: p in products ==> ProductRefers(products[p], categories, subcategories, brands)
  }

  ghost predicate ShopsRefer(shops: map<Id, Shop>, users: set<Id>) {
    forall s :: s in shops ==> shops[s].owner in users
  }

  ghost predicate ListingsRefer(listings: map<Id, Listing>, shops: set<Id>, products: set<Id>) {
    forall l :: l in listings ==> listings[l].shop in shops && listings[l].product in products
  }

  /** Every foreign key points at a row. */
  ghost predicate Closed(db: Db) {
    && db.owners <= db.users.Keys
    && SubcategoriesRefer(db.subcategories, db.categories.Keys)
    && ProductsRefer(db.products, db.categories.Keys, db.subcategories.Keys, db.brands.Keys)
    && ShopsRefer(db.shops, db.users.Keys)
    && PairsRefer(db.mappings, db.shops.Keys, db.shopCategories.Keys)
    && ListingsRefer(db.listings, db.shops.Keys, db.products.Keys)
    && PairsRefer(db.chosen, db.shops.Keys, db.categories.Keys)
  }

  /* ---- what the maps mean, and what was added ---- */

  ghost predicate SameUser(f: Folding, id: Id, u: User, target: Id, t: User) {
    || (target == id && f.lower(t.email) == f.lower(u.email))
    || (t.live && !u.placeholder && f.lower(t.email) == f.lower(u.email))
    || (t.live && Present(u.phone) && t.phone == u.phone)
  }

  ghost predicate UsersImported(
    f: Folding, from: map<Id, User>, was: map<Id, User>, now: map<Id, User>, owners: set<Id>, memo: map<Id, Id>)
  {
    UsersKept(was, now) && UsersAdded(from, was, now, memo) && UsersMeant(f, from, now, owners, memo)
  }

  ghost predicate UsersAdded(from: map<Id, User>, was: map<Id, User>, now: map<Id, User>, memo: map<Id, Id>) {
    forall u :: u in now && u !in was ==>
      u in memo && memo[u] == u && u in from && now[u] == from[u].(role := ShopOwner, live := true)
  }

  ghost predicate UsersMeant(f: Folding, from: map<Id, User>, now: map<Id, User>, owners: set<Id>, memo: map<Id, Id>) {
    forall k :: k in memo ==>
      && k in from && memo[k] in now && memo[k] in owners && now[memo[k]].role != Customer
      && SameUser(f, k, from[k], memo[k], now[memo[k]])
  }

  ghost predicate CategoriesImported(
    f: Folding, from: map<Id, Category>, was: map<Id, Category>, now: map<Id, Category>, memo: map<Id, Id>)
  {
    && Kept(was, now)
    && (forall c :: c in now && c !in was ==>
       c in memo && memo[c] == c && c in from && now[c] == from[c].(isSystem := false, live := true))
    && (forall k :: k in memo ==>
          && k in from && memo[k] in now
          && (memo[k] == k || now[memo[k]].slug == from[k].slug || f.lower(now[memo[k]].name) == f.lower(from[k].name)))
  }

  ghost predicate SubcategoriesImported(
    from: map<Id, Subcategory>, was: map<Id, Subcategory>, now: map<Id, Subcategory>, memo: map<Id, Id>,
    categories: map<Id, Id>)
  {
    && Kept(was, now)
    && (forall s :: s in now && s !in was ==>
          && s in memo && memo[s] == s && s in from && from[s].category in categories
          && now[s] == from[s].(category := categories[from[s].category], live := true))
    && (forall k :: k in memo ==> k in from && memo[k] in now && (memo[k] == k || now[memo[k]].slug == from[k].slug))
  }

  ghost predicate BrandsImported(from: map<Id, Brand>, was: map<Id, Brand>, now: map<Id, Brand>, memo: map<Id, Id>) {
    && Kept(was, now)
    && (forall b :: b in now && b !in was ==>
       b in memo && memo[b] == b && b in from && now[b] == from[b].(live := true))
    && (forall k :: k in memo ==> k in from && memo[k] in now && (memo[k] == k || now[memo[k]].slug == from[k].slug))
  }

  predicate Translated(from: Option<Id>, to: Option<Id>, memo: map<Id, Id>) {
    if from.None? then to.None? else from.value in memo && to == Some(memo[from.value])
  }

  /** An exported product as it is added: its own row with a new code, its references translated. */
  ghost predicate AddedProduct(p: Product, now: Product, categories: map<Id, Id>, subcategories: map<Id, Id>,
      brands: map<Id, Id>)
  {
    && p.category in categories && Translated(p.sub, now.sub, subcategories) && Translated(p.brand, now.brand, brands)
    && now == p.(code := now.code, slug := now.slug, category := categories[p.category], sub := now.sub,
       brand := now.brand, live := true)
  }

  ghost predicate SameProduct(f: Folding, id: Id, p: Product, target: Id, t: Product, categories: map<Id, Id>) {
    || target == id
    || (Present(p.gtin) && t.gtin == p.gtin)
    || (p.category in categories && SameName(f, t, p, categories[p.category]))
  }

  ghost predicate ProductsImported(
    f: Folding, from: map<Id, Product>, was: map<Id, Product>, now: map<Id, Product>, memo: map<Id, (Id, bool)>,
    categories: map<Id, Id>, subcategories: map<Id, Id>, brands: map<Id, Id>)
  {
    && Kept(was, now) && ProductsMeant(f, from, was, now, memo, categories)
    && forall p :: p in now && p !in was ==>
         p in memo && memo[p] == (p, true) && p in from
             && AddedProduct(from[p], now[p], categories, subcategories, brands)
  }

  ghost predicate ProductsMeant(
    f: Folding, from: map<Id, Product>, was: map<Id, Product>, now: map<Id, Product>, memo: map<Id, (Id, bool)>,
    categories: map<Id, Id>)
  {
    forall k :: k in memo ==>
      && k in from && memo[k].0 in now && (memo[k].1 ==> k !in was && memo[k].0 == k)
      && SameProduct(f, k, from[k], memo[k].0, now[memo[k].0], categories)
  }

  /** New shops are exported ones with their owner translated and a registration number of their own. */
  ghost predicate ShopsImported(
    f: Folding, from: seq<(Id, Shop)>, was: map<Id, Shop>, now: map<Id, Shop>, users: map<Id, Id>, first: int,
    upcoming: int)
  {
    && Kept(was, now)
    && (forall x :: x in now && x !in was ==>
       ShopImported(from, x, now[x], users) && first <= now[x].registration < upcoming)
    && (forall x, y | x in now && y in now :: x !in was && x != y ==>
          && !(now[x].live && Twins(f, now[y], now[x]))
          && (y !in was ==> now[x].registration != now[y].registration))
  }

  ghost predicate ShopImported(from: seq<(Id, Shop)>, id: Id, now: Shop, users: map<Id, Id>) {
    exists row :: row in from && row.0 == id && row.1.owner in users
                  && now == row.1.(owner := users[row.1.owner], registration := now.registration, slug := now.slug)
  }

  ghost predicate ListingImported(from: seq<(Id, Listing)>, id: Id, now: Listing, products: map<Id, (Id, bool)>) {
    exists row :: row in from && row.0 == id && row.1.product in products
                  && now == row.1.(product := products[row.1.product].0)
  }

  ghost predicate SameShopCategory(f: Folding, id: Id, c: ShopCategory, target: Id, t: ShopCategory) {
    target == id || t.slug == c.slug || f.lower(t.name) == f.lower(c.name)
  }

  /** A shop's category on the target stands for one it has in the export. */
  ghost predicate StandsFor(f: Folding, from: map<Id, ShopCategory>, now: map<Id, ShopCategory>, c: Id, target: Id) {
    c in from && target in now && SameShopCategory(f, c, from[c], target, now[target])
  }

  ghost predicate MappingsImported(
    f: Folding, rows: seq<(Id, Id)>, from: map<Id, ShopCategory>, was: set<(Id, Id)>, now: set<(Id, Id)>,
    categories: map<Id, ShopCategory>)
  {
    && was <= now
    && forall m :: m in now && m !in was ==> exists row ::
       row in rows && row.0 == m.0 && StandsFor(f, from, categories, row.1, m.1)
  }

  ghost predicate ChosenImported(rows: seq<(Id, Id)>, was: set<(Id, Id)>, now: set<(Id, Id)>, memo: map<Id, Id>) {
    && was <= now
    && forall c :: c in now && c !in was ==> exists row ::
       row in rows && row.0 == c.0 && row.1 in memo && memo[row.1] == c.1
  }

  ghost predicate ListingsImported(
    from: seq<(Id, Listing)>, was: map<Id, Listing>, now: map<Id, Listing>, products: map<Id, (Id, bool)>,
    shops: map<Id, Shop>)
  {
    && Kept(was, now)
    && (forall l :: l in now && l !in was ==> ListingImported(from, l, now[l], products) && now[l].shop in shops)
    && (forall l, m | l in now && m in now :: l !in was && l != m ==>
       now[l].shop != now[m].shop || now[l].product != now[m].product)
  }

  function Linked(links: set<(Id, Id)>, shop: Id, other: Id): set<(Id, Id)> {
    links + {(shop, other)}
  }

  /** New links belong to shops that are there. */
  ghost predicate OfShops(was: set<(Id, Id)>, now: set<(Id, Id)>, shops: map<Id, Shop>) {
    forall m :: m in now && m !in was ==> m.0 in shops
  }

  /** Everything the export has for a shop has come with it. */
  ghost predicate Complete(f: Folding, b: Bundle, shop: Id, db: Db, products: map<Id, (Id, bool)>,
      categories: map<Id, Id>)
  {
    && ListingsDone(b.listings, shop, db.listings, products) && ChosenDone(b.chosen, shop, db.chosen, categories)
    && MappingsDone(f, b, b.mappings, shop, db.mappings, db.shopCategories)
  }

  ghost predicate ListingsDone(rows: seq<(Id, Listing)>, shop: Id, listings: map<Id, Listing>,
      products: map<Id, (Id, bool)>)
  {
    forall row :: row in rows && row.1.shop == shop ==>
      && row.0 in listings && row.1.product in products
      && listings[row.0] == row.1.(product := products[row.1.product].0)
  }

  ghost predicate MappingsDone(
    f: Folding, b: Bundle, rows: seq<(Id, Id)>, shop: Id, mappings: set<(Id, Id)>, categories: map<Id, ShopCategory>)
  {
    forall row :: row in rows && row.0 == shop ==>
      exists t :: (shop, t) in mappings && StandsFor(f, b.shopCategories, categories, row.1, t)
  }

  ghost predicate ChosenDone(rows: seq<(Id, Id)>, shop: Id, chosen: set<(Id, Id)>, categories: map<Id, Id>) {
    forall row :: row in rows && row.0 == shop ==> row.1 in categories && (shop, categories[row.1]) in chosen
  }

  /** What stays of a run's state while the next shop is copied. */
  ghost predicate Advanced(
    was: Db, now: Db, products: map<Id, (Id, bool)>, products': map<Id, (Id, bool)>, categories: map<Id, Id>,
    categories': map<Id, Id>)
  {
    && Kept(was.listings, now.listings) && was.mappings <= now.mappings && Kept(was.shopCategories, now.shopCategories)
    && was.chosen <= now.chosen && Kept(was.shops, now.shops) && Kept(products, products')
       && Kept(categories, categories')
  }

  lemma CompleteStays(
    f: Folding, b: Bundle, shop: Id, was: Db, now: Db, products: map<Id, (Id, bool)>, products': map<Id, (Id, bool)>,
    categories: map<Id, Id>, categories': map<Id, Id>)
    requires Complete(f, b, shop, was, products, categories)
             && Advanced(was, now, products, products', categories, categories')
    ensures Complete(f, b, shop, now, products', categories')
  {
    MappingsDoneStay(f, b, b.mappings, shop, was.mappings, was.shopCategories, now.mappings, now.shopCategories);
    hide MappingsDone, StandsFor;
  }

  lemma MappingsDoneStay(
    f: Folding, b: Bundle, rows: seq<(Id, Id)>, shop: Id, was: set<(Id, Id)>, categories: map<Id, ShopCategory>,
    now: set<(Id, Id)>, categories': map<Id, ShopCategory>)
    requires MappingsDone(f, b, rows, shop, was, categories)
    requires was <= now && Kept(categories, categories')
    ensures MappingsDone(f, b, rows, shop, now, categories')
  {
    forall row | row in rows && row.0 == shop
      ensures exists t :: (shop, t) in now && StandsFor(f, b.shopCategories, categories', row.1, t)
    {
      var t :| (shop, t) in was && StandsFor(f, b.shopCategories, categories, row.1, t);
      assert StandsFor(f, b.shopCategories, categories', row.1, t);
    }
  }

  /** The report's totals: rows added, and rows of the export handled by adding or by matching. */
  ghost predicate Counted(added: int, matched: int, was: int, now: int, handled: int) {
    added == now - was && added + matched == handled
  }

  /** The report's one total for both kinds of category. */
  ghost predicate CategoriesCounted(added: int, was: Db, categories: int, shopCategories: int) {
    added == categories - |was.categories| + shopCategories - |was.shopCategories|
  }

  /** Copying a catalogue product touches no other table and no other total. */
  ghost predicate OnlyCatalogue(was: Db, now: Db, tallyWas: Tally, tallyNow: Tally) {
    && now == was.(categories := now.categories, subcategories := now.subcategories, brands := now.brands,
       products := now.products)
    && tallyNow == tallyWas.(categories := tallyNow.categories, newProducts := tallyNow.newProducts,
       matchedProducts := tallyNow.matchedProducts)
  }

  /** Exactly one shop more. */
  ghost predicate OneShopMore(was: map<Id, Shop>, now: map<Id, Shop>, id: Id) {
    Kept(was, now) && id in now && |now| == |was| + 1 && forall x :: x in now ==> x in was || x == id
  }

  ghost predicate SameShopTotals(was: Tally, now: Tally) {
    now.copied == was.copied && now.skipped == was.skipped
  }

  /** Copying a shop's kinds adds to two tables and to one total. */
  ghost predicate OnlyMappings(was: Db, now: Db, tallyWas: Tally, tallyNow: Tally) {
    && Kept(was.shopCategories, now.shopCategories) && was.mappings <= now.mappings
    && now == was.(shopCategories := now.shopCategories, mappings := now.mappings)
    && tallyNow == tallyWas.(categories := tallyNow.categories)
  }

  /** Copying a shop's chosen categories adds to two tables and to one total. */
  ghost predicate OnlyChosen(was: Db, now: Db, tallyWas: Tally, tallyNow: Tally) {
    && was.chosen <= now.chosen && now == was.(categories := now.categories, chosen := now.chosen)
    && tallyNow == tallyWas.(categories := tallyNow.categories)
  }

  /** What a run has done when it has copied the first of the export's chosen categories for a shop. */
  ghost predicate ChosenCopied(
    rows: seq<(Id, Id)>, shop: Id, was: Db, now: Db, tallyWas: Tally, tallyNow: Tally, memoWas: map<Id, Id>,
    memo: map<Id, Id>)
  {
    ChosenDone(rows, shop, now.chosen, memo) && OnlyChosen(was, now, tallyWas, tallyNow) && Kept(memoWas, memo)
  }

  ghost predicate Mapped(f: Folding, b: Bundle, shop: Id, c: Id, db: Db) {
    exists t :: (shop, t) in db.mappings && StandsFor(f, b.shopCategories, db.shopCategories, c, t)
  }

  /* ---- one row more ---- */

  lemma {:induction false} InFirst(candidates: seq<set<Id>>, x: Id)
    requires x in First(candidates)
    ensures exists i :: 0 <= i < |candidates| && x in candidates[i]
  {
    if candidates[0] == {} {
      InFirst(candidates[1..], x);
      var i :| 0 <= i < |candidates[1..]| && x in candidates[1..][i];
      assert x in candidates[i + 1];
    } else {
      assert x in candidates[0];
    }
  }

  /** A row whose own id is on the target is matched to that row. */
  lemma OwnIdFirst(candidates: seq<set<Id>>, id: Id, ids: set<Id>, r: Id)
    requires |candidates| > 0 && candidates[0] == Named(id, ids) && Used(candidates, id, r)
    ensures id in ids ==> r == id && First(candidates) != {}
    ensures First(candidates) == {} ==> id !in ids && r == id
  {
  }

  lemma UserStep(f: Folding, from: map<Id, User>, was: map<Id, User>, now: map<Id, User>, owners: set<Id>,
      memo: map<Id, Id>, id: Id, r: Id)
    requires UsersImported(f, from, was, now, owners, memo) && id in from && id !in memo
    requires id in now ==> f.lower(now[id].email) == f.lower(from[id].email)
    requires Used(UserMatches(f, now, id, from[id]), id, r)
    ensures var matched := First(UserMatches(f, now, id, from[id])) != {};
            var added := if matched then now else now[id := from[id].(role := ShopOwner, live := true)];
            && r in added && (!matched ==> id !in now && r == id)
            && UsersImported(f, from, was, AsOwner(added, r), owners + {r}, memo[id := r])
  {
    var candidates := UserMatches(f, now, id, from[id]);
    OwnIdFirst(candidates, id, now.Keys, r);
    if First(candidates) != {} {
      UserMatched(f, now, id, from[id], r);
      hide First, UserMatches, Used, SameUser;
      UserFound(f, from, was, now, owners, memo, id, r);
    } else {
      hide First, UserMatches, Used, UsersImported;
      UserAdded(f, from, was, now, owners, memo, id);
    }
  }

  lemma UserMatched(f: Folding, now: map<Id, User>, id: Id, u: User, r: Id)
    requires r in First(UserMatches(f, now, id, u))
    requires id in now ==> f.lower(now[id].email) == f.lower(u.email)
    ensures r in now && SameUser(f, id, u, r, now[r])
  {
    InFirst(UserMatches(f, now, id, u), r);
    hide First;
  }

  lemma UserFound(f: Folding, from: map<Id, User>, was: map<Id, User>, now: map<Id, User>, owners: set<Id>,
      memo: map<Id, Id>, id: Id, r: Id)
    requires UsersImported(f, from, was, now, owners, memo) && id in from && id !in memo
    requires r in now && SameUser(f, id, from[id], r, now[r])
    ensures UsersImported(f, from, was, AsOwner(now, r), owners + {r}, memo[id := r])
  {
    FoundKept(was, now, r);
    FoundAdded(from, was, now, memo, id, r);
    FoundMeans(f, from, now, owners, memo, id, r);
    hide UsersKept, UsersAdded, UsersMeant, AsOwner, SameUser;
  }

  lemma FoundKept(was: map<Id, User>, now: map<Id, User>, r: Id)
    requires UsersKept(was, now)
    ensures UsersKept(was, AsOwner(now, r))
  {
  }

  lemma FoundAdded(from: map<Id, User>, was: map<Id, User>, now: map<Id, User>, memo: map<Id, Id>, id: Id, r: Id)
    requires UsersAdded(from, was, now, memo) && id !in memo
    ensures UsersAdded(from, was, AsOwner(now, r), memo[id := r])
  {
    assert AsOwner(now, r).Keys == now.Keys;
  }

  lemma FoundMeans(f: Folding, from: map<Id, User>, now: map<Id, User>, owners: set<Id>, memo: map<Id, Id>, id: Id,
      r: Id)
    requires UsersMeant(f, from, now, owners, memo) && id in from && r in now && SameUser(f, id, from[id], r, now[r])
    ensures UsersMeant(f, from, AsOwner(now, r), owners + {r}, memo[id := r])
  {
    var now', memo' := AsOwner(now, r), memo[id := r];
    assert now'.Keys == now.Keys;
    forall k | k in memo' ensures now'[memo'[k]].role != Customer && SameUser(f, k, from[k], memo'[k], now'[memo'[k]]) {
      assert SameUser(f, k, from[k], memo'[k], now[memo'[k]]);
      assert now'[memo'[k]] == now[memo'[k]] || now'[memo'[k]] == now[memo'[k]].(role := ShopOwner);
    }
  }

  lemma UserAdded(f: Folding, from: map<Id, User>, was: map<Id, User>, now: map<Id, User>, owners: set<Id>,
      memo: map<Id, Id>, id: Id)
    requires UsersImported(f, from, was, now, owners, memo) && id in from && id !in memo && id !in now
    ensures var added := now[id := from[id].(role := ShopOwner, live := true)];
            AsOwner(added, id) == added && UsersImported(f, from, was, added, owners + {id}, memo[id := id])
  {
    var added := now[id := from[id].(role := ShopOwner, live := true)];
    assert UsersKept(was, added) by { hide UsersMeant, UsersAdded; }
    assert UsersAdded(from, was, added, memo[id := id]) by { hide UsersMeant; }
    assert UsersMeant(f, from, added, owners + {id}, memo[id := id]) by { hide UsersKept, UsersAdded; }
    hide UsersKept, UsersAdded, UsersMeant;
  }

  /** A customer who owns a shop becomes a shop owner; other roles stay. */
  function AsOwner(users: map<Id, User>, u: Id): map<Id, User> {
    if u in users && users[u].role == Customer then users[u := users[u].(role := ShopOwner)] else users
  }

  lemma AsOwnerRows(users: map<Id, User>, u: Id)
    ensures AsOwner(users, u).Keys == users.Keys && |AsOwner(users, u)| == |users|
  {
    assert AsOwner(users, u).Keys == users.Keys;
    assert |AsOwner(users, u)| == |AsOwner(users, u).Keys| && |users| == |users.Keys|;
  }

  /** The categories after looking up an exported one: it is added exactly when it is a new one that matches none. */
  function WithCategory(f: Folding, from: map<Id, Category>, categories: map<Id, Category>, memo: map<Id, Id>, id: Id)
    : map<Id, Category>
  {
    if id in memo || id !in from || First(CategoryMatches(f, categories, id, from[id])) != {} then categories
    else categories[id := from[id].(isSystem := false, live := true)]
  }

  lemma CategoryStep(f: Folding, from: map<Id, Category>, was: map<Id, Category>, now: map<Id, Category>,
      memo: map<Id, Id>, id: Id, r: Id)
    requires CategoriesImported(f, from, was, now, memo) && id in from && id !in memo
    requires Used(CategoryMatches(f, now, id, from[id]), id, r)
    ensures var now' := WithCategory(f, from, now, memo, id);
            CategoriesImported(f, from, was, now', memo[id := r]) && Kept(now, now')
    ensures First(CategoryMatches(f, now, id, from[id])) == {} ==> id !in now && r == id
  {
    hide CategoriesImported, Kept;
    var candidates := CategoryMatches(f, now, id, from[id]);
    OwnIdFirst(candidates, id, now.Keys, r);
    if First(candidates) != {} {
      InFirst(candidates, r);
      assert r in now && (r == id || now[r].slug == from[id].slug || f.lower(now[r].name) == f.lower(from[id].name));
      hide First, CategoryMatches, Used;
      CategoryFound(f, from, was, now, memo, id, r);
      KeptSelf(now);
    } else {
      hide First, CategoryMatches, Used;
      CategoryAdded(f, from, was, now, memo, id);
    }
  }

  lemma CategoryFound(f: Folding, from: map<Id, Category>, was: map<Id, Category>, now: map<Id, Category>,
      memo: map<Id, Id>, id: Id, r: Id)
    requires CategoriesImported(f, from, was, now, memo) && id in from && id !in memo
    requires r in now && (r == id || now[r].slug == from[id].slug || f.lower(now[r].name) == f.lower(from[id].name))
    ensures CategoriesImported(f, from, was, now, memo[id := r])
  {
  }

  lemma CategoryAdded(f: Folding, from: map<Id, Category>, was: map<Id, Category>, now: map<Id, Category>,
      memo: map<Id, Id>, id: Id)
    requires CategoriesImported(f, from, was, now, memo) && id in from && id !in memo && id !in now
    ensures var now' := now[id := from[id].(isSystem := false, live := true)];
            CategoriesImported(f, from, was, now', memo[id := id]) && Kept(now, now')
  {
  }

  lemma SubcategoryMatched(now: map<Id, Subcategory>, id: Id, s: Subcategory, r: Id)
    requires Used(SubcategoryMatches(now, id, s), id, r)
    ensures var matched := First(SubcategoryMatches(now, id, s)) != {};
            if matched then r in now && (r == id || now[r].slug == s.slug) else id !in now && r == id
  {
    var candidates := SubcategoryMatches(now, id, s);
    OwnIdFirst(candidates, id, now.Keys, r);
    if First(candidates) != {} {
      InFirst(candidates, r);
      hide First;
    }
  }

  lemma SubcategoryFound(
    from: map<Id, Subcategory>, was: map<Id, Subcategory>, now: map<Id, Subcategory>, memo: map<Id, Id>,
    categories: map<Id, Id>, id: Id, r: Id)
    requires SubcategoriesImported(from, was, now, memo, categories) && id in from && id !in memo
    requires r in now && (r == id || now[r].slug == from[id].slug)
    ensures SubcategoriesImported(from, was, now, memo[id := r], categories)
  {
  }

  lemma SubcategoryAdded(
    from: map<Id, Subcategory>, was: map<Id, Subcategory>, now: map<Id, Subcategory>, memo: map<Id, Id>,
    categories: map<Id, Id>, id: Id)
    requires SubcategoriesImported(from, was, now, memo, categories) && id in from && id !in memo && id !in now
    requires from[id].category in categories
    ensures var now' := now[id := from[id].(category := categories[from[id].category], live := true)];
            SubcategoriesImported(from, was, now', memo[id := id], categories) && Kept(now, now')
  {
  }

  lemma SubcategoriesStay(
    from: map<Id, Subcategory>, was: map<Id, Subcategory>, now: map<Id, Subcategory>, memo: map<Id, Id>,
    categories: map<Id, Id>, categories': map<Id, Id>)
    requires SubcategoriesImported(from, was, now, memo, categories) && Kept(categories, categories')
    ensures SubcategoriesImported(from, was, now, memo, categories')
  {
  }

  lemma BrandStep(from: map<Id, Brand>, was: map<Id, Brand>, now: map<Id, Brand>, memo: map<Id, Id>, id: Id, r: Id)
    requires BrandsImported(from, was, now, memo) && id in from && id !in memo
    requires Used(BrandMatches(now, id, from[id]), id, r)
    ensures var now' := if First(BrandMatches(now, id, from[id])) != {} then now
            else now[id := from[id].(live := true)];
            BrandsImported(from, was, now', memo[id := r]) && Kept(now, now')
    ensures First(BrandMatches(now, id, from[id])) == {} ==> id !in now && r == id
  {
    var candidates := BrandMatches(now, id, from[id]);
    OwnIdFirst(candidates, id, now.Keys, r);
    if First(candidates) != {} {
      InFirst(candidates, r);
      assert r in now && (r == id || now[r].slug == from[id].slug);
    }
    hide First, BrandMatches, Used;
  }

  lemma ProductMatched(f: Folding, now: map<Id, Product>, id: Id, p: Product, r: Id, categories: map<Id, Id>)
    requires p.category in categories && Used(ProductMatches(f, now, id, p, categories[p.category]), id, r)
    ensures var matched := First(ProductMatches(f, now, id, p, categories[p.category])) != {};
            if matched then r in now && SameProduct(f, id, p, r, now[r], categories) else id !in now && r == id
  {
    var candidates := ProductMatches(f, now, id, p, categories[p.category]);
    OwnIdFirst(candidates, id, now.Keys, r);
    if First(candidates) != {} {
      InFirst(candidates, r);
      hide First;
    }
  }

  lemma ProductFound(
    f: Folding, from: map<Id, Product>, was: map<Id, Product>, now: map<Id, Product>, memo: map<Id, (Id, bool)>,
    categories: map<Id, Id>, subcategories: map<Id, Id>, brands: map<Id, Id>, id: Id, r: Id)
    requires ProductsImported(f, from, was, now, memo, categories, subcategories, brands) && id in from && id !in memo
    requires r in now && SameProduct(f, id, from[id], r, now[r], categories)
    ensures ProductsImported(f, from, was, now, memo[id := (r, false)], categories, subcategories, brands)
  {
    hide AddedProduct, SameProduct;
  }

  lemma ProductAdded(
    f: Folding, from: map<Id, Product>, was: map<Id, Product>, now: map<Id, Product>, memo: map<Id, (Id, bool)>,
    categories: map<Id, Id>, subcategories: map<Id, Id>, brands: map<Id, Id>, id: Id, row: Product)
    requires ProductsImported(f, from, was, now, memo, categories, subcategories, brands) && id in from && id !in memo
             && id !in now
    requires AddedProduct(from[id], row, categories, subcategories, brands)
    ensures ProductsImported(f, from, was, now[id := row], memo[id := (id, true)], categories, subcategories, brands)
            && Kept(now, now[id := row])
  {
    AddedMeans(f, from, was, now, memo, categories, id, row);
    KeptPlus(now, id, row);
    KeptTwice(was, now, now[id := row]);
    hide ProductsMeant, AddedProduct;
  }

  lemma KeptPlus<V>(m: map<Id, V>, id: Id, value: V)
    requires id !in m
    ensures Kept(m, m[id := value]) && |m[id := value]| == |m| + 1
  {
  }

  lemma KeptSelf<V>(m: map<Id, V>)
    ensures Kept(m, m)
  {
  }

  lemma KeptTwice<V>(a: map<Id, V>, b: map<Id, V>, c: map<Id, V>)
    requires Kept(a, b) && Kept(b, c)
    ensures Kept(a, c)
  {
  }

  lemma KeptAt<V>(was: map<Id, V>, now: map<Id, V>, id: Id)
    requires Kept(was, now) && id in was
    ensures id in now && now[id] == was[id]
  {
  }

  lemma MakesAdded(
    p: Product, code: int, slug: string, sub: Option<Id>, brand: Option<Id>,
    categories: map<Id, Id>, subcategories: map<Id, Id>, brands: map<Id, Id>)
    requires p.category in categories && Translated(p.sub, sub, subcategories) && Translated(p.brand, brand, brands)
    ensures AddedProduct(p, p.(code := code, slug := slug, category := categories[p.category], sub := sub,
            brand := brand, live := true),
                         categories, subcategories, brands)
  {
  }

  lemma AddedMeans(
    f: Folding, from: map<Id, Product>, was: map<Id, Product>, now: map<Id, Product>, memo: map<Id, (Id, bool)>,
    categories: map<Id, Id>,
    id: Id, row: Product)
    requires ProductsMeant(f, from, was, now, memo, categories) && Kept(was, now) && id in from && id !in now
    ensures ProductsMeant(f, from, was, now[id := row], memo[id := (id, true)], categories)
  {
    assert SameProduct(f, id, from[id], id, row, categories);
    hide SameProduct;
  }

  /** A longer map leaves what was translated with it as it is. */
  lemma ProductsStay(
    f: Folding, from: map<Id, Product>, was: map<Id, Product>, now: map<Id, Product>, memo: map<Id, (Id, bool)>,
    categories: map<Id, Id>, subcategories: map<Id, Id>, brands: map<Id, Id>,
    categories': map<Id, Id>, subcategories': map<Id, Id>, brands': map<Id, Id>)
    requires ProductsImported(f, from, was, now, memo, categories, subcategories, brands)
    requires Kept(categories, categories') && Kept(subcategories, subcategories') && Kept(brands, brands')
    ensures ProductsImported(f, from, was, now, memo, categories', subcategories', brands')
  {
    forall p | p in now && p !in was ensures AddedProduct(from[p], now[p], categories', subcategories', brands') {
    }
    forall k | k in memo ensures SameProduct(f, k, from[k], memo[k].0, now[memo[k].0], categories') {
      assert SameProduct(f, k, from[k], memo[k].0, now[memo[k].0], categories);
    }
    hide AddedProduct, SameProduct, Kept;
  }

  /* ---- the state of a run, part by part ---- */

  ghost predicate UsersState(f: Folding, b: Bundle, start: Db, db: Db, memo: map<Id, Id>, tally: Tally) {
    && UsersImported(f, b.users, start.users, db.users, db.owners, memo) && start.owners <= db.owners <= db.users.Keys
    && Counted(tally.newOwners, tally.existingOwners, |start.users|, |db.users|, |memo|)
  }

  /** A shop more makes no difference to the accounts. */
  lemma UsersUntouched(f: Folding, b: Bundle, start: Db, db: Db, shops: map<Id, Shop>, memo: map<Id, Id>, tally: Tally)
    requires UsersState(f, b, start, db, memo, tally)
    ensures UsersState(f, b, start, db.(shops := shops), memo, tally)
  {
    hide UsersImported, Counted;
  }

  /** The account used for an owner is there, with an active grant. */
  function WithOwner(db: Db, id: Id, u: User, matched: bool, r: Id): Db {
    var users := if matched then db.users else db.users[id := u.(role := ShopOwner, live := true)];
    db.(users := AsOwner(users, r), owners := db.owners + {r})
  }

  function CountOwner(tally: Tally, matched: bool): Tally {
    if matched then tally.(existingOwners := tally.existingOwners + 1) else tally.(newOwners := tally.newOwners + 1)
  }

  lemma OwnerStep(f: Folding, b: Bundle, start: Db, db: Db, memo: map<Id, Id>, tally: Tally, id: Id, matched: bool,
      r: Id)
    requires UsersState(f, b, start, db, memo, tally) && id in b.users && id !in memo
    requires id in db.users ==> f.lower(db.users[id].email) == f.lower(b.users[id].email)
    requires Used(UserMatches(f, db.users, id, b.users[id]), id, r)
             && matched == (First(UserMatches(f, db.users, id, b.users[id])) != {})
    ensures UsersState(f, b, start, WithOwner(db, id, b.users[id], matched, r), memo[id := r],
            CountOwner(tally, matched))
    ensures Kept(memo, memo[id := r])
  {
    OwnerRows(f, b.users, start.users, db, memo, id, matched, r);
    KeptPlus(memo, id, r);
    hide UsersImported, Used, First, UserMatches, WithOwner, Kept;
  }

  lemma OwnerRows(f: Folding, from: map<Id, User>, was: map<Id, User>, db: Db, memo: map<Id, Id>, id: Id,
      matched: bool, r: Id)
    requires UsersImported(f, from, was, db.users, db.owners, memo) && id in from && id !in memo
    requires id in db.users ==> f.lower(db.users[id].email) == f.lower(from[id].email)
    requires Used(UserMatches(f, db.users, id, from[id]), id, r)
             && matched == (First(UserMatches(f, db.users, id, from[id])) != {})
    ensures var db' := WithOwner(db, id, from[id], matched, r);
            && UsersImported(f, from, was, db'.users, db'.owners, memo[id := r])
            && db.owners <= db'.owners && (db.owners <= db.users.Keys ==> db'.owners <= db'.users.Keys)
            && |db'.users| == if matched then |db.users| else |db.users| + 1
  {
    var users := if matched then db.users else db.users[id := from[id].(role := ShopOwner, live := true)];
    UserStep(f, from, was, db.users, db.owners, memo, id, r);
    assert !matched ==> id !in db.users;
    hide UsersImported, Used, First, UserMatches;
    AsOwnerRows(users, r);
    hide AsOwner;
  }

  /* ---- shops, listings and links ---- */

  lemma ShopAdded(
    f: Folding, from: seq<(Id, Shop)>, was: map<Id, Shop>, now: map<Id, Shop>, users: map<Id, Id>, first: int,
    upcoming: int,
    id: Id, row: Shop)
    requires ShopsImported(f, from, was, now, users, first, upcoming) && first <= upcoming
    requires id !in now && ShopImported(from, id, row, users) && row.registration == upcoming
    requires !exists x :: x in now && Twins(f, now[x], row)
    ensures ShopsImported(f, from, was, now[id := row], users, first, upcoming + 1) && Kept(now, now[id := row])
  {
    var now' := now[id := row];
    hide ShopImported;
    assert forall x :: x in now && now[x].live && Twins(f, row, now[x]) ==> Twins(f, now[x], row);
    hide Twins;
    assert forall x :: x in now' ==> now'[x] == if x == id then row else now[x];
  }

  lemma ShopsStay(
    f: Folding, from: seq<(Id, Shop)>, was: map<Id, Shop>, now: map<Id, Shop>, users: map<Id, Id>,
    users': map<Id, Id>, first: int, upcoming: int)
    requires ShopsImported(f, from, was, now, users, first, upcoming) && Kept(users, users')
    ensures ShopsImported(f, from, was, now, users', first, upcoming)
  {
    forall x | x in now && x !in was ensures ShopImported(from, x, now[x], users') {
      assert ShopImported(from, x, now[x], users);
    }
    hide ShopImported, Twins;
  }

  /** A shop that is not there yet has no twin there, before or after its references are translated. */
  lemma NoTwin(f: Folding, shops: map<Id, Shop>, id: Id, s: Shop, row: Shop)
    requires !AlreadyThere(f, shops, id, s) && row.name == s.name && row.pincode == s.pincode
    ensures id !in shops && !exists x :: x in shops && Twins(f, shops[x], row)
  {
    forall x | x in shops ensures !Twins(f, shops[x], row) {
      assert !Twins(f, shops[x], s);
    }
  }

  lemma ShopPlaced(
    f: Folding, from: seq<(Id, Shop)>, was: map<Id, Shop>, now: map<Id, Shop>, users: map<Id, Id>, first: int,
    number: int,
    id: Id, s: Shop, owner: Id, slug: string)
    requires ShopsImported(f, from, was, now, users, first, number) && first <= number
    requires (id, s) in from && !AlreadyThere(f, now, id, s) && s.owner in users && users[s.owner] == owner
    ensures var row := s.(owner := owner, registration := number, slug := slug);
            ShopsImported(f, from, was, now[id := row], users, first, number + 1) && Kept(now, now[id := row])
    ensures id !in now
  {
    var row := s.(owner := owner, registration := number, slug := slug);
    NoTwin(f, now, id, s, row);
    assert ShopImported(from, id, row, users) by {
      assert (id, s).0 == id && (id, s).1 == s;
    }
    hide ShopImported, AlreadyThere;
    ShopAdded(f, from, was, now, users, first, number, id, row);
  }

  lemma StillThere(f: Folding, was: map<Id, Shop>, now: map<Id, Shop>, id: Id, s: Shop)
    requires AlreadyThere(f, was, id, s) && Kept(was, now)
    ensures AlreadyThere(f, now, id, s)
  {
    if id !in was {
      if x :| x in was && Twins(f, was[x], s) {
        assert Twins(f, now[x], s);
      } else {
        var x :| x in was && was[x].live && was[x].actKey == s.actKey;
        assert now[x] == was[x];
      }
    }
  }

  lemma ListingStays(from: seq<(Id, Listing)>, id: Id, now: Listing, products: map<Id, (Id, bool)>,
      products': map<Id, (Id, bool)>)
    requires ListingImported(from, id, now, products) && Kept(products, products')
    ensures ListingImported(from, id, now, products')
  {
  }

  lemma ListingsStay(
    from: seq<(Id, Listing)>, was: map<Id, Listing>, now: map<Id, Listing>, products: map<Id, (Id, bool)>,
    products': map<Id, (Id, bool)>,
    shops: map<Id, Shop>, shops': map<Id, Shop>)
    requires ListingsImported(from, was, now, products, shops) && Kept(products, products') && Kept(shops, shops')
    ensures ListingsImported(from, was, now, products', shops')
  {
    forall l | l in now && l !in was ensures ListingImported(from, l, now[l], products') {
      ListingStays(from, l, now[l], products, products');
    }
    hide ListingImported;
  }

  lemma ListingAdded(
    from: seq<(Id, Listing)>, was: map<Id, Listing>, now: map<Id, Listing>, products: map<Id, (Id, bool)>,
    shops: map<Id, Shop>,
    id: Id, row: Listing)
    requires ListingsImported(from, was, now, products, shops) && id !in now
    requires ListingImported(from, id, row, products) && row.shop in shops
    requires !exists l :: l in now && now[l].shop == row.shop && now[l].product == row.product
    ensures ListingsImported(from, was, now[id := row], products, shops) && Kept(now, now[id := row])
  {
    hide ListingImported;
  }

  lemma OfShopsStay(was: set<(Id, Id)>, now: set<(Id, Id)>, shops: map<Id, Shop>, shops': map<Id, Shop>)
    requires OfShops(was, now, shops) && Kept(shops, shops')
    ensures OfShops(was, now, shops')
  {
  }

  lemma MappingsStay(
    f: Folding, rows: seq<(Id, Id)>, from: map<Id, ShopCategory>, was: set<(Id, Id)>, now: set<(Id, Id)>,
    categories: map<Id, ShopCategory>, categories': map<Id, ShopCategory>)
    requires MappingsImported(f, rows, from, was, now, categories) && Kept(categories, categories')
    ensures MappingsImported(f, rows, from, was, now, categories')
  {
    forall m | m in now && m !in was
      ensures exists row :: row in rows && row.0 == m.0 && StandsFor(f, from, categories', row.1, m.1)
    {
      var row :| row in rows && row.0 == m.0 && StandsFor(f, from, categories, row.1, m.1);
      assert StandsFor(f, from, categories', row.1, m.1);
    }
  }

  lemma ChosenStay(rows: seq<(Id, Id)>, was: set<(Id, Id)>, now: set<(Id, Id)>, memo: map<Id, Id>, memo': map<Id, Id>)
    requires ChosenImported(rows, was, now, memo) && Kept(memo, memo')
    ensures ChosenImported(rows, was, now, memo')
  {
  }

  lemma NothingMapped(f: Folding, b: Bundle, shop: Id, db: Db)
    ensures MappingsDone(f, b, b.mappings[..0], shop, db.mappings, db.shopCategories)
  {
  }

  lemma MappingsDoneMore(f: Folding, b: Bundle, i: nat, shop: Id, was: Db, now: Db)
    requires i < |b.mappings| && MappingsDone(f, b, b.mappings[..i], shop, was.mappings, was.shopCategories)
    requires was.mappings <= now.mappings && Kept(was.shopCategories, now.shopCategories)
    requires b.mappings[i].0 == shop ==> Mapped(f, b, shop, b.mappings[i].1, now)
    ensures MappingsDone(f, b, b.mappings[..i + 1], shop, now.mappings, now.shopCategories)
  {
    MappingsDoneStay(f, b, b.mappings[..i], shop, was.mappings, was.shopCategories, now.mappings, now.shopCategories);
    assert b.mappings[..i + 1] == b.mappings[..i] + [b.mappings[i]];
  }

  lemma MappingAdded(
    f: Folding, rows: seq<(Id, Id)>, from: map<Id, ShopCategory>, was: set<(Id, Id)>, now: set<(Id, Id)>,
    now': set<(Id, Id)>,
    categories: map<Id, ShopCategory>, shops: map<Id, Shop>, shop: Id, c: Id, target: Id)
    requires MappingsImported(f, rows, from, was, now, categories) && (shop, c) in rows
             && StandsFor(f, from, categories, c, target)
    requires OfShops(was, now, shops) && shop in shops && now' == Linked(now, shop, target)
    ensures MappingsImported(f, rows, from, was, now', categories) && OfShops(was, now', shops)
    ensures now <= now' && (shop, target) in now'
  {
    hide StandsFor;
    forall m | m in now' && m !in was
      ensures exists row :: row in rows && row.0 == m.0 && StandsFor(f, from, categories, row.1, m.1)
    {
      if m == (shop, target) {
        assert (shop, c) in rows && (shop, c).0 == m.0 && StandsFor(f, from, categories, (shop, c).1, m.1);
      }
    }
  }

  /* ---- a shop's listings, collected and then inserted ---- */

  /** The rows collected for the first listings of the export: the shop's, each with its product translated. */
  ghost predicate Collected(
    rows: seq<(Id, Listing)>, n: nat, shop: Id, products: map<Id, (Id, bool)>, shops: map<Id, Shop>,
    out: seq<(Id, Listing)>)
    requires n <= |rows|
  {
    && (forall e :: e in out ==> ListingImported(rows, e.0, e.1, products) && e.1.shop in shops)
    && (forall row :: row in rows[..n] && row.1.shop == shop ==>
          row.1.product in products && (row.0, row.1.(product := products[row.1.product].0)) in out)
  }

  lemma NothingCollected(rows: seq<(Id, Listing)>, shop: Id, products: map<Id, (Id, bool)>, shops: map<Id, Shop>)
    ensures Collected(rows, 0, shop, products, shops, []) && Translations(rows[..0], shop, products) == []
  {
  }

  lemma CollectedStays(
    rows: seq<(Id, Listing)>, n: nat, shop: Id, products: map<Id, (Id, bool)>, products': map<Id, (Id, bool)>,
    shops: map<Id, Shop>,
    out: seq<(Id, Listing)>)
    requires n <= |rows| && Collected(rows, n, shop, products, shops, out) && Kept(products, products')
    ensures Collected(rows, n, shop, products', shops, out)
  {
    forall e | e in out ensures ListingImported(rows, e.0, e.1, products') {
      ListingStays(rows, e.0, e.1, products, products');
    }
    hide ListingImported;
  }

  lemma CollectedMore(
    rows: seq<(Id, Listing)>, n: nat, shop: Id, products: map<Id, (Id, bool)>, shops: map<Id, Shop>,
    out: seq<(Id, Listing)>)
    requires n < |rows| && Collected(rows, n, shop, products, shops, out) && shop in shops
    ensures rows[n].1.shop != shop ==> Collected(rows, n + 1, shop, products, shops, out)
    ensures rows[n].1.shop == shop && rows[n].1.product in products ==>
              Collected(rows, n + 1, shop, products, shops,
                  out + [(rows[n].0, rows[n].1.(product := products[rows[n].1.product].0))])
  {
    assert rows[..n + 1] == rows[..n] + [rows[n]];
    if rows[n].1.shop == shop && rows[n].1.product in products {
      var e := (rows[n].0, rows[n].1.(product := products[rows[n].1.product].0));
      assert rows[n] in rows && ListingImported(rows, e.0, e.1, products);
      hide ListingImported;
      assert forall x :: x in out + [e] <==> x in out || x == e;
    }
  }

  ghost predicate Inserted(out: seq<(Id, Listing)>, listings: map<Id, Listing>) {
    forall e :: e in out ==> e.0 in listings && listings[e.0] == e.1
  }

  lemma AllListed(rows: seq<(Id, Listing)>, shop: Id, products: map<Id, (Id, bool)>, shops: map<Id, Shop>,
      out: seq<(Id, Listing)>, listings: map<Id, Listing>)
    requires Collected(rows, |rows|, shop, products, shops, out) && Inserted(out, listings)
    ensures ListingsDone(rows, shop, listings, products)
  {
    assert rows[..|rows|] == rows;
    hide ListingImported;
  }

  lemma NothingChosen(rows: seq<(Id, Id)>, shop: Id, db: Db, tally: Tally, memo: map<Id, Id>)
    ensures ChosenCopied(rows[..0], shop, db, db, tally, tally, memo, memo)
  {
  }

  /** One more of the export's chosen categories looked at, and kept in mind when it is the shop's. */
  lemma ChosenMore(
    rows: seq<(Id, Id)>, i: nat, shop: Id, was: set<(Id, Id)>, now: set<(Id, Id)>, now': set<(Id, Id)>,
    memo: map<Id, Id>, memo': map<Id, Id>,
    shops: map<Id, Shop>)
    requires OfShops(was, now, shops) && shop in shops
    requires i < |rows| && ChosenImported(rows, was, now, memo) && ChosenDone(rows[..i], shop, now, memo)
             && Kept(memo, memo')
    requires rows[i].0 == shop ==> rows[i].1 in memo' && now' == Linked(now, shop, memo'[rows[i].1])
    requires rows[i].0 != shop ==> now' == now
    ensures ChosenImported(rows, was, now', memo') && ChosenDone(rows[..i + 1], shop, now', memo')
    ensures OfShops(was, now', shops) && now <= now'
  {
    ChosenStay(rows, was, now, memo, memo');
    assert rows[..i + 1] == rows[..i] + [rows[i]];
    assert rows[i] in rows;
  }

  /* ---- whole runs ---- */

  ghost predicate AllThere(f: Folding, shops: map<Id, Shop>, rows: seq<(Id, Shop)>) {
    forall row :: row in rows ==> AlreadyThere(f, shops, row.0, row.1)
  }

  /** Every shop added since is complete. */
  ghost predicate NewComplete(f: Folding, b: Bundle, was: map<Id, Shop>, now: Db, products: map<Id, (Id, bool)>,
      categories: map<Id, Id>)
  {
    forall x :: x in now.shops && x !in was ==> Complete(f, b, x, now, products, categories)
  }

  lemma NewCompleteMore(
    f: Folding, b: Bundle, start: map<Id, Shop>, was: Db, now: Db, products: map<Id, (Id, bool)>,
    products': map<Id, (Id, bool)>,
    categories: map<Id, Id>, categories': map<Id, Id>, id: Id)
    requires NewComplete(f, b, start, was, products, categories) && Complete(f, b, id, now, products', categories')
    requires Advanced(was, now, products, products', categories, categories')
    requires forall x :: x in now.shops ==> x in was.shops || x == id
    ensures NewComplete(f, b, start, now, products', categories')
  {
    forall x | x in now.shops && x !in start && x != id ensures Complete(f, b, x, now, products', categories') {
      CompleteStays(f, b, x, was, now, products, products', categories, categories');
    }
  }

  lemma AllThereMore(f: Folding, was: map<Id, Shop>, now: map<Id, Shop>, rows: seq<(Id, Shop)>, i: nat)
    requires i < |rows| && AllThere(f, was, rows[..i]) && Kept(was, now) && AlreadyThere(f, now, rows[i].0, rows[i].1)
    ensures AllThere(f, now, rows[..i + 1])
  {
    assert rows[..i + 1] == rows[..i] + [rows[i]];
    forall row | row in rows[..i] ensures AlreadyThere(f, now, row.0, row.1) {
      StillThere(f, was, now, row.0, row.1);
    }
    hide AlreadyThere;
  }

  lemma NothingNew(f: Folding, b: Bundle, db: Db, products: map<Id, (Id, bool)>, categories: map<Id, Id>)
    ensures NewComplete(f, b, db.shops, db, products, categories)
  {
  }

  lemma NoneLeft(f: Folding, shops: map<Id, Shop>, rows: seq<(Id, Shop)>)
    ensures AllThere(f, shops, rows[..0])
  {
  }

  lemma ThereAt(f: Folding, shops: map<Id, Shop>, rows: seq<(Id, Shop)>, i: nat)
    requires i < |rows|
    ensures AllThere(f, shops, rows) ==> AlreadyThere(f, shops, rows[i].0, rows[i].1)
  {
    assert rows[i] in rows;
  }

  lemma ThereNow(f: Folding, shops: map<Id, Shop>, id: Id, s: Shop)
    requires id in shops
    ensures AlreadyThere(f, shops, id, s)
  {
  }

  /** No two live shops of one name in one PIN code, when one of them is new. */
  ghost predicate NoNewTwins(f: Folding, was: map<Id, Shop>, now: map<Id, Shop>) {
    forall x, y | x in now && y in now :: x !in was && x != y ==> !(now[x].live && Twins(f, now[y], now[x]))
  }

  /** Before anything is copied. */
  lemma Beginning(f: Folding, b: Bundle, db: Db, first: int)
    requires db.owners <= db.users.Keys
    ensures UsersState(f, b, db, db, map[], Tally(0, 0, 0, 0, 0, 0, 0, 0))
    ensures CategoriesImported(f, b.categories, db.categories, db.categories, map[])
    ensures SubcategoriesImported(b.subcategories, db.subcategories, db.subcategories, map[], map[])
    ensures BrandsImported(b.brands, db.brands, db.brands, map[])
    ensures ProductsImported(f, b.products, db.products, db.products, map[], map[], map[], map[])
    ensures ShopsImported(f, b.shops, db.shops, db.shops, map[], first, first)
    ensures MappingsImported(f, b.mappings, b.shopCategories, db.mappings, db.mappings, db.shopCategories)
    ensures OfShops(db.mappings, db.mappings, db.shops) && OfShops(db.chosen, db.chosen, db.shops)
    ensures ListingsImported(b.listings, db.listings, db.listings, map[], db.shops)
    ensures ChosenImported(b.chosen, db.chosen, db.chosen, map[])
  {
  }

  /* ---- what a match does not look at ---- */

  ghost predicate UniqueSlugs(categories: map<Id, Category>) {
    forall x, y | x in categories && y in categories :: categories[x].slug == categories[y].slug ==> x == y
  }

  /** A removed category holds the exported one's id, or, the id being free, its slug. */
  ghost predicate HeldByRemoved(categories: map<Id, Category>, id: Id, c: Category) {
    if id in categories then !categories[id].live else exists x ::
        x in categories && categories[x].slug == c.slug && !categories[x].live
  }

  /**
   Products and shops are filed under a live category exactly unless a removed one holds the exported category's id or
   slug: those two matches do not ask whether the row is live.
   */
  lemma UsedCategoryIsLive(f: Folding, categories: map<Id, Category>, id: Id, c: Category, r: Id)
    requires UniqueSlugs(categories) && Used(CategoryMatches(f, categories, id, c), id, r)
    ensures var now := if First(CategoryMatches(f, categories, id, c)) != {} then categories
            else categories[id := c.(isSystem := false, live := true)];
            r in now && (now[r].live <==> !HeldByRemoved(categories, id, c))
  {
    var bySlug := set x | x in categories && categories[x].slug == c.slug;
    var byName := set x | x in categories && categories[x].live && f.lower(categories[x].name) == f.lower(c.name);
    FirstOfThree(Named(id, categories.Keys), bySlug, byName);
    assert CategoryMatches(f, categories, id, c) == [Named(id, categories.Keys), bySlug, byName];
    if id !in categories && bySlug == {} {
      assert forall x :: x in categories && categories[x].slug == c.slug ==> x in bySlug;
    }
    hide First;
  }

  lemma FirstOfThree(a: set<Id>, b: set<Id>, c: set<Id>)
    ensures First([a, b, c]) == if a != {} then a else if b != {} then b else c
  {
    assert [a, b, c][1..] == [b, c] && [b, c][1..] == [c] && [c][1..] == [];
    assert First([c]) == c;
    assert First([b, c]) == if b != {} then b else c;
  }

  /* ---- every foreign key still points at a row ---- */

  lemma SubcategoriesClosed(
    f: Folding, b: Bundle, start: Db, db: Db, memo: map<Id, Id>, categories: map<Id, Id>)
    requires Closed(start)
    requires CategoriesImported(f, b.categories, start.categories, db.categories, categories)
    requires SubcategoriesImported(b.subcategories, start.subcategories, db.subcategories, memo, categories)
    ensures SubcategoriesRefer(db.subcategories, db.categories.Keys)
  {
    hide ProductsRefer, ShopsRefer, PairsRefer, ListingsRefer;
    forall s | s in db.subcategories ensures db.subcategories[s].category in db.categories {
      if s in start.subcategories {
        assert start.subcategories[s].category in start.categories;
      } else {
        assert db.subcategories[s].category == categories[b.subcategories[s].category];
      }
    }
  }

  lemma ProductsClosed(
    f: Folding, b: Bundle, start: Db, db: Db, memo: map<Id, (Id, bool)>,
    categories: map<Id, Id>, subcategories: map<Id, Id>, brands: map<Id, Id>)
    requires Closed(start)
    requires CategoriesImported(f, b.categories, start.categories, db.categories, categories)
    requires SubcategoriesImported(b.subcategories, start.subcategories, db.subcategories, subcategories, categories)
    requires BrandsImported(b.brands, start.brands, db.brands, brands)
    requires ProductsImported(f, b.products, start.products, db.products, memo, categories, subcategories, brands)
    ensures ProductsRefer(db.products, db.categories.Keys, db.subcategories.Keys, db.brands.Keys)
  {
    hide SubcategoriesRefer, ShopsRefer, PairsRefer, ListingsRefer, ProductsMeant;
    forall p | p in db.products ensures ProductRefers(db.products[p], db.categories.Keys, db.subcategories.Keys,
        db.brands.Keys) {
      if p in start.products {
        assert ProductRefers(start.products[p], start.categories.Keys, start.subcategories.Keys, start.brands.Keys);
      } else {
        assert AddedProduct(b.products[p], db.products[p], categories, subcategories, brands);
      }
    }
  }

  lemma ShopsClosed(f: Folding, b: Bundle, start: Db, db: Db, users: map<Id, Id>, first: int, upcoming: int)
    requires Closed(start)
    requires UsersImported(f, b.users, start.users, db.users, db.owners, users)
    requires ShopsImported(f, b.shops, start.shops, db.shops, users, first, upcoming)
    ensures ShopsRefer(db.shops, db.users.Keys)
  {
    hide SubcategoriesRefer, ProductsRefer, PairsRefer, ListingsRefer, Twins, SameUser;
    forall x | x in db.shops ensures db.shops[x].owner in db.users {
      if x !in start.shops {
        assert ShopImported(b.shops, x, db.shops[x], users);
      }
    }
  }

  lemma ListingsClosed(
    f: Folding, b: Bundle, start: Db, db: Db, products: map<Id, (Id, bool)>, categories: map<Id, Id>)
    requires Closed(start) && Kept(start.shops, db.shops) && Kept(start.products, db.products)
    requires ProductsMeant(f, b.products, start.products, db.products, products, categories)
    requires ListingsImported(b.listings, start.listings, db.listings, products, db.shops)
    ensures ListingsRefer(db.listings, db.shops.Keys, db.products.Keys)
  {
    hide SubcategoriesRefer, ProductsRefer, ShopsRefer, PairsRefer, SameProduct;
    forall l | l in db.listings ensures db.listings[l].shop in db.shops && db.listings[l].product in db.products {
      if l in start.listings {
        assert start.listings[l].shop in start.shops && start.listings[l].product in start.products;
      } else {
        assert ListingImported(b.listings, l, db.listings[l], products);
      }
    }
  }

  lemma LinksClosed(f: Folding, b: Bundle, start: Db, db: Db, categories: map<Id, Id>)
    requires Closed(start) && Kept(start.shops, db.shops) && Kept(start.shopCategories, db.shopCategories)
    requires CategoriesImported(f, b.categories, start.categories, db.categories, categories)
    requires OfShops(start.mappings, db.mappings, db.shops) && OfShops(start.chosen, db.chosen, db.shops)
    requires MappingsImported(f, b.mappings, b.shopCategories, start.mappings, db.mappings, db.shopCategories)
    requires ChosenImported(b.chosen, start.chosen, db.chosen, categories)
    ensures PairsRefer(db.mappings, db.shops.Keys, db.shopCategories.Keys)
    ensures PairsRefer(db.chosen, db.shops.Keys, db.categories.Keys)
  {
    hide SubcategoriesRefer, ProductsRefer, ShopsRefer, ListingsRefer, SameShopCategory;
  }

  /** The report's totals are the numbers of rows added. */
  ghost predicate TotalsAreRows(tally: Tally, was: Db, now: Db) {
    && tally.copied == |now.shops| - |was.shops| && tally.newOwners == |now.users| - |was.users|
    && tally.newProducts == |now.products| - |was.products| && tally.listings == |now.listings| - |was.listings|
    && CategoriesCounted(tally.categories, was, |now.categories|, |now.shopCategories|)
  }

  lemma NothingChanged(f: Folding, db: Db)
    ensures Grown(db, db) && NoNewTwins(f, db.shops, db.shops)
  {
  }

  /* ---- two rows that become one ---- */

  /** The rows the shop's first listings become. */
  function Translations(rows: seq<(Id, Listing)>, shop: Id, products: map<Id, (Id, bool)>): seq<(Id, Listing)> {
    if rows == [] then []
    else
      var n := |rows| - 1;
      var l := rows[n].1;
      Translations(rows[..n], shop, products)
      + (if l.shop == shop && l.product in products then [(rows[n].0, l.(product := products[l.product].0))] else [])
  }

  /** All rows can be inserted: their ids are new and differ, and so are and do their pairs of shop and product. */
  ghost predicate Fits(out: seq<(Id, Listing)>, listings: map<Id, Listing>) {
    && (forall e :: e in out ==> e.0 !in listings && !Taken(listings, e.1))
    && (forall i, j | 0 <= i < j < |out| :: out[i].0 != out[j].0 && !SameOffer(out[i].1, out[j].1))
  }

  predicate SameOffer(a: Listing, b: Listing) {
    a.shop == b.shop && a.product == b.product
  }

  predicate Taken(listings: map<Id, Listing>, row: Listing) {
    exists l :: l in listings && SameOffer(listings[l], row)
  }

  /** Inserted one after the other, a row is refused exactly when the rows up to it do not fit. */
  ghost predicate Filled(out: seq<(Id, Listing)>, was: map<Id, Listing>, now: map<Id, Listing>) {
    && Kept(was, now) && (forall l :: l in now && l !in was ==> (l, now[l]) in out)
    && (forall e :: e in out ==> e.0 in now && now[e.0] == e.1)
  }

  ghost predicate Uses(out: seq<(Id, Listing)>, id: Id) {
    exists k :: 0 <= k < |out| && out[k].0 == id
  }

  ghost predicate Offers(out: seq<(Id, Listing)>, row: Listing) {
    exists k :: 0 <= k < |out| && SameOffer(out[k].1, row)
  }

  lemma FilledUses(out: seq<(Id, Listing)>, was: map<Id, Listing>, now: map<Id, Listing>, id: Id)
    requires Filled(out, was, now)
    ensures id in now <==> id in was || Uses(out, id)
  {
    if id in now && id !in was {
      var k :| 0 <= k < |out| && out[k] == (id, now[id]);
    }
    if Uses(out, id) {
      var k :| 0 <= k < |out| && out[k].0 == id;
      assert out[k] in out;
    }
  }

  lemma FilledOffers(out: seq<(Id, Listing)>, was: map<Id, Listing>, now: map<Id, Listing>, row: Listing)
    requires Filled(out, was, now)
    ensures Taken(now, row) <==> Taken(was, row) || Offers(out, row)
  {
    hide SameOffer;
    if Taken(now, row) {
      var l :| l in now && SameOffer(now[l], row);
      if l in was {
        assert SameOffer(was[l], row);
      } else {
        var k :| 0 <= k < |out| && out[k] == (l, now[l]);
        assert SameOffer(out[k].1, row);
      }
    }
    if Taken(was, row) {
      var l :| l in was && SameOffer(was[l], row);
      assert SameOffer(now[l], row);
    }
    if Offers(out, row) {
      var k :| 0 <= k < |out| && SameOffer(out[k].1, row);
      assert out[k] in out;
      assert SameOffer(now[out[k].0], row);
    }
  }

  lemma FitsPlus(out: seq<(Id, Listing)>, e: (Id, Listing), listings: map<Id, Listing>)
    requires Fits(out, listings)
    ensures Fits(out + [e], listings) <==>
              e.0 !in listings && !Taken(listings, e.1) && !Uses(out, e.0) && !Offers(out, e.1)
  {
    hide Taken, SameOffer;
    var all := out + [e];
    assert forall x :: x in all <==> x in out || x == e;
    assert all[|out|] == e && forall k :: 0 <= k < |out| ==> all[k] == out[k];
    if Uses(out, e.0) {
      var k :| 0 <= k < |out| && out[k].0 == e.0;
      assert all[k].0 == all[|out|].0;
    }
    if Offers(out, e.1) {
      var k :| 0 <= k < |out| && SameOffer(out[k].1, e.1);
      assert SameOffer(all[k].1, all[|out|].1);
    }
  }

  lemma FilledMore(out: seq<(Id, Listing)>, e: (Id, Listing), was: map<Id, Listing>, now: map<Id, Listing>)
    requires Filled(out, was, now) && e.0 !in now
    ensures Filled(out + [e], was, now[e.0 := e.1])
  {
    assert forall x :: x in out + [e] <==> x in out || x == e;
  }

  lemma FitsMore(out: seq<(Id, Listing)>, i: nat, was: map<Id, Listing>, now: map<Id, Listing>)
    requires i < |out| && Fits(out[..i], was) && Filled(out[..i], was, now)
    ensures Fits(out[..i + 1], was) <==> out[i].0 !in now && !Taken(now, out[i].1)
    ensures out[i].0 !in now ==> Filled(out[..i + 1], was, now[out[i].0 := out[i].1])
  {
    var front, e := out[..i], out[i];
    assert out[..i + 1] == front + [e];
    FitsPlus(front, e, was);
    FilledUses(front, was, now, e.0);
    FilledOffers(front, was, now, e.1);
    if e.0 !in now {
      FilledMore(front, e, was, now);
    }
    hide Fits, Filled, Taken, Uses, Offers;
  }

  lemma FitsAfter(out: seq<(Id, Listing)>, n: nat, listings: map<Id, Listing>)
    requires n <= |out| && Fits(out, listings)
    ensures Fits(out[..n], listings)
  {
    assert forall x :: x in out[..n] ==> x in out;
  }

  lemma {:induction false} TranslationsStay(
    rows: seq<(Id, Listing)>, shop: Id, products: map<Id, (Id, bool)>, products': map<Id, (Id, bool)>)
    requires Kept(products, products')
    requires forall row :: row in rows && row.1.shop == shop ==> row.1.product in products
    ensures Translations(rows, shop, products') == Translations(rows, shop, products)
  {
    if rows != [] {
      var n := |rows| - 1;
      assert rows == rows[..n] + [rows[n]];
      TranslationsStay(rows[..n], shop, products, products');
    }
  }

  lemma TranslationAt(rows: seq<(Id, Listing)>, i: nat, shop: Id, products: map<Id, (Id, bool)>)
    requires i < |rows|
    ensures Translations(rows[..i + 1], shop, products)
         == Translations(rows[..i], shop, products)
            + (if rows[i].1.shop == shop && rows[i].1.product in products
               then [(rows[i].0, rows[i].1.(product := products[rows[i].1.product].0))] else [])
  {
    assert rows[..i + 1][..i] == rows[..i];
  }

  /* ---- two listings on products that become one ---- */

  /** Two rows the lookup by name takes for one another. */
  predicate SameKey(f: Folding, a: Product, p: Product) {
    p.live && SameName(f, a, p, p.category)
  }

  /** When two live products share name, size and category and one is new, the target had such a product before. */
  ghost predicate NamesAlone(f: Folding, was: map<Id, Product>, now: map<Id, Product>) {
    forall x, y | x in now && y in now :: x !in was && x != y && SameKey(f, now[x], now[y]) ==>
      exists z :: z in was && SameKey(f, was[z], now[y])
  }

  lemma NamesOne(f: Folding, now: map<Id, Product>, id: Id, p: Product, category: Id, x: Id)
    requires First(ProductMatches(f, now, id, p, category)) == {} && x in now && SameName(f, now[x], p, category)
    ensures exists y :: y in now && y != x && SameName(f, now[y], p, category)
  {
    var names := set y | y in now && SameName(f, now[y], p, category);
    var bars := set y | y in now && Present(p.gtin) && now[y].live && now[y].gtin == p.gtin;
    FirstOfThree(Named(id, now.Keys), bars, Single(names));
    assert ProductMatches(f, now, id, p, category) == [Named(id, now.Keys), bars, Single(names)];
    hide SameName, First;
    assert |names| != 1;
    assert x in names && |names - {x}| == |names| - 1;
    if names - {x} != {} {
      var y :| y in names - {x};
    }
  }

  lemma NameAdded(f: Folding, was: map<Id, Product>, now: map<Id, Product>, id: Id, p: Product, row: Product)
    requires NamesAlone(f, was, now) && Kept(was, now) && id !in now
    requires First(ProductMatches(f, now, id, p, row.category)) == {}
    requires row.live && row == p.(category := row.category, live := true, code := row.code, slug := row.slug,
             sub := row.sub, brand := row.brand)
    ensures NamesAlone(f, was, now[id := row])
  {
    forall x | x in now && (SameKey(f, now[x], row) || SameKey(f, row, now[x]))
      ensures exists z :: z in was && SameKey(f, was[z], row) && SameKey(f, was[z], now[x])
    {
      SameNames(f, now[x], p, row);
      NamesOne(f, now, id, p, row.category, x);
      var y :| y in now && y != x && SameName(f, now[y], p, row.category);
      SameNames(f, now[y], p, row);
      OneOfWas(f, was, now, x, y);
    }
    hide SameKey, First, ProductMatches;
    assert forall x :: x in now[id := row] ==> now[id := row][x] == if x == id then row else now[x];
  }

  lemma SameNames(f: Folding, a: Product, p: Product, row: Product)
    requires row.live && row == p.(category := row.category, live := true, code := row.code, slug := row.slug,
             sub := row.sub, brand := row.brand)
    ensures SameName(f, a, p, row.category) <==> SameKey(f, a, row)
    ensures SameKey(f, a, row) || SameKey(f, row, a) ==> SameName(f, a, p, row.category)
  {
  }

  lemma OneOfWas(f: Folding, was: map<Id, Product>, now: map<Id, Product>, x: Id, y: Id)
    requires NamesAlone(f, was, now) && Kept(was, now)
    requires x in now && y in now && x != y && SameKey(f, now[x], now[y]) && SameKey(f, now[y], now[x])
    ensures exists z :: z in was && SameKey(f, was[z], now[x]) && SameKey(f, was[z], now[y])
  {
    if x in was {
      assert SameKey(f, was[x], now[x]);
    } else {
      var z :| z in was && SameKey(f, was[z], now[y]);
      assert SameKey(f, was[z], now[x]);
    }
  }

  /** Two exported products that come to one row: alike in all the lookup by name looks at, and without barcodes. */
  predicate Alike(f: Folding, p: Product, q: Product) {
    && f.lower(p.name) == f.lower(q.name) && Variant(f, p) == Variant(f, q)
    && p.unit == q.unit && p.size == q.size && p.category == q.category && !Present(p.gtin) && !Present(q.gtin)
  }

  /** A live product of that name and size is on the target, in whatever category. */
  predicate NameThere(f: Folding, products: map<Id, Product>, p: Product) {
    exists x :: x in products && SameName(f, products[x], p, products[x].category)
  }

  /** The shop lists two such products, and the target has neither their ids nor their name. */
  predicate ListsTwins(f: Folding, b: Bundle, products: map<Id, Product>, shop: Id) {
    exists i, j | 0 <= i < |b.listings| && 0 <= j < |b.listings| ::
      b.listings[i].0 != b.listings[j].0 && TwinRows(f, b, products, shop, b.listings[i].1, b.listings[j].1)
  }

  predicate TwinRows(f: Folding, b: Bundle, products: map<Id, Product>, shop: Id, l: Listing, m: Listing) {
    && l.shop == shop && m.shop == shop && l.product in b.products && m.product in b.products
    && l.product !in products && m.product !in products
    && Alike(f, b.products[l.product], b.products[m.product]) && !NameThere(f, products, b.products[l.product])
  }

  /** What a product without a barcode is used for has its name, its size and its translated category. */
  lemma UsedHasName(
    f: Folding, from: map<Id, Product>, was: map<Id, Product>, now: map<Id, Product>, memo: map<Id, (Id, bool)>,
    categories: map<Id, Id>, subcategories: map<Id, Id>, brands: map<Id, Id>, id: Id)
    requires ProductsImported(f, from, was, now, memo, categories, subcategories, brands)
    requires id in memo && id !in was && id in from && !Present(from[id].gtin)
    ensures memo[id].0 in now && from[id].category in categories
    ensures SameName(f, now[memo[id].0], from[id], categories[from[id].category])
  {
    assert SameProduct(f, id, from[id], memo[id].0, now[memo[id].0], categories);
    if memo[id].0 == id {
      assert AddedProduct(from[id], now[id], categories, subcategories, brands);
    }
    hide ProductsImported, ProductsMeant;
  }

  lemma WasNamed(f: Folding, was: map<Id, Product>, now: map<Id, Product>, x: Id, p: Product, category: Id)
    requires Kept(was, now) && x in now && SameName(f, now[x], p, category)
    ensures x in was ==> NameThere(f, was, p)
  {
    if x in was {
      assert SameName(f, was[x], p, was[x].category);
    }
  }

  lemma AloneNamed(f: Folding, was: map<Id, Product>, now: map<Id, Product>, x: Id, y: Id, p: Product, category: Id)
    requires NamesAlone(f, was, now) && x in now && y in now && x !in was && x != y
    requires SameName(f, now[x], p, category) && SameName(f, now[y], p, category)
    ensures NameThere(f, was, p)
  {
    assert SameKey(f, now[x], now[y]);
    var z :| z in was && SameKey(f, was[z], now[y]);
    assert SameName(f, was[z], p, was[z].category);
  }

  /** Two such exported products are used for one row of the target, whatever else was copied before them. */
  lemma TwinsMeet(
    f: Folding, from: map<Id, Product>, was: map<Id, Product>, now: map<Id, Product>, memo: map<Id, (Id, bool)>,
    categories: map<Id, Id>, subcategories: map<Id, Id>, brands: map<Id, Id>, p: Id, q: Id)
    requires ProductsImported(f, from, was, now, memo, categories, subcategories, brands) && NamesAlone(f, was, now)
    requires p in memo && q in memo && p in from && q in from && p !in was && q !in was
    requires Alike(f, from[p], from[q]) && !NameThere(f, was, from[p])
    ensures memo[p].0 == memo[q].0
  {
    UsedHasName(f, from, was, now, memo, categories, subcategories, brands, p);
    UsedHasName(f, from, was, now, memo, categories, subcategories, brands, q);
    var category := categories[from[p].category];
    assert SameName(f, now[memo[q].0], from[p], category);
    WasNamed(f, was, now, memo[p].0, from[p], category);
    hide ProductsImported, NamesAlone, NameThere, SameName, Alike;
    if memo[p].0 != memo[q].0 {
      AloneNamed(f, was, now, memo[p].0, memo[q].0, from[p], category);
    }
  }

  lemma TwinListingsMeet(
    f: Folding, b: Bundle, start: Db, db: Db, memo: map<Id, (Id, bool)>,
    categories: map<Id, Id>, subcategories: map<Id, Id>, brands: map<Id, Id>, shop: Id, l: (Id, Listing),
    m: (Id, Listing))
    requires ProductsImported(f, b.products, start.products, db.products, memo, categories, subcategories, brands)
    requires NamesAlone(f, start.products, db.products)
    requires ListingsDone(b.listings, shop, db.listings, memo) && Kept(start.listings, db.listings)
    requires ListingsRefer(start.listings, start.shops.Keys, start.products.Keys) && shop !in start.shops
    requires l in b.listings && m in b.listings && TwinRows(f, b, start.products, shop, l.1, m.1)
    ensures l.0 in db.listings && m.0 in db.listings && l.0 !in start.listings
    ensures SameOffer(db.listings[l.0], db.listings[m.0])
  {
    TwinsMeet(f, b.products, start.products, db.products, memo, categories, subcategories, brands, l.1.product,
        m.1.product);
    hide ProductsImported, NamesAlone, Alike, NameThere;
  }

  /** A shop that was copied whole lists no two such products: their listings would be one. */
  lemma CopiedListsNoTwins(
    f: Folding, b: Bundle, start: Db, db: Db, memo: map<Id, (Id, bool)>,
    categories: map<Id, Id>, subcategories: map<Id, Id>, brands: map<Id, Id>, shop: Id)
    requires ProductsImported(f, b.products, start.products, db.products, memo, categories, subcategories, brands)
    requires NamesAlone(f, start.products, db.products)
    requires ListingsImported(b.listings, start.listings, db.listings, memo, db.shops)
    requires ListingsDone(b.listings, shop, db.listings, memo)
    requires ListingsRefer(start.listings, start.shops.Keys, start.products.Keys) && shop !in start.shops
    ensures !ListsTwins(f, b, start.products, shop)
  {
    assert Kept(start.listings, db.listings);
    hide ProductsImported, NamesAlone, TwinRows, ListingsDone, ListingsRefer, ListingImported;
    forall i, j | 0 <= i < |b.listings| && 0 <= j < |b.listings| && b.listings[i].0 != b.listings[j].0
      ensures !TwinRows(f, b, start.products, shop, b.listings[i].1, b.listings[j].1)
    {
      if TwinRows(f, b, start.products, shop, b.listings[i].1, b.listings[j].1) {
        TwinListingsMeet(f, b, start, db, memo, categories, subcategories, brands, shop, b.listings[i], b.listings[j]);
      }
    }
  }

  /** No other exported shop has this one's id, its name in its PIN code, or its Shop Act registration. */
  predicate Lone(f: Folding, rows: seq<(Id, Shop)>, i: nat)
    requires i < |rows|
  {
    forall j :: 0 <= j < |rows| && j != i ==>
      && rows[j].0 != rows[i].0
      && !(f.shopName(rows[j].1.name) == f.shopName(rows[i].1.name) && rows[j].1.pincode == rows[i].1.pincode)
      && !(Present(rows[i].1.actKey) && rows[j].1.actKey == rows[i].1.actKey)
  }

  predicate Near(f: Folding, a: Shop, s: Shop) {
    Twins(f, a, s) || (Present(s.actKey) && a.live && a.actKey == s.actKey)
  }

  lemma FoundNear(f: Folding, shops: map<Id, Shop>, id: Id, s: Shop) returns (x: Id)
    requires AlreadyThere(f, shops, id, s) && id !in shops
    ensures x in shops && Near(f, shops[x], s)
  {
    x :| x in shops && Near(f, shops[x], s);
  }

  lemma WasNear(f: Folding, was: map<Id, Shop>, now: map<Id, Shop>, x: Id, id: Id, s: Shop)
    requires Kept(was, now) && x in was && x in now && Near(f, now[x], s)
    ensures AlreadyThere(f, was, id, s)
  {
    assert now[x] == was[x];
  }

  lemma NewIsExported(rows: seq<(Id, Shop)>, x: Id, now: Shop, users: map<Id, Id>) returns (j: nat)
    requires ShopImported(rows, x, now, users)
    ensures j < |rows| && rows[j].0 == x
    ensures now.name == rows[j].1.name && now.pincode == rows[j].1.pincode && now.actKey == rows[j].1.actKey
  {
    var row :| row in rows && row.0 == x && row.1.owner in users
               && now == row.1.(owner := users[row.1.owner], registration := now.registration, slug := now.slug);
    j :| 0 <= j < |rows| && rows[j] == row;
  }

  /** A shop like no other exported one and not there before has its own row when every exported shop is there. */
  lemma LoneIsCopied(
    f: Folding, rows: seq<(Id, Shop)>, was: map<Id, Shop>, now: map<Id, Shop>, users: map<Id, Id>, first: int,
    upcoming: int, i: nat)
    requires ShopsImported(f, rows, was, now, users, first, upcoming) && AllThere(f, now, rows)
    requires i < |rows| && Lone(f, rows, i) && !AlreadyThere(f, was, rows[i].0, rows[i].1)
    ensures rows[i].0 in now && rows[i].0 !in was
  {
    assert rows[i] in rows && AlreadyThere(f, now, rows[i].0, rows[i].1);
    assert rows[i].0 !in was && Kept(was, now);
    hide AlreadyThere, AllThere;
    if rows[i].0 !in now {
      var x := FoundNear(f, now, rows[i].0, rows[i].1);
      if x in was {
        WasNear(f, was, now, x, rows[i].0, rows[i].1);
      } else {
        var j := NewIsExported(rows, x, now[x], users);
      }
    }
  }

  lemma AddedNames(
    f: Folding, from: map<Id, Product>, was: map<Id, Product>, now: map<Id, Product>, memo: map<Id, (Id, bool)>,
    categories: map<Id, Id>, subcategories: map<Id, Id>, brands: map<Id, Id>, id: Id, row: Product)
    requires ProductsImported(f, from, was, now, memo, categories, subcategories, brands) && NamesAlone(f, was, now)
    requires id !in now && id in from && AddedProduct(from[id], row, categories, subcategories, brands)
    requires First(ProductMatches(f, now, id, from[id], row.category)) == {}
    ensures NamesAlone(f, was, now[id := row])
  {
    hide NamesAlone, ProductsMeant, First, ProductMatches;
    NameAdded(f, was, now, id, from[id], row);
  }

  /** A shop that has to be copied lists two products that become one. */
  ghost predicate TwinsToCopy(f: Folding, b: Bundle, db: Db) {
    exists i | 0 <= i < |b.shops| ::
      && Lone(f, b.shops, i) && !AlreadyThere(f, db.shops, b.shops[i].0, b.shops[i].1)
      && ListsTwins(f, b, db.products, b.shops[i].0)
  }

  lemma OwnerInside(b: Bundle, id: Id, s: Shop)
    requires (id, s) in b.shops
    ensures Whole(b) ==> s.owner in b.users
  {
    assert (id, s).1.owner == s.owner;
  }

  lemma ListingInside(b: Bundle, i: nat)
    requires i < |b.listings|
    ensures Whole(b) ==> b.listings[i].1.product in b.products
  {
    assert b.listings[i] in b.listings;
  }

  lemma ChosenInside(b: Bundle, i: nat)
    requires i < |b.chosen|
    ensures Whole(b) ==> b.chosen[i].1 in b.categories
  {
    assert b.chosen[i] in b.chosen;
  }

  lemma ChosenCopiedMore(
    rows: seq<(Id, Id)>, i: nat, shop: Id, was: Db, now: Db, next: Db, tallyWas: Tally, tallyNow: Tally,
    tallyNext: Tally, memoWas: map<Id, Id>, memo: map<Id, Id>, memoNext: map<Id, Id>, start: set<(Id, Id)>)
    requires i < |rows| && shop in now.shops
    requires ChosenCopied(rows[..i], shop, was, now, tallyWas, tallyNow, memoWas, memo)
    requires ChosenImported(rows, start, now.chosen, memo) && OfShops(start, now.chosen, now.shops)
    requires next == now.(categories := next.categories, chosen := next.chosen)
    requires tallyNext == tallyNow.(categories := tallyNext.categories) && Kept(memo, memoNext)
    requires rows[i].0 == shop ==>
               rows[i].1 in memoNext && next.chosen == Linked(now.chosen, shop, memoNext[rows[i].1])
    requires rows[i].0 != shop ==> next.chosen == now.chosen
    ensures ChosenCopied(rows[..i + 1], shop, was, next, tallyWas, tallyNext, memoWas, memoNext)
    ensures ChosenImported(rows, start, next.chosen, memoNext) && OfShops(start, next.chosen, next.shops)
  {
    ChosenMore(rows, i, shop, start, now.chosen, next.chosen, memo, memoNext, now.shops);
    KeptTwice(memoWas, memo, memoNext);
    hide Kept, ChosenDone, ChosenImported, OfShops, Linked;
  }

  /** An owner's row that was added has the exported e-mail, so one with another e-mail was there before. */
  lemma EmailsDiffer(f: Folding, b: Bundle, start: Db, db: Db, memo: map<Id, Id>, tally: Tally, id: Id, s: Shop)
    requires UsersState(f, b, start, db, memo, tally) && (id, s) in b.shops && s.owner in b.users && s.owner in db.users
    requires f.lower(db.users[s.owner].email) != f.lower(b.users[s.owner].email)
    ensures !EmailsAgree(f, b, start.users)
  {
    assert s.owner in start.users;
    assert (id, s).1.owner == s.owner;
  }

  lemma NowMapped(f: Folding, b: Bundle, shop: Id, c: Id, target: Id, before: set<(Id, Id)>, now: Db)
    requires now.mappings == Linked(before, shop, target)
             && StandsFor(f, b.shopCategories, now.shopCategories, c, target)
    ensures Mapped(f, b, shop, c, now)
  {
    assert (shop, target) in now.mappings;
  }

  lemma CollectedTranslated(
    rows: seq<(Id, Listing)>, n: nat, shop: Id, products: map<Id, (Id, bool)>, products': map<Id, (Id, bool)>,
    shops: map<Id, Shop>,
    out: seq<(Id, Listing)>)
    requires n <= |rows| && Collected(rows, n, shop, products, shops, out) && Kept(products, products')
    ensures Translations(rows[..n], shop, products') == Translations(rows[..n], shop, products)
  {
    TranslationsStay(rows[..n], shop, products, products');
  }

  ghost predicate AllTranslated(rows: seq<(Id, Listing)>, shop: Id, products: map<Id, (Id, bool)>) {
    forall row :: row in rows && row.1.shop == shop ==> row.1.product in products
  }

  lemma CollectedAll(rows: seq<(Id, Listing)>, shop: Id, products: map<Id, (Id, bool)>, shops: map<Id, Shop>,
      out: seq<(Id, Listing)>)
    requires Collected(rows, |rows|, shop, products, shops, out)
    ensures AllTranslated(rows, shop, products)
    ensures forall e :: e in out ==> ListingImported(rows, e.0, e.1, products) && e.1.shop in shops
  {
    assert rows[..|rows|] == rows;
  }

  lemma NothingFilled(out: seq<(Id, Listing)>, listings: map<Id, Listing>)
    ensures Filled(out[..0], listings, listings) && Fits(out[..0], listings)
  {
  }

  lemma FilledIsInserted(out: seq<(Id, Listing)>, was: map<Id, Listing>, now: map<Id, Listing>)
    requires Filled(out, was, now)
    ensures Inserted(out, now) && Kept(was, now)
  {
  }

  lemma NotTaken(listings: map<Id, Listing>, row: Listing)
    requires !Taken(listings, row)
    ensures !exists l :: l in listings && listings[l].shop == row.shop && listings[l].product == row.product
  {
    assert forall l :: l in listings ==> !SameOffer(listings[l], row);
  }

  lemma FitsAfterAll(out: seq<(Id, Listing)>, n: nat, listings: map<Id, Listing>)
    requires n <= |out| && !Fits(out[..n], listings)
    ensures !Fits(out, listings)
  {
    if Fits(out, listings) {
      FitsAfter(out, n, listings);
    }
  }
}
