/**
 Which row of the target an exported one is matched with (scripts/copy-shops/copy-shops.ts), said of the rows: the
 lookups in their order, and when none of them finds anything.
 */
module ShopLookups {
  import opened Text
  import opened CopyShops

  /* ---- users ---- */

  /** The e-mail counts unless it is a placeholder, the phone when there is one; only live users are looked at. */
  predicate HasEmail(f: Folding, x: User, u: User) {
    x.live && !u.placeholder && f.lower(x.email) == f.lower(u.email)
  }

  predicate HasPhone(x: User, u: User) {
    x.live && u.phone.Some? && u.phone.value != "" && x.phone == u.phone
  }

  /** The target has no user for this owner, so that the account is added. */
  predicate NoUser(f: Folding, users: map<Id, User>, id: Id, u: User) {
    id !in users && forall x :: x in users ==> !HasEmail(f, users[x], u) && !HasPhone(users[x], u)
  }

  /** The user used: the owner's own id, else one with the e-mail, else one with the phone, else the account added. */
  predicate UserUsed(f: Folding, users: map<Id, User>, id: Id, u: User, r: Id) {
    if id in users || NoUser(f, users, id, u) then r == id
    else if exists x :: x in users && HasEmail(f, users[x], u) then r in users && HasEmail(f, users[r], u)
    else r in users && HasPhone(users[r], u)
  }

  lemma FirstSet(a: set<Id>, b: set<Id>)
    ensures First([a, b]) == if a != {} then a else b
  {
    assert [a, b][1..] == [b] && [b][1..] == [];
    assert First([b]) == b;
  }

  lemma UserFoundBy(f: Folding, users: map<Id, User>, id: Id, u: User, r: Id)
    requires Used(UserMatches(f, users, id, u), id, r)
    ensures UserUsed(f, users, id, u, r)
    ensures First(UserMatches(f, users, id, u)) == {} <==> NoUser(f, users, id, u)
  {
    var byEmail := set x | x in users && !u.placeholder && users[x].live && f.lower(users[x].email) == f.lower(u.email);
    var byPhone := set x | x in users && Present(u.phone) && users[x].live && users[x].phone == u.phone;
    assert UserMatches(f, users, id, u) == [Named(id, users.Keys), byEmail, byPhone];
    FirstOfThree(Named(id, users.Keys), byEmail, byPhone);
    hide First, UserMatches;
    assert forall x :: x in users ==> (x in byEmail <==> HasEmail(f, users[x], u));
    assert forall x :: x in users ==> (x in byPhone <==> HasPhone(users[x], u));
    hide HasEmail, HasPhone;
    assert byEmail == {} <==> forall x :: x in users ==> x !in byEmail;
    assert byPhone == {} <==> forall x :: x in users ==> x !in byPhone;
  }

  /* ---- categories, subcategories and brands ---- */

  predicate HasName(f: Folding, x: Category, c: Category) {
    x.live && f.lower(x.name) == f.lower(c.name)
  }

  predicate NoCategory(f: Folding, categories: map<Id, Category>, id: Id, c: Category) {
    id !in categories && forall x :: x in categories ==>
        categories[x].slug != c.slug && !HasName(f, categories[x], c)
  }

  /** By id, else by slug, live or not, else by the folded name of a live one, else the one added. */
  predicate CategoryUsed(f: Folding, categories: map<Id, Category>, id: Id, c: Category, r: Id) {
    if id in categories || NoCategory(f, categories, id, c) then r == id
    else if exists x :: x in categories && categories[x].slug == c.slug then
      r in categories && categories[r].slug == c.slug
    else r in categories && HasName(f, categories[r], c)
  }

  lemma CategoryFoundBy(f: Folding, categories: map<Id, Category>, id: Id, c: Category, r: Id)
    requires Used(CategoryMatches(f, categories, id, c), id, r)
    ensures CategoryUsed(f, categories, id, c, r)
    ensures First(CategoryMatches(f, categories, id, c)) == {} <==> NoCategory(f, categories, id, c)
  {
    var bySlug := set x | x in categories && categories[x].slug == c.slug;
    var byName := set x | x in categories && categories[x].live && f.lower(categories[x].name) == f.lower(c.name);
    assert CategoryMatches(f, categories, id, c) == [Named(id, categories.Keys), bySlug, byName];
    FirstOfThree(Named(id, categories.Keys), bySlug, byName);
    hide First, CategoryMatches;
    assert forall x :: x in categories ==> (x in bySlug <==> categories[x].slug == c.slug);
    assert forall x :: x in categories ==> (x in byName <==> HasName(f, categories[x], c));
    hide HasName;
    assert bySlug == {} <==> forall x :: x in categories ==> x !in bySlug;
    assert byName == {} <==> forall x :: x in categories ==> x !in byName;
  }

  predicate NoSubcategory(subcategories: map<Id, Subcategory>, id: Id, s: Subcategory) {
    id !in subcategories && forall x :: x in subcategories ==> subcategories[x].slug != s.slug
  }

  predicate SubcategoryUsed(subcategories: map<Id, Subcategory>, id: Id, s: Subcategory, r: Id) {
    if id in subcategories || NoSubcategory(subcategories, id, s) then r == id
    else r in subcategories && subcategories[r].slug == s.slug
  }

  lemma SubcategoryFoundBy(subcategories: map<Id, Subcategory>, id: Id, s: Subcategory, r: Id)
    requires Used(SubcategoryMatches(subcategories, id, s), id, r)
    ensures SubcategoryUsed(subcategories, id, s, r)
    ensures First(SubcategoryMatches(subcategories, id, s)) == {} <==> NoSubcategory(subcategories, id, s)
  {
    var bySlug := set x | x in subcategories && subcategories[x].slug == s.slug;
    assert SubcategoryMatches(subcategories, id, s) == [Named(id, subcategories.Keys), bySlug];
    FirstSet(Named(id, subcategories.Keys), bySlug);
    hide First;
    assert bySlug == {} <==> forall x :: x in subcategories ==> x !in bySlug;
  }

  predicate NoBrand(brands: map<Id, Brand>, id: Id, b: Brand) {
    id !in brands && forall x :: x in brands ==> brands[x].slug != b.slug
  }

  predicate BrandUsed(brands: map<Id, Brand>, id: Id, b: Brand, r: Id) {
    if id in brands || NoBrand(brands, id, b) then r == id else r in brands && brands[r].slug == b.slug
  }

  lemma BrandFoundBy(brands: map<Id, Brand>, id: Id, b: Brand, r: Id)
    requires Used(BrandMatches(brands, id, b), id, r)
    ensures BrandUsed(brands, id, b, r)
    ensures First(BrandMatches(brands, id, b)) == {} <==> NoBrand(brands, id, b)
  {
    var bySlug := set x | x in brands && brands[x].slug == b.slug;
    assert BrandMatches(brands, id, b) == [Named(id, brands.Keys), bySlug];
    FirstSet(Named(id, brands.Keys), bySlug);
    hide First;
    assert bySlug == {} <==> forall x :: x in brands ==> x !in bySlug;
  }

  /* ---- kinds of shop ---- */

  predicate NoShopKind(f: Folding, kinds: map<Id, ShopCategory>, id: Id, c: ShopCategory) {
    id !in kinds && forall x :: x in kinds ==> kinds[x].slug != c.slug && f.lower(kinds[x].name) != f.lower(c.name)
  }

  predicate ShopKindUsed(f: Folding, kinds: map<Id, ShopCategory>, id: Id, c: ShopCategory, r: Id) {
    if id in kinds || NoShopKind(f, kinds, id, c) then r == id
    else if exists x :: x in kinds && kinds[x].slug == c.slug then r in kinds && kinds[r].slug == c.slug
    else r in kinds && f.lower(kinds[r].name) == f.lower(c.name)
  }

  lemma ShopKindFoundBy(f: Folding, kinds: map<Id, ShopCategory>, id: Id, c: ShopCategory, r: Id)
    requires Used(ShopCategoryMatches(f, kinds, id, c), id, r)
    ensures ShopKindUsed(f, kinds, id, c, r)
    ensures First(ShopCategoryMatches(f, kinds, id, c)) == {} <==> NoShopKind(f, kinds, id, c)
  {
    var bySlug := set x | x in kinds && kinds[x].slug == c.slug;
    var byName := set x | x in kinds && f.lower(kinds[x].name) == f.lower(c.name);
    assert ShopCategoryMatches(f, kinds, id, c) == [Named(id, kinds.Keys), bySlug, byName];
    FirstOfThree(Named(id, kinds.Keys), bySlug, byName);
    hide First, ShopCategoryMatches;
    assert bySlug == {} <==> forall x :: x in kinds ==> x !in bySlug;
    assert byName == {} <==> forall x :: x in kinds ==> x !in byName;
  }

  /* ---- products ---- */

  predicate HasBarcode(x: Product, p: Product) {
    x.live && p.gtin.Some? && p.gtin.value != "" && x.gtin == p.gtin
  }

  /** The same name, variant, unit, size and category; a missing variant is an empty one. */
  predicate HasLabel(f: Folding, x: Product, p: Product, category: Id) {
    && x.live && f.lower(x.name) == f.lower(p.name) && x.unit == p.unit && x.size == p.size && x.category == category
    && (match x.variant case Some(v) => f.lower(v) case None => "")
       == (match p.variant case Some(v) => f.lower(v) case None => "")
  }

  /** The only product of that label. */
  predicate Only(f: Folding, products: map<Id, Product>, p: Product, category: Id, x: Id) {
    && x in products && HasLabel(f, products[x], p, category)
    && forall y :: y in products && HasLabel(f, products[y], p, category) ==> y == x
  }

  predicate NoProduct(f: Folding, products: map<Id, Product>, id: Id, p: Product, category: Id) {
    id !in products && forall x :: x in products ==>
        !HasBarcode(products[x], p) && !Only(f, products, p, category, x)
  }

  /** By id, else by the barcode of a live one, else the only one of that label, else the one added. */
  predicate ProductUsed(f: Folding, products: map<Id, Product>, id: Id, p: Product, category: Id, r: Id) {
    if id in products || NoProduct(f, products, id, p, category) then r == id
    else if exists x :: x in products && HasBarcode(products[x], p) then r in products && HasBarcode(products[r], p)
    else Only(f, products, p, category, r)
  }

  lemma OnlyExactly(f: Folding, products: map<Id, Product>, p: Product, category: Id, x: Id)
    ensures x in Single(set y | y in products && SameName(f, products[y], p, category))
        <==> Only(f, products, p, category, x)
  {
    var ids := set y | y in products && SameName(f, products[y], p, category);
    assert forall y :: y in products ==> (y in ids <==> HasLabel(f, products[y], p, category));
    hide SameName, HasLabel;
    if x in Single(ids) {
      forall y | y in ids ensures y == x {
        OneMember(ids, x, y);
      }
    }
    if Only(f, products, p, category, x) {
      assert ids == {x};
    }
  }

  lemma OneMember(ids: set<Id>, x: Id, y: Id)
    requires |ids| == 1 && x in ids && y in ids
    ensures x == y
  {
    assert |ids - {x}| == 0;
  }

  lemma ProductFoundBy(f: Folding, products: map<Id, Product>, id: Id, p: Product, category: Id, r: Id)
    requires Used(ProductMatches(f, products, id, p, category), id, r)
    ensures ProductUsed(f, products, id, p, category, r)
    ensures First(ProductMatches(f, products, id, p, category)) == {} <==> NoProduct(f, products, id, p, category)
  {
    var byCode := set x | x in products && Present(p.gtin) && products[x].live && products[x].gtin == p.gtin;
    var byLabel := Single(set x | x in products && SameName(f, products[x], p, category));
    assert ProductMatches(f, products, id, p, category) == [Named(id, products.Keys), byCode, byLabel];
    FirstOfThree(Named(id, products.Keys), byCode, byLabel);
    hide First, ProductMatches;
    assert forall x :: x in products ==> (x in byCode <==> HasBarcode(products[x], p));
    forall x ensures x in byLabel <==> Only(f, products, p, category, x) {
      OnlyExactly(f, products, p, category, x);
    }
    hide HasBarcode, Only, SameName, Single, Named;
    OnlyThere(f, products, p, category);
    LabelThen(f, products, id, p, category, byCode, byLabel);
    hide NoProduct, ProductUsed;
    ProductRows(f, products, id, p, category, byCode, byLabel, r);
  }

  lemma LabelThen(f: Folding, products: map<Id, Product>, id: Id, p: Product, category: Id, byCode: set<Id>,
      byLabel: set<Id>)
    requires byCode <= products.Keys && forall x :: x in products ==> (x in byCode <==> HasBarcode(products[x], p))
    requires byLabel <= products.Keys && forall x :: x in byLabel <==> Only(f, products, p, category, x)
    ensures NoProduct(f, products, id, p, category) <==> id !in products && byCode == {} && byLabel == {}
  {
    hide HasBarcode, Only;
    assert byCode == {} <==> forall x :: x in products ==> x !in byCode;
    assert byLabel == {} <==> forall x :: x in products ==> x !in byLabel;
  }

  lemma ProductRows(f: Folding, products: map<Id, Product>, id: Id, p: Product, category: Id, byCode: set<Id>,
      byLabel: set<Id>, r: Id)
    requires byCode <= products.Keys && forall x :: x in products ==> (x in byCode <==> HasBarcode(products[x], p))
    requires byLabel <= products.Keys && forall x :: x in byLabel <==> Only(f, products, p, category, x)
    requires NoProduct(f, products, id, p, category) <==> id !in products && byCode == {} && byLabel == {}
    requires if id in products || (byCode == {} && byLabel == {}) then r == id
             else if byCode != {} then r in byCode else r in byLabel
    ensures ProductUsed(f, products, id, p, category, r)
  {
    hide HasBarcode, Only, NoProduct;
    assert byCode == {} <==> forall x :: x in products ==> x !in byCode;
  }

  lemma OnlyThere(f: Folding, products: map<Id, Product>, p: Product, category: Id)
    ensures forall x :: Only(f, products, p, category, x) ==> x in products
  {
  }

  /* ---- what each lookup leaves ---- */

  /** Account r after it became a shop's: a customer is a shop owner then, an added account is the exported one. */
  function AccountOf(was: map<Id, User>, id: Id, u: User, r: Id, added: bool): User
    requires !added ==> r in was
  {
    if added then User(u.email, u.placeholder, u.phone, ShopOwner, true)
    else was[r].(role := if was[r].role == Customer then ShopOwner else was[r].role)
  }

  /** An owner looked up for the first time: the account used, its grant, and a row more exactly when there was none. */
  ghost predicate OwnerDone(f: Folding, was: Db, now: Db, tallyWas: Tally, tallyNow: Tally, id: Id, u: User, r: Id) {
    var added := NoUser(f, was.users, id, u);
    && UserUsed(f, was.users, id, u, r)
    && now.owners == was.owners + {r}
    && now.users == was.users[r := AccountOf(was.users, id, u, r, added)]
    && tallyNow == if added then tallyWas.(newOwners := tallyWas.newOwners + 1)
         else tallyWas.(existingOwners := tallyWas.existingOwners + 1)
  }

  lemma OwnerIsDone(f: Folding, was: Db, tally: Tally, id: Id, u: User, matched: bool, r: Id)
    requires Used(UserMatches(f, was.users, id, u), id, r)
             && matched == (First(UserMatches(f, was.users, id, u)) != {})
    ensures OwnerDone(f, was, WithOwner(was, id, u, matched, r), tally, CountOwner(tally, matched), id, u, r)
  {
    UserFoundBy(f, was.users, id, u, r);
    hide Used, First, UserMatches, HasEmail, HasPhone;
    assert matched ==> r in was.users;
    hide UserUsed, NoUser;
    AccountIs(was.users, id, u, matched, r);
  }

  lemma AccountIs(was: map<Id, User>, id: Id, u: User, matched: bool, r: Id)
    requires if matched then r in was else r == id
    ensures AsOwner(if matched then was else was[id := u.(role := ShopOwner, live := true)], r)
         == was[r := AccountOf(was, id, u, r, !matched)]
  {
  }

  ghost predicate CategoryDone(f: Folding, was: map<Id, Category>, now: map<Id, Category>, id: Id, c: Category, r: Id) {
    && CategoryUsed(f, was, id, c, r)
    && now == if NoCategory(f, was, id, c) then was[id := Category(c.slug, c.name, false, true)] else was
  }

  ghost predicate SubcategoryDone(was: map<Id, Subcategory>, now: map<Id, Subcategory>, id: Id, s: Subcategory,
      categories: map<Id, Id>, r: Id)
  {
    && SubcategoryUsed(was, id, s, r)
    && if NoSubcategory(was, id, s) then
         s.category in categories && now == was[id := Subcategory(categories[s.category], s.slug, true)]
       else now == was
  }

  ghost predicate BrandDone(was: map<Id, Brand>, now: map<Id, Brand>, id: Id, b: Brand, r: Id) {
    BrandUsed(was, id, b, r) && now == if NoBrand(was, id, b) then was[id := Brand(b.slug, true)] else was
  }

  ghost predicate ShopKindDone(f: Folding, was: map<Id, ShopCategory>, now: map<Id, ShopCategory>, id: Id,
      c: ShopCategory, r: Id)
  {
    ShopKindUsed(f, was, id, c, r) && now == if NoShopKind(f, was, id, c) then was[id := c] else was
  }

  /** The row's own web address, or when that is taken, one that continues it. */
  predicate AddressGiven(taken: bool, slug: string, given: string) {
    if taken then slug + "-" <= given else given == slug
  }

  /** The exported product under another number, its own address if it is free, and with its references translated. */
  ghost predicate ProductRow(was: map<Id, Product>, p: Product, row: Product, code: int, categories: map<Id, Id>,
      subcategories: map<Id, Id>, brands: map<Id, Id>)
  {
    && AddressGiven(exists x :: x in was && was[x].slug == p.slug, p.slug, row.slug)
    && p.category in categories
    && (p.sub.Some? ==> p.sub.value in subcategories) && (p.brand.Some? ==> p.brand.value in brands)
    && row == Product(p.name, p.variant, p.unit, p.size, p.gtin, categories[p.category],
         if p.sub.Some? then Some(subcategories[p.sub.value]) else None,
         if p.brand.Some? then Some(brands[p.brand.value]) else None, code, row.slug, true)
  }

  /** A product looked up for the first time: the row used, and a row more exactly when there was none. */
  ghost predicate ProductDone(f: Folding, was: map<Id, Product>, now: map<Id, Product>, id: Id, p: Product,
      r: (Id, bool), code: int, categories: map<Id, Id>, subcategories: map<Id, Id>, brands: map<Id, Id>)
  {
    && p.category in categories
    && ProductUsed(f, was, id, p, categories[p.category], r.0)
    && r.1 == NoProduct(f, was, id, p, categories[p.category])
    && if r.1 then id in now && now == was[id := now[id]]
           && ProductRow(was, p, now[id], code, categories, subcategories, brands)
       else now == was
  }

  lemma ProductIsFound(f: Folding, was: map<Id, Product>, id: Id, p: Product, r: Id, code: int,
      categories: map<Id, Id>, subcategories: map<Id, Id>, brands: map<Id, Id>)
    requires p.category in categories && Used(ProductMatches(f, was, id, p, categories[p.category]), id, r)
    requires First(ProductMatches(f, was, id, p, categories[p.category])) != {}
    ensures ProductDone(f, was, was, id, p, (r, false), code, categories, subcategories, brands)
  {
    ProductFoundBy(f, was, id, p, categories[p.category], r);
    hide First, ProductMatches, Used, ProductUsed, NoProduct;
  }

  lemma ProductIsAdded(f: Folding, was: map<Id, Product>, id: Id, p: Product, row: Product, code: int, category: Id,
      categories: map<Id, Id>, subcategories: map<Id, Id>, brands: map<Id, Id>)
    requires p.category in categories && category == categories[p.category]
    requires First(ProductMatches(f, was, id, p, category)) == {}
    requires ProductRow(was, p, row, code, categories, subcategories, brands)
    ensures ProductDone(f, was, was[id := row], id, p, (id, true), code, categories, subcategories, brands)
  {
    ProductFoundBy(f, was, id, p, category, id);
    hide First, ProductMatches, ProductUsed, NoProduct, ProductRow;
  }

  /* ---- shops ---- */

  /** One exported shop more: its own row under its owner's account, another number, and its address if that is free. */
  ghost predicate ShopRow(was: map<Id, Shop>, now: map<Id, Shop>, id: Id, s: Shop, owner: Id, number: int) {
    && id !in was && id in now && now == was[id := now[id]]
    && now[id] == Shop(owner, s.name, s.pincode, s.actKey, number, now[id].slug, s.live)
    && AddressGiven(exists x :: x in was && was[x].slug == s.slug, s.slug, now[id].slug)
  }

  ghost predicate ShopInserted(was: Db, now: Db, tallyWas: Tally, tallyNow: Tally, id: Id, s: Shop, owner: Id,
      number: int)
  {
    && ShopRow(was.shops, now.shops, id, s, owner, number)
    && now == was.(users := now.users, owners := now.owners, shops := now.shops)
    && tallyNow == tallyWas.(newOwners := tallyNow.newOwners, existingOwners := tallyNow.existingOwners)
  }

  lemma InsertedAfterOwner(was: Db, mid: Db, now: Db, tallyWas: Tally, tallyMid: Tally, tallyNow: Tally, id: Id,
      s: Shop, owner: Id, number: int)
    requires mid == was.(users := mid.users, owners := mid.owners)
    requires tallyMid == tallyWas.(newOwners := tallyMid.newOwners, existingOwners := tallyMid.existingOwners)
    requires ShopInserted(mid, now, tallyMid, tallyNow, id, s, owner, number)
    ensures ShopInserted(was, now, tallyWas, tallyNow, id, s, owner, number)
  {
    hide ShopRow;
  }

  lemma RowIsOneMore(was: map<Id, Shop>, now: map<Id, Shop>, id: Id, s: Shop, owner: Id, number: int)
    requires ShopRow(was, now, id, s, owner, number)
    ensures OneShopMore(was, now, id)
  {
    KeptPlus(was, id, now[id]);
    hide Kept;
  }

  /** Shop t stands in the way of exported shop s: its id, its live name in the PIN code, or its Act registration. */
  predicate InTheWay(f: Folding, x: Id, t: Shop, id: Id, s: Shop) {
    || x == id
    || (t.live && f.shopName(t.name) == f.shopName(s.name) && t.pincode == s.pincode)
    || (s.actKey.Some? && s.actKey.value != "" && t.live && t.actKey == s.actKey)
  }

  /** Row i is copied: no shop of the target before the run is in its way, nor one that was copied before it. */
  predicate Copied(f: Folding, was: map<Id, Shop>, rows: seq<(Id, Shop)>, i: nat) {
    && i < |rows|
    && (forall x :: x in was ==> !InTheWay(f, x, was[x], rows[i].0, rows[i].1))
    && (forall j :: 0 <= j < i && Copied(f, was, rows, j) ==>
          !InTheWay(f, rows[j].0, rows[j].1, rows[i].0, rows[i].1))
  }

  /** How many of the first n rows are copied. */
  function CopiedBefore(f: Folding, was: map<Id, Shop>, rows: seq<(Id, Shop)>, n: nat): nat {
    if n == 0 then 0 else CopiedBefore(f, was, rows, n - 1) + (if Copied(f, was, rows, n - 1) then 1 else 0)
  }

  /** Row j's shop is on the target as it was exported, under its owner's account and the number that was its turn. */
  predicate CopiedAs(f: Folding, was: map<Id, Shop>, now: map<Id, Shop>, rows: seq<(Id, Shop)>, users: map<Id, Id>,
      first: int, j: nat)
    requires j < |rows|
  {
    var (id, s) := rows[j];
    && id in now && s.owner in users
    && now[id] == Shop(users[s.owner], s.name, s.pincode, s.actKey, first + CopiedBefore(f, was, rows, j), now[id].slug,
         s.live)
  }

  /** After the first n rows the target's shops are those before the run and those copied, and no others. */
  ghost predicate ShopsCopied(f: Folding, was: map<Id, Shop>, now: map<Id, Shop>, rows: seq<(Id, Shop)>, n: nat,
      users: map<Id, Id>, first: int)
  {
    && n <= |rows|
    && (forall x :: x in was ==> x in now && now[x] == was[x])
    && (forall x :: x in now && x !in was ==> ComesFrom(f, was, rows, n, x))
    && (forall j :: 0 <= j < n && Copied(f, was, rows, j) ==> CopiedAs(f, was, now, rows, users, first, j))
  }

  predicate ComesFrom(f: Folding, was: map<Id, Shop>, rows: seq<(Id, Shop)>, n: nat, x: Id)
    requires n <= |rows|
  {
    exists j :: 0 <= j < n && Copied(f, was, rows, j) && rows[j].0 == x
  }

  /** All rows looked at: the run's new shops are the rows to be copied, numbered in their order from the first on. */
  ghost predicate AllShopsCopied(f: Folding, was: map<Id, Shop>, now: map<Id, Shop>, rows: seq<(Id, Shop)>, first: int)
  {
    exists users :: ShopsCopied(f, was, now, rows, |rows|, users, first)
  }

  /** The next number of a sequence: its last value, or the one after it once that was given out. */
  function NextNumber(sequence: (int, bool)): int {
    if sequence.1 then sequence.0 + 1 else sequence.0
  }

  lemma NoShopsCopied(f: Folding, was: map<Id, Shop>, rows: seq<(Id, Shop)>, users: map<Id, Id>, first: int)
    ensures ShopsCopied(f, was, was, rows, 0, users, first) && CopiedBefore(f, was, rows, 0) == 0
  {
  }

  lemma ThereExactly(f: Folding, shops: map<Id, Shop>, id: Id, s: Shop)
    ensures AlreadyThere(f, shops, id, s) <==> exists x :: x in shops && InTheWay(f, x, shops[x], id, s)
  {
    if AlreadyThere(f, shops, id, s) {
      if id in shops {
        assert InTheWay(f, id, shops[id], id, s);
      } else if x :| x in shops && Twins(f, shops[x], s) {
        assert InTheWay(f, x, shops[x], id, s);
      } else if x :| x in shops && shops[x].live && shops[x].actKey == s.actKey {
        assert InTheWay(f, x, shops[x], id, s);
      }
    }
  }

  lemma BlockedNow(f: Folding, was: map<Id, Shop>, now: map<Id, Shop>, rows: seq<(Id, Shop)>, n: nat,
      users: map<Id, Id>, first: int, x: Id)
    requires ShopsCopied(f, was, now, rows, n, users, first) && n < |rows|
    requires x in now && InTheWay(f, x, now[x], rows[n].0, rows[n].1)
    ensures !Copied(f, was, rows, n)
  {
    if x !in was {
      assert ComesFrom(f, was, rows, n, x);
      var j :| 0 <= j < n && Copied(f, was, rows, j) && rows[j].0 == x;
      assert CopiedAs(f, was, now, rows, users, first, j);
      assert InTheWay(f, rows[j].0, rows[j].1, rows[n].0, rows[n].1);
    }
  }

  lemma BlockedSince(f: Folding, was: map<Id, Shop>, now: map<Id, Shop>, rows: seq<(Id, Shop)>, n: nat,
      users: map<Id, Id>, first: int) returns (x: Id)
    requires ShopsCopied(f, was, now, rows, n, users, first) && n < |rows| && !Copied(f, was, rows, n)
    ensures x in now && InTheWay(f, x, now[x], rows[n].0, rows[n].1)
  {
    if y :| y in was && InTheWay(f, y, was[y], rows[n].0, rows[n].1) {
      x := y;
    } else {
      var j :| 0 <= j < n && Copied(f, was, rows, j) && InTheWay(f, rows[j].0, rows[j].1, rows[n].0, rows[n].1);
      assert CopiedAs(f, was, now, rows, users, first, j);
      x := rows[j].0;
    }
  }

  /** The script skips a row exactly when it is not to be copied. */
  lemma SkippedExactly(f: Folding, was: map<Id, Shop>, now: map<Id, Shop>, rows: seq<(Id, Shop)>, n: nat,
      users: map<Id, Id>, first: int)
    requires ShopsCopied(f, was, now, rows, n, users, first) && n < |rows|
    ensures AlreadyThere(f, now, rows[n].0, rows[n].1) <==> !Copied(f, was, rows, n)
  {
    hide AlreadyThere, Copied, ShopsCopied, InTheWay;
    ThereExactly(f, now, rows[n].0, rows[n].1);
    if AlreadyThere(f, now, rows[n].0, rows[n].1) {
      var x :| x in now && InTheWay(f, x, now[x], rows[n].0, rows[n].1);
      BlockedNow(f, was, now, rows, n, users, first, x);
    }
    if !Copied(f, was, rows, n) {
      var x := BlockedSince(f, was, now, rows, n, users, first);
    }
  }

  lemma RowSkipped(f: Folding, was: map<Id, Shop>, now: map<Id, Shop>, rows: seq<(Id, Shop)>, n: nat,
      users: map<Id, Id>, first: int)
    requires ShopsCopied(f, was, now, rows, n, users, first) && n < |rows| && !Copied(f, was, rows, n)
    ensures ShopsCopied(f, was, now, rows, n + 1, users, first)
    ensures CopiedBefore(f, was, rows, n + 1) == CopiedBefore(f, was, rows, n)
  {
    hide Copied, CopiedAs;
  }

  lemma CopiedStays(f: Folding, was: map<Id, Shop>, now: map<Id, Shop>, next: map<Id, Shop>, rows: seq<(Id, Shop)>,
      users: map<Id, Id>, users': map<Id, Id>, first: int, j: nat)
    requires j < |rows| && CopiedAs(f, was, now, rows, users, first, j)
    requires Kept(now, next) && Kept(users, users')
    ensures CopiedAs(f, was, next, rows, users', first, j)
  {
  }

  lemma RowCopied(f: Folding, was: map<Id, Shop>, now: map<Id, Shop>, next: map<Id, Shop>, rows: seq<(Id, Shop)>,
      n: nat, users: map<Id, Id>, users': map<Id, Id>, first: int)
    requires ShopsCopied(f, was, now, rows, n, users, first) && n < |rows| && Copied(f, was, rows, n)
    requires Kept(users, users') && rows[n].1.owner in users'
    requires ShopRow(now, next, rows[n].0, rows[n].1, users'[rows[n].1.owner], first + CopiedBefore(f, was, rows, n))
    ensures ShopsCopied(f, was, next, rows, n + 1, users', first)
    ensures CopiedBefore(f, was, rows, n + 1) == CopiedBefore(f, was, rows, n) + 1
  {
    hide Copied, CopiedBefore, ComesFrom, CopiedAs;
    var id := rows[n].0;
    assert CopiedAs(f, was, next, rows, users', first, n) by {
      RowIsAs(f, was, now, next, rows, n, users', first);
    }
    assert Kept(now, next) && forall x :: x in next ==> x in now || x == id;
    hide ShopRow;
    OneMoreCount(f, was, rows, n);
    forall x | x in next && x !in was ensures ComesFrom(f, was, rows, n + 1, x) {
      FromMore(f, was, rows, n, x);
    }
    forall j | 0 <= j < n && Copied(f, was, rows, j) ensures CopiedAs(f, was, next, rows, users', first, j) {
      CopiedStays(f, was, now, next, rows, users, users', first, j);
    }
  }

  lemma RowIsAs(f: Folding, was: map<Id, Shop>, now: map<Id, Shop>, next: map<Id, Shop>, rows: seq<(Id, Shop)>,
      n: nat, users: map<Id, Id>, first: int)
    requires n < |rows| && rows[n].1.owner in users
    requires ShopRow(now, next, rows[n].0, rows[n].1, users[rows[n].1.owner], first + CopiedBefore(f, was, rows, n))
    ensures CopiedAs(f, was, next, rows, users, first, n)
  {
    hide CopiedBefore, AddressGiven;
  }

  lemma FromMore(f: Folding, was: map<Id, Shop>, rows: seq<(Id, Shop)>, n: nat, x: Id)
    requires n < |rows| && (ComesFrom(f, was, rows, n, x) || (x == rows[n].0 && Copied(f, was, rows, n)))
    ensures ComesFrom(f, was, rows, n + 1, x)
  {
    hide Copied;
  }

  lemma OneMoreCount(f: Folding, was: map<Id, Shop>, rows: seq<(Id, Shop)>, n: nat)
    requires Copied(f, was, rows, n)
    ensures CopiedBefore(f, was, rows, n + 1) == CopiedBefore(f, was, rows, n) + 1
  {
    hide Copied;
  }
}
