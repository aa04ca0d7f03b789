/**
 When copying a shop meets a unique index (scripts/copy-shops/copy-shops.ts): two of its kinds, or two products it
 lists, that become one row of the target. Said of the export and the target as they are before the copy.
 */
module ShopClashes {
  import opened Text
  import opened CopyShops

  /* ---- the kinds of a shop ---- */

  /** The kinds an exported shop has, in order. */
  function Kinds(rows: seq<(Id, Id)>, shop: Id): seq<Id> {
    if rows == [] then []
    else
      var n := |rows| - 1;
      Kinds(rows[..n], shop) + (if rows[n].0 == shop then [rows[n].1] else [])
  }

  /** The rows an exported kind is matched with: it is added when there are none. */
  function RowsFor(f: Folding, from: map<Id, ShopCategory>, categories: map<Id, ShopCategory>, c: Id): set<Id>
    requires c in from
  {
    First(ShopCategoryMatches(f, categories, c, from[c]))
  }

  /** The table after one kind, and after several. */
  function WithKind(f: Folding, from: map<Id, ShopCategory>, categories: map<Id, ShopCategory>, c: Id)
    : map<Id, ShopCategory>
  {
    if c in from && RowsFor(f, from, categories, c) == {} then categories[c := from[c]] else categories
  }

  function WithKinds(f: Folding, from: map<Id, ShopCategory>, categories: map<Id, ShopCategory>, kinds: seq<Id>)
    : map<Id, ShopCategory>
  {
    if kinds == [] then categories
    else
      var n := |kinds| - 1;
      WithKind(f, from, WithKinds(f, from, categories, kinds[..n]), kinds[n])
  }

  /** The row used for the first kinds: each is looked up in the table the kinds before it have left. */
  ghost predicate KindsUsed(f: Folding, from: map<Id, ShopCategory>, categories: map<Id, ShopCategory>, kinds: seq<Id>,
      targets: seq<Id>)
  {
    |targets| <= |kinds| && forall i :: 0 <= i < |targets| ==> KindUsed(f, from, categories, kinds, targets, i)
  }

  ghost predicate KindUsed(f: Folding, from: map<Id, ShopCategory>, categories: map<Id, ShopCategory>, kinds: seq<Id>,
      targets: seq<Id>, i: nat)
    requires i < |targets| <= |kinds|
  {
    && kinds[i] in from
    && Used(ShopCategoryMatches(f, WithKinds(f, from, categories, kinds[..i]), kinds[i], from[kinds[i]]), kinds[i],
       targets[i])
  }

  /** No two of the rows are one, and the shop is linked to none of them yet. */
  predicate Unlinked(shop: Id, targets: seq<Id>, links: set<(Id, Id)>) {
    && (forall i, j | 0 <= i < j < |targets| :: targets[i] != targets[j])
    && (forall t :: t in targets ==> (shop, t) !in links)
  }

  ghost predicate LinkedTo(shop: Id, targets: seq<Id>, was: set<(Id, Id)>, now: set<(Id, Id)>) {
    forall m :: m in now <==> m in was || (m.0 == shop && m.1 in targets)
  }

  /** A kind of the shop looked up and linked; it clashes exactly when the row used for it is linked already. */
  ghost predicate KindCopied(
    f: Folding, b: Bundle, shop: Id, c: Id, was: Db, now: Db, tallyWas: Tally, tallyNow: Tally, r: Outcome<()>,
    target: Id)
  {
    && (r == Stopped(Missing) <==> c !in b.shopCategories) && r != Stopped(OtherEmail)
    && (r.Ok? || r == Stopped(Clash) ==>
          && c in b.shopCategories
          && Used(ShopCategoryMatches(f, was.shopCategories, c, b.shopCategories[c]), c, target))
    && (r == Stopped(Clash) ==> (shop, target) in was.mappings)
    && (r.Ok? ==>
          && now.shopCategories == WithKind(f, b.shopCategories, was.shopCategories, c)
          && StandsFor(f, b.shopCategories, now.shopCategories, c, target)
          && OnlyMappings(was, now, tallyWas, tallyNow)
          && (shop, target) !in was.mappings && now.mappings == Linked(was.mappings, shop, target))
  }

  /** What a run has done when it has copied the first kinds of a shop. */
  ghost predicate KindsLinked(f: Folding, b: Bundle, shop: Id, kinds: seq<Id>, targets: seq<Id>, was: Db, now: Db) {
    && |targets| == |kinds| && KindsUsed(f, b.shopCategories, was.shopCategories, kinds, targets)
    && now.shopCategories == WithKinds(f, b.shopCategories, was.shopCategories, kinds)
    && Unlinked(shop, targets, was.mappings) && LinkedTo(shop, targets, was.mappings, now.mappings)
  }

  lemma {:induction false} KindsPrefix(rows: seq<(Id, Id)>, n: nat, shop: Id)
    requires n <= |rows|
    ensures Kinds(rows[..n], shop) <= Kinds(rows, shop)
  {
    if n < |rows| {
      KindsPrefix(rows[..|rows| - 1], n, shop);
      assert rows[..|rows| - 1][..n] == rows[..n];
    } else {
      assert rows[..n] == rows;
    }
  }

  lemma KindAt(rows: seq<(Id, Id)>, i: nat, shop: Id)
    requires i < |rows|
    ensures Kinds(rows[..i + 1], shop)
         == if rows[i].0 == shop then Kinds(rows[..i], shop) + [rows[i].1] else Kinds(rows[..i], shop)
    ensures Kinds(rows[..i + 1], shop) <= Kinds(rows, shop)
  {
    assert rows[..i + 1][..i] == rows[..i];
    KindsPrefix(rows, i + 1, shop);
  }

  lemma {:induction false} KindIn(rows: seq<(Id, Id)>, shop: Id, c: Id)
    requires c in Kinds(rows, shop)
    ensures (shop, c) in rows
  {
    var n := |rows| - 1;
    if c in Kinds(rows[..n], shop) {
      KindIn(rows[..n], shop, c);
    } else {
      assert rows[n] == (shop, c);
    }
  }

  lemma KindInside(b: Bundle, i: nat)
    requires i < |b.mappings|
    ensures b.mappings[i] in b.mappings && (Whole(b) ==> b.mappings[i].1 in b.shopCategories)
  {
  }

  lemma NoKinds(f: Folding, b: Bundle, shop: Id, db: Db)
    ensures KindsLinked(f, b, shop, Kinds(b.mappings[..0], shop), [], db, db)
  {
  }

  /** One kind more: the run goes on when its row is a new one for the shop, and stops when it is not. */
  lemma KindMore(
    f: Folding, from: map<Id, ShopCategory>, shop: Id, kinds: seq<Id>, c: Id, targets: seq<Id>, target: Id,
    before: set<(Id, Id)>, now: set<(Id, Id)>, categories: map<Id, ShopCategory>)
    requires KindsUsed(f, from, categories, kinds, targets) && |targets| == |kinds| && c in from
    requires Used(ShopCategoryMatches(f, WithKinds(f, from, categories, kinds), c, from[c]), c, target)
    requires Unlinked(shop, targets, before) && LinkedTo(shop, targets, before, now)
    ensures KindsUsed(f, from, categories, kinds + [c], targets + [target])
    ensures Unlinked(shop, targets + [target], before) <==> (shop, target) !in now
    ensures LinkedTo(shop, targets + [target], before, Linked(now, shop, target))
    ensures WithKinds(f, from, categories, kinds + [c])
         == WithKind(f, from, WithKinds(f, from, categories, kinds), c)
  {
    hide WithKind, Used, ShopCategoryMatches;
    var more := targets + [target];
    assert (kinds + [c])[..|kinds|] == kinds;
    forall k | 0 <= k < |more| ensures KindUsed(f, from, categories, kinds + [c], more, k) {
      if k < |targets| {
        assert KindUsed(f, from, categories, kinds, targets, k);
        assert (kinds + [c])[..k] == kinds[..k];
      }
    }
    hide KindUsed, WithKinds;
    assert forall t :: t in more <==> t in targets || t == target;
    if target in targets {
      var k :| 0 <= k < |targets| && targets[k] == target;
      assert more[k] == more[|targets|];
    }
  }

  /** Later kinds make no difference to what was used for the first ones. */
  lemma KindsUsedBefore(f: Folding, from: map<Id, ShopCategory>, categories: map<Id, ShopCategory>, kinds: seq<Id>,
      all: seq<Id>, targets: seq<Id>)
    requires KindsUsed(f, from, categories, kinds, targets) && kinds <= all
    ensures KindsUsed(f, from, categories, all, targets)
  {
    forall i | 0 <= i < |targets| ensures KindUsed(f, from, categories, all, targets, i) {
      assert KindUsed(f, from, categories, kinds, targets, i);
      assert all[..i] == kinds[..i];
    }
  }

  /* ---- kinds that become one ---- */

  /** Unique web addresses, as the source of an export has them. */
  ghost predicate SlugsApart(from: map<Id, ShopCategory>) {
    forall c, d | c in from && d in from :: from[c].slug == from[d].slug ==> c == d
  }

  predicate SameKindName(f: Folding, a: ShopCategory, b: ShopCategory) {
    f.lower(a.name) == f.lower(b.name)
  }

  /** Both are matched with the one row, or both with none and the second is matched with the first. */
  predicate Meet(f: Folding, from: map<Id, ShopCategory>, categories: map<Id, ShopCategory>, a: Id, b: Id) {
    && a in from && b in from
    && RowsFor(f, from, categories, a) == RowsFor(f, from, categories, b)
    && |RowsFor(f, from, categories, a)| <= 1
    && (RowsFor(f, from, categories, a) == {} ==> SameKindName(f, from[a], from[b]))
  }

  /** The same where the database may choose among several rows. */
  predicate MayMeet(f: Folding, from: map<Id, ShopCategory>, categories: map<Id, ShopCategory>, a: Id, b: Id) {
    && a in from && b in from
    && var x, y := RowsFor(f, from, categories, a), RowsFor(f, from, categories, b);
       x * y != {} || (x == {} && y == {} && SameKindName(f, from[a], from[b]))
  }

  predicate KindsMeet(f: Folding, from: map<Id, ShopCategory>, categories: map<Id, ShopCategory>, kinds: seq<Id>) {
    exists i, j | 0 <= i < j < |kinds| :: Meet(f, from, categories, kinds[i], kinds[j])
  }

  predicate KindsMayMeet(f: Folding, from: map<Id, ShopCategory>, categories: map<Id, ShopCategory>, kinds: seq<Id>) {
    exists i, j | 0 <= i < j < |kinds| :: MayMeet(f, from, categories, kinds[i], kinds[j])
  }

  /** The target's unique indexes. */
  ghost predicate UniqueKinds(f: Folding, categories: map<Id, ShopCategory>) {
    forall x, y | x in categories && y in categories && x != y ::
      categories[x].slug != categories[y].slug && !SameKindName(f, categories[x], categories[y])
  }

  lemma RowsAre(f: Folding, from: map<Id, ShopCategory>, categories: map<Id, ShopCategory>, c: Id)
    requires c in from
    ensures var bySlug := set x | x in categories && categories[x].slug == from[c].slug;
            var byName := set x | x in categories && SameKindName(f, categories[x], from[c]);
            RowsFor(f, from, categories, c)
            == if c in categories then {c} else if bySlug != {} then bySlug else byName
    ensures RowsFor(f, from, categories, c) <= categories.Keys
  {
    var bySlug := set x | x in categories && categories[x].slug == from[c].slug;
    var byName := set x | x in categories && SameKindName(f, categories[x], from[c]);
    assert byName == set x | x in categories && f.lower(categories[x].name) == f.lower(from[c].name);
    assert ShopCategoryMatches(f, categories, c, from[c]) == [Named(c, categories.Keys), bySlug, byName];
    FirstOfThree(Named(c, categories.Keys), bySlug, byName);
    hide First;
  }

  /** With the target's indexes there is nothing to choose, so kinds that may meet do. */
  lemma MeetExactly(f: Folding, from: map<Id, ShopCategory>, categories: map<Id, ShopCategory>, a: Id, b: Id)
    requires UniqueKinds(f, categories)
    ensures MayMeet(f, from, categories, a, b) <==> Meet(f, from, categories, a, b)
  {
    if a in from && b in from {
      OneRow(f, from, categories, a);
      OneRow(f, from, categories, b);
      var x, y := RowsFor(f, from, categories, a), RowsFor(f, from, categories, b);
      hide RowsFor, UniqueKinds;
      if x * y != {} {
        var t :| t in x * y;
        assert x == {t} && y == {t};
      }
      if x == y && x != {} {
        var t :| t in x;
        assert t in x * y;
      }
    }
  }

  lemma OneRow(f: Folding, from: map<Id, ShopCategory>, categories: map<Id, ShopCategory>, c: Id)
    requires UniqueKinds(f, categories) && c in from
    ensures var x := RowsFor(f, from, categories, c); |x| <= 1 && forall t :: t in x ==> x == {t}
  {
    RowsAre(f, from, categories, c);
    var x := RowsFor(f, from, categories, c);
    hide RowsFor;
    if t :| t in x {
      forall u | u in x ensures u == t {
      }
      assert x == {t};
    }
  }

  /* ---- the table of kinds during a run ---- */

  /** Rows added to the table of kinds are exported ones that matched none, under names no other row has. */
  ghost predicate KindsAlone(f: Folding, from: map<Id, ShopCategory>, was: map<Id, ShopCategory>,
      now: map<Id, ShopCategory>)
  {
    && Kept(was, now)
    && forall c :: c in now && c !in was ==>
         && c in from && now[c] == from[c] && RowsFor(f, from, was, c) == {}
         && forall d :: d in now && d != c ==> !SameKindName(f, now[d], now[c])
  }

  /** A kind looked up, and added when nothing matches. */
  lemma KindStep(f: Folding, from: map<Id, ShopCategory>, was: map<Id, ShopCategory>, now: map<Id, ShopCategory>,
      c: Id, r: Id)
    requires KindsAlone(f, from, was, now) && c in from
    requires Used(ShopCategoryMatches(f, now, c, from[c]), c, r)
    ensures var now' := WithKind(f, from, now, c);
            KindsAlone(f, from, was, now') && Kept(now, now') && StandsFor(f, from, now', c, r)
    ensures RowsFor(f, from, now, c) == {} ==> c !in now && r == c
  {
    AloneMore(f, from, was, now, c);
    RowsAre(f, from, now, c);
    hide ShopCategoryMatches, KindsAlone, First;
  }

  lemma AloneSelf(f: Folding, from: map<Id, ShopCategory>, was: map<Id, ShopCategory>)
    ensures KindsAlone(f, from, was, was)
  {
  }

  lemma NoRowsBefore(f: Folding, from: map<Id, ShopCategory>, was: map<Id, ShopCategory>, now: map<Id, ShopCategory>,
      c: Id)
    requires Kept(was, now) && c in from && RowsFor(f, from, now, c) == {}
    ensures RowsFor(f, from, was, c) == {} && c !in now
    ensures forall d :: d in now ==> !SameKindName(f, now[d], from[c])
  {
    RowsAre(f, from, was, c);
    RowsAre(f, from, now, c);
    hide RowsFor, SameKindName;
    var slugs := set x | x in now && now[x].slug == from[c].slug;
    var names := set x | x in now && SameKindName(f, now[x], from[c]);
    assert slugs == {} && names == {};
    assert forall d :: d in now ==> d !in slugs && d !in names;
    assert forall d :: d in was ==> now[d] == was[d];
  }

  lemma AloneMore(f: Folding, from: map<Id, ShopCategory>, was: map<Id, ShopCategory>, now: map<Id, ShopCategory>,
      c: Id)
    requires KindsAlone(f, from, was, now)
    ensures KindsAlone(f, from, was, WithKind(f, from, now, c)) && Kept(now, WithKind(f, from, now, c))
  {
    hide SameKindName;
    if c in from && RowsFor(f, from, now, c) == {} {
      NoRowsBefore(f, from, was, now, c);
      hide RowsFor;
      NamesDiffer(f, now, from[c]);
    } else {
      hide RowsFor;
    }
  }

  lemma NamesDiffer(f: Folding, categories: map<Id, ShopCategory>, c: ShopCategory)
    ensures forall d :: d in categories && !SameKindName(f, categories[d], c) ==> !SameKindName(f, c, categories[d])
  {
  }

  lemma {:induction false} AloneAfter(f: Folding, from: map<Id, ShopCategory>, was: map<Id, ShopCategory>,
      now: map<Id, ShopCategory>, kinds: seq<Id>)
    requires KindsAlone(f, from, was, now)
    ensures KindsAlone(f, from, was, WithKinds(f, from, now, kinds)) && Kept(now, WithKinds(f, from, now, kinds))
  {
    hide KindsAlone, WithKind;
    if kinds != [] {
      var n := |kinds| - 1;
      AloneAfter(f, from, was, now, kinds[..n]);
      AloneMore(f, from, was, WithKinds(f, from, now, kinds[..n]), kinds[n]);
      KeptTwice(now, WithKinds(f, from, now, kinds[..n]), WithKinds(f, from, now, kinds));
    }
  }

  lemma {:induction false} KeptAfter(f: Folding, from: map<Id, ShopCategory>, categories: map<Id, ShopCategory>,
      kinds: seq<Id>, n: nat)
    requires n <= |kinds|
    ensures Kept(WithKinds(f, from, categories, kinds[..n]), WithKinds(f, from, categories, kinds))
  {
    hide WithKind;
    if n == |kinds| {
      assert kinds[..n] == kinds;
      KeptSelf(WithKinds(f, from, categories, kinds));
    } else {
      var front := kinds[..|kinds| - 1];
      KeptAfter(f, from, categories, front, n);
      assert front[..n] == kinds[..n];
      AloneSelf(f, from, WithKinds(f, from, categories, front));
      AloneMore(f, from, WithKinds(f, from, categories, front), WithKinds(f, from, categories, front),
          kinds[|kinds| - 1]);
      KeptTwice(WithKinds(f, from, categories, kinds[..n]), WithKinds(f, from, categories, front),
          WithKinds(f, from, categories, kinds));
    }
  }

  /** The rows added since that have this kind's name. */
  function Added(f: Folding, was: map<Id, ShopCategory>, now: map<Id, ShopCategory>, c: ShopCategory): set<Id> {
    set d | d in now && d !in was && SameKindName(f, now[d], c)
  }

  /** A kind is matched with the rows it was matched with before the run, or, without any, with those added since. */
  lemma RowsNow(f: Folding, from: map<Id, ShopCategory>, was: map<Id, ShopCategory>, now: map<Id, ShopCategory>, c: Id)
    requires SlugsApart(from) && KindsAlone(f, from, was, now) && c in from
    ensures RowsFor(f, from, now, c)
         == if RowsFor(f, from, was, c) != {} then RowsFor(f, from, was, c) else Added(f, was, now, from[c])
  {
    RowsAre(f, from, was, c);
    RowsAre(f, from, now, c);
    hide RowsFor;
    if c in was {
    } else if c in now {
      OnlyItself(f, from, was, now, c);
    } else {
      SlugsAndNames(f, from, was, now, c);
      hide KindsAlone, SlugsApart, SameKindName, Added;
    }
  }

  lemma OnlyItself(f: Folding, from: map<Id, ShopCategory>, was: map<Id, ShopCategory>, now: map<Id, ShopCategory>,
      c: Id)
    requires KindsAlone(f, from, was, now) && c in now && c !in was
    ensures c in from && RowsFor(f, from, was, c) == {} && Added(f, was, now, from[c]) == {c}
  {
    hide RowsFor;
  }

  lemma SlugsAndNames(f: Folding, from: map<Id, ShopCategory>, was: map<Id, ShopCategory>, now: map<Id, ShopCategory>,
      c: Id)
    requires SlugsApart(from) && KindsAlone(f, from, was, now) && c in from && c !in now
    ensures (set x | x in now && now[x].slug == from[c].slug) == (set x | x in was && was[x].slug == from[c].slug)
    ensures var names := set x | x in was && SameKindName(f, was[x], from[c]);
            (set x | x in now && SameKindName(f, now[x], from[c]))
            == if names != {} then names else Added(f, was, now, from[c])
  {
    hide RowsFor;
    var names := set x | x in was && SameKindName(f, was[x], from[c]);
    var names' := set x | x in now && SameKindName(f, now[x], from[c]);
    var added := Added(f, was, now, from[c]);
    assert names' == names + added;
    if t :| t in names {
      forall d | d in now && d !in was ensures !SameKindName(f, now[d], from[c]) {
        assert !SameKindName(f, now[t], now[d]);
      }
      assert added == {};
    } else {
      assert names == {};
    }
  }

  lemma AddedOnce(f: Folding, from: map<Id, ShopCategory>, was: map<Id, ShopCategory>, now: map<Id, ShopCategory>,
      c: ShopCategory, x: Id, y: Id)
    requires KindsAlone(f, from, was, now) && x in Added(f, was, now, c) && y in Added(f, was, now, c)
    ensures x == y
  {
  }

  /** What is said of the table before a run holds during it. */
  lemma MeetStays(f: Folding, from: map<Id, ShopCategory>, was: map<Id, ShopCategory>, now: map<Id, ShopCategory>,
      a: Id, b: Id)
    requires SlugsApart(from) && KindsAlone(f, from, was, now)
    ensures Meet(f, from, was, a, b) ==> Meet(f, from, now, a, b)
    ensures MayMeet(f, from, now, a, b) ==> MayMeet(f, from, was, a, b)
  {
    if a in from && b in from {
      RowsNow(f, from, was, now, a);
      RowsNow(f, from, was, now, b);
      RowsAre(f, from, was, a);
      RowsAre(f, from, was, b);
      AddedAlike(f, from, was, now, from[a], from[b]);
      hide RowsFor, KindsAlone, SlugsApart, SameKindName;
    }
  }

  lemma AddedAlike(f: Folding, from: map<Id, ShopCategory>, was: map<Id, ShopCategory>, now: map<Id, ShopCategory>,
      c: ShopCategory, d: ShopCategory)
    requires KindsAlone(f, from, was, now)
    ensures var x, y := Added(f, was, now, c), Added(f, was, now, d);
            && |x| <= 1
            && x !! was.Keys
            && y !! was.Keys
            && (SameKindName(f, c, d) ==> x == y)
            && (x * y != {} ==> SameKindName(f, c, d))
  {
    var x, y := Added(f, was, now, c), Added(f, was, now, d);
    if u :| u in x {
      forall v | v in x ensures v == u {
        AddedOnce(f, from, was, now, c, u, v);
      }
      assert x == {u};
    } else {
      assert x == {};
    }
    hide KindsAlone;
    assert SameKindName(f, c, d) ==> x == y;
    if u :| u in x * y {
      assert SameKindName(f, now[u], c) && SameKindName(f, now[u], d);
    }
  }

  /** Where kind i went: to a row there was for it, else to an added one with its name. */
  lemma TargetOf(f: Folding, from: map<Id, ShopCategory>, categories: map<Id, ShopCategory>, kinds: seq<Id>,
      targets: seq<Id>, i: nat)
    requires SlugsApart(from) && KindsUsed(f, from, categories, kinds, targets) && i < |targets|
    ensures kinds[i] in from
    ensures var rows := RowsFor(f, from, categories, kinds[i]);
            targets[i] in if rows != {} then rows else
              Added(f, categories, WithKinds(f, from, categories, kinds), from[kinds[i]])
  {
    assert KindUsed(f, from, categories, kinds, targets, i);
    var before := WithKinds(f, from, categories, kinds[..i]);
    var after := WithKinds(f, from, categories, kinds[..i + 1]);
    assert kinds[..i + 1][..i] == kinds[..i];
    AloneSelf(f, from, categories);
    AloneAfter(f, from, categories, categories, kinds[..i]);
    RowsNow(f, from, categories, before, kinds[i]);
    AloneMore(f, from, categories, before, kinds[i]);
    KeptAfter(f, from, categories, kinds, i + 1);
    RowsAre(f, from, before, kinds[i]);
    hide ShopCategoryMatches, First, WithKinds, KindsUsed;
    if RowsFor(f, from, categories, kinds[i]) == {} {
      hide RowsFor;
      assert targets[i] in Added(f, categories, after, from[kinds[i]]);
    }
  }

  /** Kinds that meet are used as one row, and kinds used as one row may meet. */
  lemma UsedTogether(f: Folding, from: map<Id, ShopCategory>, categories: map<Id, ShopCategory>, kinds: seq<Id>,
      targets: seq<Id>, i: nat, j: nat)
    requires SlugsApart(from) && KindsUsed(f, from, categories, kinds, targets) && i < j < |targets|
    ensures Meet(f, from, categories, kinds[i], kinds[j]) ==> targets[i] == targets[j]
    ensures targets[i] == targets[j] ==> MayMeet(f, from, categories, kinds[i], kinds[j])
  {
    TargetOf(f, from, categories, kinds, targets, i);
    TargetOf(f, from, categories, kinds, targets, j);
    var after := WithKinds(f, from, categories, kinds);
    AloneSelf(f, from, categories);
    AloneAfter(f, from, categories, categories, kinds);
    RowsAre(f, from, categories, kinds[i]);
    RowsAre(f, from, categories, kinds[j]);
    var x, y := RowsFor(f, from, categories, kinds[i]), RowsFor(f, from, categories, kinds[j]);
    hide RowsFor, WithKinds, KindsUsed;
    if x == {} && y == {} && SameKindName(f, from[kinds[i]], from[kinds[j]]) {
      AddedOnce(f, from, categories, after, from[kinds[i]], targets[i], targets[j]);
    }
    if x != {} && x == y && |x| <= 1 {
      OneOf(x, targets[i], targets[j]);
    }
    if targets[i] == targets[j] {
      assert x != {} && y != {} ==> targets[i] in x * y;
    }
  }

  lemma OneOf(x: set<Id>, t: Id, u: Id)
    requires |x| <= 1 && t in x && u in x
    ensures t == u
  {
    assert |x - {t}| == 0;
  }

  /**
   Before a shop's kinds are copied one can tell whether they will clash: always when two of them meet, and for a shop
   without links only when two may meet. MeetExactly says that on a target with its unique indexes the two conditions
   are one.
   */
  lemma KindsClash(f: Folding, from: map<Id, ShopCategory>, categories: map<Id, ShopCategory>, shop: Id,
      kinds: seq<Id>, targets: seq<Id>, links: set<(Id, Id)>)
    requires SlugsApart(from) && KindsUsed(f, from, categories, kinds, targets)
    ensures |targets| == |kinds| && Unlinked(shop, targets, links) ==> !KindsMeet(f, from, categories, kinds)
    ensures !Unlinked(shop, targets, links) && NoLinks(shop, links) ==> KindsMayMeet(f, from, categories, kinds)
  {
    forall i, j | 0 <= i < j < |targets|
      ensures Meet(f, from, categories, kinds[i], kinds[j]) ==> targets[i] == targets[j]
      ensures targets[i] == targets[j] ==> MayMeet(f, from, categories, kinds[i], kinds[j])
    {
      UsedTogether(f, from, categories, kinds, targets, i, j);
    }
    hide Meet, MayMeet, KindUsed;
  }

  ghost predicate NoLinks(shop: Id, links: set<(Id, Id)>) {
    forall t :: (shop, t) !in links
  }

  lemma KindsMeetStays(f: Folding, from: map<Id, ShopCategory>, was: map<Id, ShopCategory>,
      now: map<Id, ShopCategory>, kinds: seq<Id>)
    requires SlugsApart(from) && KindsAlone(f, from, was, now)
    ensures KindsMeet(f, from, was, kinds) ==> KindsMeet(f, from, now, kinds)
    ensures KindsMayMeet(f, from, now, kinds) ==> KindsMayMeet(f, from, was, kinds)
  {
    forall i, j | 0 <= i < j < |kinds|
      ensures Meet(f, from, was, kinds[i], kinds[j]) ==> Meet(f, from, now, kinds[i], kinds[j])
      ensures MayMeet(f, from, now, kinds[i], kinds[j]) ==> MayMeet(f, from, was, kinds[i], kinds[j])
    {
      MeetStays(f, from, was, now, kinds[i], kinds[j]);
    }
    hide Meet, MayMeet, KindsAlone;
  }

  /* ---- a shop's listings ---- */

  /** Some lookup of p could find row x: by id, by barcode, or by name and size, in whatever category. */
  predicate Resembles(f: Folding, id: Id, p: Product, x: Id, t: Product) {
    || x == id
    || (Present(p.gtin) && t.gtin == p.gtin)
    || (f.lower(t.name) == f.lower(p.name) && Variant(f, t) == Variant(f, p) && t.unit == p.unit && t.size == p.size)
  }

  /** No row of the table could be used for both. */
  predicate ApartIn(f: Folding, rows: map<Id, Product>, p: Id, a: Product, q: Id, b: Product) {
    forall x :: x in rows ==> !(Resembles(f, p, a, x, rows[x]) && Resembles(f, q, b, x, rows[x]))
  }

  /** Neither the target nor the export has a row that could be used for both products. */
  predicate ProductsApart(f: Folding, from: map<Id, Product>, products: map<Id, Product>, p: Id, q: Id) {
    p in from && q in from ==>
      ApartIn(f, products, p, from[p], q, from[q]) && ApartIn(f, from, p, from[p], q, from[q])
  }

  /** The exported listings have ids of their own, and a shop lists no two products that could become one. */
  predicate ListingsApart(f: Folding, b: Bundle, db: Db) {
    && (forall i :: 0 <= i < |b.listings| ==> b.listings[i].0 !in db.listings)
    && (forall i, j | 0 <= i < j < |b.listings| ::
          && b.listings[i].0 != b.listings[j].0
          && (b.listings[i].1.shop == b.listings[j].1.shop ==>
             ProductsApart(f, b.products, db.products, b.listings[i].1.product, b.listings[j].1.product)))
  }

  ghost predicate NoListings(shop: Id, listings: map<Id, Listing>) {
    forall l :: l in listings ==> listings[l].shop != shop
  }

  /** What a product is used for resembles it, on the target as it was or in the export. */
  lemma UsedResembles(
    f: Folding, from: map<Id, Product>, was: map<Id, Product>, now: map<Id, Product>, memo: map<Id, (Id, bool)>,
    categories: map<Id, Id>, subcategories: map<Id, Id>, brands: map<Id, Id>, p: Id)
    requires ProductsImported(f, from, was, now, memo, categories, subcategories, brands) && p in memo
    ensures p in from
    ensures var x := memo[p].0;
            if x in was then Resembles(f, p, from[p], x, was[x])
            else x in from && Resembles(f, p, from[p], x, from[x])
  {
    var x := memo[p].0;
    assert SameProduct(f, p, from[p], x, now[x], categories);
    if x !in was {
      assert AddedProduct(from[x], now[x], categories, subcategories, brands);
    }
  }

  lemma ApartUsed(
    f: Folding, from: map<Id, Product>, was: map<Id, Product>, now: map<Id, Product>, memo: map<Id, (Id, bool)>,
    categories: map<Id, Id>, subcategories: map<Id, Id>, brands: map<Id, Id>, p: Id, q: Id)
    requires ProductsImported(f, from, was, now, memo, categories, subcategories, brands) && p in memo && q in memo
    requires ProductsApart(f, from, was, p, q)
    ensures memo[p].0 != memo[q].0
  {
    UsedResembles(f, from, was, now, memo, categories, subcategories, brands, p);
    UsedResembles(f, from, was, now, memo, categories, subcategories, brands, q);
    hide ProductsImported, Resembles;
  }

  /** The k-th row collected comes from one of the export's listings. */
  lemma {:induction false} TranslationFrom(rows: seq<(Id, Listing)>, shop: Id, products: map<Id, (Id, bool)>, k: nat)
    returns (i: nat)
    requires k < |Translations(rows, shop, products)|
    ensures i < |rows| && rows[i].1.shop == shop && rows[i].1.product in products
    ensures Translations(rows, shop, products)[k]
         == (rows[i].0, rows[i].1.(product := products[rows[i].1.product].0))
  {
    var n := |rows| - 1;
    if k < |Translations(rows[..n], shop, products)| {
      i := TranslationFrom(rows[..n], shop, products, k);
    } else {
      i := n;
    }
  }

  /** A row the shop has not taken: its id is the export's own, and no listing on the target is the shop's. */
  lemma NewRow(
    b: Bundle, start: map<Id, Listing>, listings: map<Id, Listing>, products: map<Id, (Id, bool)>,
    shops: map<Id, Shop>, i: nat, row: Listing)
    requires ListingsImported(b.listings, start, listings, products, shops) && i < |b.listings|
    requires forall j, k | 0 <= j < k < |b.listings| :: b.listings[j].0 != b.listings[k].0
    requires b.listings[i].0 !in start && NoListings(b.listings[i].1.shop, listings) && row.shop == b.listings[i].1.shop
    ensures b.listings[i].0 !in listings && !Taken(listings, row)
  {
    var id := b.listings[i].0;
    if id in listings {
      assert ListingImported(b.listings, id, listings[id], products);
      var j :| 0 <= j < |b.listings| && b.listings[j].0 == id && listings[id].shop == b.listings[j].1.shop;
    }
  }

  lemma {:induction false} ApartFits(
    f: Folding, b: Bundle, start: Db, listings: map<Id, Listing>, now: map<Id, Product>, memo: map<Id, (Id, bool)>,
    categories: map<Id, Id>, subcategories: map<Id, Id>, brands: map<Id, Id>, shops: map<Id, Shop>, shop: Id, n: nat)
    requires ProductsImported(f, b.products, start.products, now, memo, categories, subcategories, brands)
    requires ListingsImported(b.listings, start.listings, listings, memo, shops)
    requires ListingsApart(f, b, start) && NoListings(shop, listings) && n <= |b.listings|
    ensures Fits(Translations(b.listings[..n], shop, memo), listings)
  {
    hide Fits, ProductsImported, ListingsImported, ListingsApart, NoListings;
    if n == 0 {
      NothingFilled([], listings);
      assert Translations(b.listings[..0], shop, memo) == [];
    } else {
      var m := n - 1;
      ApartFits(f, b, start, listings, now, memo, categories, subcategories, brands, shops, shop, m);
      TranslationAt(b.listings, m, shop, memo);
      hide Translations;
      var l := b.listings[m].1;
      if l.shop == shop && l.product in memo {
        OneRowFits(f, b, start, listings, now, memo, categories, subcategories, brands, shops, m);
      } else {
        assert Translations(b.listings[..m], shop, memo) + [] == Translations(b.listings[..m], shop, memo);
      }
    }
  }

  lemma ApartAllFit(
    f: Folding, b: Bundle, start: Db, db: Db, memo: map<Id, (Id, bool)>, categories: map<Id, Id>,
    subcategories: map<Id, Id>, brands: map<Id, Id>, shop: Id)
    requires ProductsImported(f, b.products, start.products, db.products, memo, categories, subcategories, brands)
    requires ListingsImported(b.listings, start.listings, db.listings, memo, db.shops)
    ensures ListingsApart(f, b, start) && NoListings(shop, db.listings) ==>
              Fits(Translations(b.listings, shop, memo), db.listings)
  {
    hide ProductsImported, ListingsImported, ListingsApart, NoListings, Fits, Translations;
    if ListingsApart(f, b, start) && NoListings(shop, db.listings) {
      ApartFits(f, b, start, db.listings, db.products, memo, categories, subcategories, brands, db.shops, shop,
          |b.listings|);
      assert b.listings[..|b.listings|] == b.listings;
    }
  }

  /** One listing more: its id, its shop's product and its product's row are new. */
  lemma OneRowFits(
    f: Folding, b: Bundle, start: Db, listings: map<Id, Listing>, now: map<Id, Product>, memo: map<Id, (Id, bool)>,
    categories: map<Id, Id>, subcategories: map<Id, Id>, brands: map<Id, Id>, shops: map<Id, Shop>, m: nat)
    requires ProductsImported(f, b.products, start.products, now, memo, categories, subcategories, brands)
    requires ListingsImported(b.listings, start.listings, listings, memo, shops)
    requires ListingsApart(f, b, start) && m < |b.listings| && b.listings[m].1.product in memo
    requires NoListings(b.listings[m].1.shop, listings)
    requires Fits(Translations(b.listings[..m], b.listings[m].1.shop, memo), listings)
    ensures var l := b.listings[m].1;
            Fits(Translations(b.listings[..m], l.shop, memo) + [(b.listings[m].0, l.(product := memo[l.product].0))],
                 listings)
  {
    var l := b.listings[m].1;
    var out, e := Translations(b.listings[..m], l.shop, memo), (b.listings[m].0, l.(product := memo[l.product].0));
    hide Fits, ProductsImported, ListingsImported, Taken, NoListings, Translations, ProductsApart;
    NewRow(b, start.listings, listings, memo, shops, m, e.1);
    FitsPlus(out, e, listings);
    forall k | 0 <= k < |out| ensures out[k].0 != e.0 && !SameOffer(out[k].1, e.1) {
      var i := TranslationFrom(b.listings[..m], l.shop, memo, k);
      assert b.listings[..m][i] == b.listings[i];
      ApartUsed(f, b.products, start.products, now, memo, categories, subcategories, brands,
          b.listings[i].1.product, l.product);
    }
  }

  /* ---- why a run can stop ---- */

  /** Nothing the export has can meet a unique index of the target. */
  ghost predicate Clashless(f: Folding, b: Bundle, db: Db) {
    ListingsApart(f, b, db) && KindsApart(f, b, db)
  }

  /** No exported shop has two kinds that may become one. */
  ghost predicate KindsApart(f: Folding, b: Bundle, db: Db) {
    && SlugsApart(b.shopCategories)
    && forall row :: row in b.mappings ==>
         !KindsMayMeet(f, b.shopCategories, db.shopCategories, Kinds(b.mappings, row.0))
  }

  /** Two of the shop's kinds become one. */
  ghost predicate KindTwins(f: Folding, b: Bundle, db: Db, shop: Id) {
    SlugsApart(b.shopCategories) && KindsMeet(f, b.shopCategories, db.shopCategories, Kinds(b.mappings, shop))
  }

  ghost predicate NoKindTwins(f: Folding, b: Bundle, start: Db, shops: map<Id, Shop>) {
    forall x :: x in shops && x !in start.shops ==> !KindTwins(f, b, start, x)
  }

  /** A shop that has to be copied has two kinds that become one. */
  ghost predicate KindTwinsToCopy(f: Folding, b: Bundle, db: Db) {
    exists i | 0 <= i < |b.shops| ::
      && Lone(f, b.shops, i) && !AlreadyThere(f, db.shops, b.shops[i].0, b.shops[i].1)
      && KindTwins(f, b, db, b.shops[i].0)
  }

  /** Why a run of this export can stop: each reason but the database's own has something to show for it. */
  ghost predicate Reason(f: Folding, b: Bundle, db: Db, why: Stop) {
    match why
    case Refused => true
    case Missing => !Whole(b)
    case OtherEmail => !EmailsAgree(f, b, db.users)
    case Clash => Closed(db) ==> !Clashless(f, b, db)
  }

  lemma LackingReason(f: Folding, b: Bundle, db: Db, why: Stop)
    requires Lacking(why, false, b)
    ensures Reason(f, b, db, why)
  {
  }

  lemma OwnerReason(f: Folding, b: Bundle, start: Db, db: Db, memo: map<Id, Id>, tally: Tally, id: Id, s: Shop,
      why: Stop)
    requires UsersState(f, b, start, db, memo, tally) && (id, s) in b.shops && why != Clash
    requires why == Missing ==> s.owner !in b.users
    requires why == OtherEmail ==>
               s.owner in b.users && s.owner in db.users
                   && f.lower(db.users[s.owner].email) != f.lower(b.users[s.owner].email)
    ensures Reason(f, b, start, why)
  {
    OwnerInside(b, id, s);
    hide UsersState, Whole, EmailsAgree, Closed, Clashless;
    if why == OtherEmail {
      EmailsDiffer(f, b, start, db, memo, tally, id, s);
    }
  }

  /** What came of a shop's kinds, in terms of the table before the run. */
  lemma KindsOutcome(f: Folding, b: Bundle, start: Db, now: map<Id, ShopCategory>, shop: Id, targets: seq<Id>,
      links: set<(Id, Id)>, r: Outcome<()>)
    requires KindsAlone(f, b.shopCategories, start.shopCategories, now)
    requires r.Ok? && SlugsApart(b.shopCategories) ==>
               !KindsMeet(f, b.shopCategories, now, Kinds(b.mappings, shop))
    requires r == Stopped(Clash) && SlugsApart(b.shopCategories) && NoLinks(shop, links) ==>
               KindsMayMeet(f, b.shopCategories, now, Kinds(b.mappings, shop))
    requires Closed(start) ==> NoLinks(shop, links)
    requires r.Stopped? ==> r.why == Clash || Lacking(r.why, false, b)
    ensures r.Ok? ==> !KindTwins(f, b, start, shop)
    ensures r.Stopped? ==> Reason(f, b, start, r.why)
  {
    hide KindsAlone, KindsMeet, NoLinks, Closed, Whole, EmailsAgree, ListingsApart, KindsApart, KindsMayMeet, Kinds;
    if SlugsApart(b.shopCategories) {
      KindsMeetStays(f, b.shopCategories, start.shopCategories, now, Kinds(b.mappings, shop));
      hide SlugsApart;
      if KindsMayMeet(f, b.shopCategories, start.shopCategories, Kinds(b.mappings, shop)) {
        NotApart(f, b, start, shop);
      }
    } else {
      assert !KindsApart(f, b, start) by { SlugsFirst(f, b, start); }
    }
  }

  lemma NotApart(f: Folding, b: Bundle, db: Db, shop: Id)
    requires KindsMayMeet(f, b.shopCategories, db.shopCategories, Kinds(b.mappings, shop))
    ensures !KindsApart(f, b, db)
  {
    hide MayMeet;
    var kinds := Kinds(b.mappings, shop);
    var i, j :| 0 <= i < j < |kinds| && MayMeet(f, b.shopCategories, db.shopCategories, kinds[i], kinds[j]);
    KindIn(b.mappings, shop, kinds[i]);
    assert (shop, kinds[i]) in b.mappings && (shop, kinds[i]).0 == shop;
  }

  lemma SlugsFirst(f: Folding, b: Bundle, db: Db)
    ensures KindsApart(f, b, db) ==> SlugsApart(b.shopCategories)
  {
  }

  /** A shop that is not on the target yet has no listings and no links there. */
  lemma NothingYet(
    f: Folding, b: Bundle, start: Db, db: Db, memo: map<Id, (Id, bool)>, shop: Id)
    requires Closed(start) && Kept(start.shops, db.shops) && shop !in db.shops
    requires ListingsImported(b.listings, start.listings, db.listings, memo, db.shops)
    requires OfShops(start.mappings, db.mappings, db.shops)
    ensures NoListings(shop, db.listings) && NoLinks(shop, db.mappings)
  {
    forall l | l in db.listings ensures db.listings[l].shop != shop {
      if l in start.listings {
        assert start.listings[l].shop in start.shops;
      }
    }
    forall t ensures (shop, t) !in db.mappings {
      assert (shop, t) in start.mappings ==> (shop, t).0 in start.shops;
    }
  }
}
