/** Favorites: a set of (user, item type, item id) keys kept newest first. Adding is an
    upsert on the key, removing deletes the key, checking asks whether the key is there,
    and listing splits a user's keys by item type. */
module Favorites {
  import opened Common
  import opened Store

  function ItemTypeName(t: ItemType): string
  {
    match t
    case CelebrityItem => "celebrity"
    case ProductItem => "product"
    case DigitalProductItem => "digital_product"
  }

  /** The `itemType` enum of the favorite schemas. */
  function ParseItemType(s: string): (r: Option<ItemType>)
    ensures forall t :: r == Some(t) <==> ItemTypeName(t) == s
  {
    if s == "celebrity" then Some(CelebrityItem)
    else if s == "product" then Some(ProductItem)
    else if s == "digital_product" then Some(DigitalProductItem)
    else None
  }

  /** The favorites table keeps one row per key. */
  predicate NoDuplicates(favs: seq<Favorite>)
  {
    forall i, j :: 0 <= i < j < |favs| ==> favs[i] != favs[j]
  }

  /** The rows of `favs` that satisfy `p`, in their order. */
  function Where(favs: seq<Favorite>, p: Favorite -> bool): (r: seq<Favorite>)
    ensures forall g :: g in r <==> g in favs && p(g)
    ensures |r| <= |favs|
    ensures NoDuplicates(favs) ==> NoDuplicates(r)
  {
    if favs == [] then []
    else
      var rest := Where(favs[1..], p);
      assert forall g :: g in favs[1..] ==> g in favs;
      if p(favs[0]) then [favs[0]] + rest else rest
  }

  // ---------------------------------------------------------------- add and remove

  /** The table after the upsert of `f`: unchanged when the key is there, otherwise `f`
      comes first as the newest row. */
  function Added(favs: seq<Favorite>, f: Favorite): (r: seq<Favorite>)
    ensures f in r
    ensures forall g :: g in r <==> g in favs || g == f
    ensures f in favs ==> r == favs
    ensures f !in favs ==> r[1..] == favs && r[0] == f
  {
    if f in favs then favs else [f] + favs
  }

  /** The rows that do not carry the key of `f`. */
  function Other(f: Favorite): Favorite -> bool
  {
    (g: Favorite) => g != f
  }

  /** The table after deleting the rows with the key of `f`; every other row stays, in
      its order. */
  function Removed(favs: seq<Favorite>, f: Favorite): (r: seq<Favorite>)
    ensures forall g :: g in r <==> g in favs && g != f
    ensures f !in favs ==> r == favs
  {
    KeepAll(favs, Other(f));
    Where(favs, Other(f))
  }

  /** Filtering with a predicate every row satisfies keeps the sequence as it is. */
  lemma {:induction false} KeepAll(favs: seq<Favorite>, p: Favorite -> bool)
    ensures (forall g :: g in favs ==> p(g)) ==> Where(favs, p) == favs
  {
    if favs != [] && forall g :: g in favs ==> p(g) {
      assert forall g :: g in favs[1..] ==> g in favs;
      KeepAll(favs[1..], p);
      assert favs == [favs[0]] + favs[1..];
    }
  }

  /** `addFavorite`: DB_ERROR leaves the table as it was. */
  function FavoriteAddition(favs: seq<Favorite>, user: Id, itemType: ItemType, itemId: Id, writeOk: bool)
    : (res: (Result<()>, seq<Favorite>))
    ensures res.0.Ok? <==> writeOk
    ensures res.0.Err? ==> res.0.error == DbError && res.1 == favs
    ensures res.0.Ok? ==> res.1 == Added(favs, Favorite(user, itemType, itemId))
  {
    if !writeOk then (Err(DbError), favs) else (Ok(()), Added(favs, Favorite(user, itemType, itemId)))
  }

  method AddFavorite(db: Db, user: Id, itemType: ItemType, itemId: Id, writeOk: bool) returns (r: Result<()>)
    modifies db`favorites
    ensures (r, db.favorites) == FavoriteAddition(old(db.favorites), user, itemType, itemId, writeOk)
  {
    if !writeOk {
      return Err(DbError);
    }
    var f := Favorite(user, itemType, itemId);
    if f !in db.favorites {
      db.favorites := [f] + db.favorites;
    }
    r := Ok(());
  }

  /** `removeFavorite`: DB_ERROR leaves the table as it was. */
  function FavoriteRemoval(favs: seq<Favorite>, user: Id, itemType: ItemType, itemId: Id, writeOk: bool)
    : (res: (Result<()>, seq<Favorite>))
    ensures res.0.Ok? <==> writeOk
    ensures res.0.Err? ==> res.0.error == DbError && res.1 == favs
    ensures res.0.Ok? ==> res.1 == Removed(favs, Favorite(user, itemType, itemId))
  {
    if !writeOk then (Err(DbError), favs) else (Ok(()), Removed(favs, Favorite(user, itemType, itemId)))
  }

  method RemoveFavorite(db: Db, user: Id, itemType: ItemType, itemId: Id, writeOk: bool) returns (r: Result<()>)
    modifies db`favorites
    ensures (r, db.favorites) == FavoriteRemoval(old(db.favorites), user, itemType, itemId, writeOk)
  {
    if !writeOk {
      return Err(DbError);
    }
    db.favorites := Removed(db.favorites, Favorite(user, itemType, itemId));
    r := Ok(());
  }

  /** The upsert keeps one row per key, so adding twice is adding once. */
  lemma AddKeepsOneRowPerKey(favs: seq<Favorite>, f: Favorite)
    requires NoDuplicates(favs)
    ensures NoDuplicates(Added(favs, f))
    ensures Added(Added(favs, f), f) == Added(favs, f)
  {
    if f !in favs {
      var r := Added(favs, f);
      forall i, j | 0 <= i < j < |r| ensures r[i] != r[j] {
        if i == 0 {
          assert r[j] == favs[j - 1];
        } else {
          assert r[i] == favs[i - 1] && r[j] == favs[j - 1];
        }
      }
    }
  }

  /** Removing a key that was just added gives back the table from before the add. */
  lemma RemoveUndoesAdd(favs: seq<Favorite>, f: Favorite)
    requires f !in favs
    ensures Removed(Added(favs, f), f) == favs
  {
    var added := Added(favs, f);
    assert added == [f] + favs && added[1..] == favs;
    assert !Other(f)(added[0]);
    assert Where(added, Other(f)) == Where(favs, Other(f));
    assert Removed(favs, f) == favs;
  }

  // ---------------------------------------------------------------- check

  /** `checkFavorite`: VALIDATION_ERROR without an item type or an item id; otherwise
      whether the caller has the key. An item type outside the enum matches no row. */
  function CheckFavorite(favs: seq<Favorite>, user: Id, itemType: Option<string>, itemId: Option<string>)
    : (r: Result<bool>)
    ensures r == Err(ValidationError) <==> itemType.None? || itemType.value == "" || itemId.None? || itemId.value == ""
    ensures r.Ok? <==> itemType.Some? && itemType.value != "" && itemId.Some? && itemId.value != ""
    ensures r.Ok? ==>
      (r.value <==> exists t :: ItemTypeName(t) == itemType.value && Favorite(user, t, itemId.value) in favs)
  {
    if itemType.None? || itemType.value == "" || itemId.None? || itemId.value == "" then Err(ValidationError)
    else
      match ParseItemType(itemType.value)
      case None => Ok(false)
      case Some(t) => Ok(Favorite(user, t, itemId.value) in favs)
  }

  /** After an add the key checks true, after a remove it checks false. */
  lemma CheckFollowsAddAndRemove(favs: seq<Favorite>, user: Id, t: ItemType, itemId: Id)
    requires itemId != ""
    ensures CheckFavorite(Added(favs, Favorite(user, t, itemId)), user, Some(ItemTypeName(t)), Some(itemId)) == Ok(true)
    ensures CheckFavorite(Removed(favs, Favorite(user, t, itemId)), user, Some(ItemTypeName(t)), Some(itemId)) == Ok(false)
  {
    assert ParseItemType(ItemTypeName(t)) == Some(t);
  }

  // ---------------------------------------------------------------- list

  /** The three id lists `listFavorites` fetches details for. */
  datatype Grouped = Grouped(celebrities: seq<Id>, products: seq<Id>, digitalProducts: seq<Id>)

  /** The item ids of the rows of type `t`, in row order. */
  function IdsOf(favs: seq<Favorite>, t: ItemType): (ids: seq<Id>)
    ensures |ids| == |Where(favs, (g: Favorite) => g.itemType == t)|
    ensures forall id :: id in ids <==> exists g :: g in favs && g.itemType == t && g.itemId == id
  {
    if favs == [] then []
    else
      var rest := IdsOf(favs[1..], t);
      assert forall g :: g in favs <==> g == favs[0] || g in favs[1..];
      if favs[0].itemType == t then [favs[0].itemId] + rest else rest
  }

  /** The caller's rows, optionally of one type (an empty filter is no filter). */
  function Mine(favs: seq<Favorite>, user: Id, typeFilter: Option<string>): (m: seq<Favorite>)
    ensures forall g :: g in m <==>
      g in favs && g.userId == user &&
      (typeFilter.None? || typeFilter.value == "" || ItemTypeName(g.itemType) == typeFilter.value)
  {
    Where(favs, (g: Favorite) =>
      g.userId == user && (typeFilter.None? || typeFilter.value == "" || ItemTypeName(g.itemType) == typeFilter.value))
  }

  /** `listFavorites`, up to the detail queries: the caller's ids split by item type. */
  function ListFavorites(favs: seq<Favorite>, user: Id, typeFilter: Option<string>): (r: Grouped)
    ensures Mine(favs, user, typeFilter) == [] ==> r == Grouped([], [], [])
    ensures forall id :: id in r.celebrities <==> exists g :: g in Mine(favs, user, typeFilter) && g.itemType == CelebrityItem && g.itemId == id
    ensures forall id :: id in r.products <==> exists g :: g in Mine(favs, user, typeFilter) && g.itemType == ProductItem && g.itemId == id
    ensures forall id :: id in r.digitalProducts <==> exists g :: g in Mine(favs, user, typeFilter) && g.itemType == DigitalProductItem && g.itemId == id
  {
    var m := Mine(favs, user, typeFilter);
    if m == [] then Grouped([], [], [])
    else Grouped(IdsOf(m, CelebrityItem), IdsOf(m, ProductItem), IdsOf(m, DigitalProductItem))
  }

  /** Every row lands in exactly one of the three lists. */
  lemma {:induction false} SplitCounts(favs: seq<Favorite>)
    ensures |IdsOf(favs, CelebrityItem)| + |IdsOf(favs, ProductItem)| + |IdsOf(favs, DigitalProductItem)| == |favs|
  {
    if favs != [] {
      SplitCounts(favs[1..]);
    }
  }

  /** The three lists together hold as many ids as the caller has rows. */
  lemma ListIsPartition(favs: seq<Favorite>, user: Id, typeFilter: Option<string>)
    ensures var r := ListFavorites(favs, user, typeFilter);
      |r.celebrities| + |r.products| + |r.digitalProducts| == |Mine(favs, user, typeFilter)|
  {
    SplitCounts(Mine(favs, user, typeFilter));
  }
}
