/**
 * The item routes: the list filter, item creation with its image
 * normalisation and primary-image choice, and recording a request for an
 * item. The collection is an `ItemStore` holding the items in insertion
 * order; the full-text `$text` match is a predicate passed in.
 */
module ItemRoutes {
  import opened Wrappers
  import opened Strings
  import opened Sorting
  import opened ItemModel

  /** The signed-in user the auth layer attaches (`req.user`); `""` for an absent field. */
  datatype User = User(id: string, name: string, email: string, district: string)

  /** The Mongo filter of `GET /`: a field is present only when its parameter is non-empty. */
  datatype ListQuery = ListQuery(text: Option<string>, district: Option<string>, category: Option<string>)

  function BuildQuery(q: string, district: string, category: string): ListQuery {
    ListQuery(if q != "" then Some(q) else None,
              if district != "" then Some(district) else None,
              if category != "" then Some(category) else None)
  }

  predicate Matches(query: ListQuery, textMatch: (string, Item) -> bool, it: Item) {
    (query.text.Some? ==> textMatch(query.text.value, it)) &&
    (query.district.Some? ==> it.district == query.district.value) &&
    (query.category.Some? ==> it.category == query.category.value)
  }

  /** `.sort({ createdAt: -1 })` as an ascending key. */
  function Newest(it: Item): int {
    -it.createdAt
  }

  /** `Item.find(query).sort({ createdAt: -1 })`. */
  function ListItems(items: seq<Item>, query: ListQuery, textMatch: (string, Item) -> bool): seq<Item> {
    SortBy(Filter(items, (it: Item) => Matches(query, textMatch, it)), Newest)
  }

  /**
   * The list holds exactly the stored items that satisfy every supplied
   * parameter (and nothing is filtered by an empty one), each as often as it
   * is stored, newest first.
   */
  lemma ListItemsSpec(items: seq<Item>, q: string, district: string, category: string,
                      textMatch: (string, Item) -> bool)
    ensures var r := ListItems(items, BuildQuery(q, district, category), textMatch);
      (forall x :: x in r <==>
         x in items && (q != "" ==> textMatch(q, x)) &&
         (district != "" ==> x.district == district) && (category != "" ==> x.category == category)) &&
      (forall i, j :: 0 <= i < j < |r| ==> r[i].createdAt >= r[j].createdAt)
    ensures forall x ::
              multiset(ListItems(items, BuildQuery(q, district, category), textMatch))[x] ==
              if (q != "" ==> textMatch(q, x)) && (district != "" ==> x.district == district) &&
                 (category != "" ==> x.category == category)
              then multiset(items)[x] else 0
    ensures q == "" && district == "" && category == "" ==>
      multiset(ListItems(items, BuildQuery(q, district, category), textMatch)) == multiset(items)
  {
    var query := BuildQuery(q, district, category);
    var r := ListItems(items, query, textMatch);
    ListCounts(items, query, textMatch);
    ListNewestFirst(items, query, textMatch);
    assert forall x ::
             Matches(query, textMatch, x) ==
             ((q != "" ==> textMatch(q, x)) && (district != "" ==> x.district == district) &&
              (category != "" ==> x.category == category));
    forall x ensures x in r <==> x in items && Matches(query, textMatch, x) {
      assert x in r <==> multiset(r)[x] > 0;
      assert x in items <==> multiset(items)[x] > 0;
    }
    if q == "" && district == "" && category == "" {
      assert multiset(r) == multiset(items);
    }
  }

  /** Each stored item is listed as often as it is stored when it matches, and not at all otherwise. */
  lemma ListCounts(items: seq<Item>, query: ListQuery, textMatch: (string, Item) -> bool)
    ensures forall x ::
              multiset(ListItems(items, query, textMatch))[x] ==
              if Matches(query, textMatch, x) then multiset(items)[x] else 0
  {
    var f := Filter(items, (it: Item) => Matches(query, textMatch, it));
    assert multiset(ListItems(items, query, textMatch)) == multiset(f);
    forall x ensures multiset(f)[x] == if Matches(query, textMatch, x) then multiset(items)[x] else 0 {
      FilterMultiplicity(items, (it: Item) => Matches(query, textMatch, it), x);
    }
  }

  /** The list is newest first. */
  lemma ListNewestFirst(items: seq<Item>, query: ListQuery, textMatch: (string, Item) -> bool)
    ensures var r := ListItems(items, query, textMatch);
      forall i, j :: 0 <= i < j < |r| ==> r[i].createdAt >= r[j].createdAt
  {
    var r := ListItems(items, query, textMatch);
    forall i, j | 0 <= i < j < |r| ensures r[i].createdAt >= r[j].createdAt {
      assert Newest(r[i]) <= Newest(r[j]);
    }
  }

  /** The body of `POST /`; `images` is `None` when it is not an array, `primaryImageIndex` when it is not a number. */
  datatype CreateBody = CreateBody(
    title: string, description: string, category: string, district: string, city: string,
    condition: string, imageUrl: string, images: Option<seq<string>>, primaryImageIndex: Option<int>)

  /** The route's presence check: every one of the six fields is non-empty. */
  predicate HasRequiredFields(b: CreateBody) {
    b.title != "" && b.description != "" && b.category != "" && b.district != "" && b.city != "" &&
    b.condition != ""
  }

  /** `normalizedImages`: one entry per url, in order, flagged primary exactly at `primaryImageIndex`. */
  function NormalizedImages(images: Option<seq<string>>, primary: Option<int>): (r: seq<Image>)
    ensures images.None? ==> r == []
    ensures images.Some? ==>
      |r| == |images.value| &&
      forall i :: 0 <= i < |r| ==> r[i].url == images.value[i] && (r[i].isPrimary <==> primary == Some(i))
  {
    if images.Some? && |images.value| > 0 then
      var urls := images.value;
      seq(|urls|, (i: int) requires 0 <= i < |urls| => Image(urls[i], primary == Some(i)))
    else []
  }

  /** At most one image is primary, and one is exactly when the index points into the list. */
  lemma NormalizedImagesPrimary(images: Option<seq<string>>, primary: Option<int>)
    ensures var r := NormalizedImages(images, primary);
      (forall i, j :: 0 <= i < |r| && 0 <= j < |r| && r[i].isPrimary && r[j].isPrimary ==> i == j) &&
      ((exists i :: 0 <= i < |r| && r[i].isPrimary) <==>
         images.Some? && primary.Some? && 0 <= primary.value < |images.value|)
  {
    var r := NormalizedImages(images, primary);
    if images.Some? && primary.Some? && 0 <= primary.value < |images.value| {
      assert r[primary.value].isPrimary;
    }
  }

  /** `normalizedImages.find((img) => img.isPrimary)`. */
  function FindPrimary(imgs: seq<Image>): (r: Option<Image>)
    ensures r.Some? ==> exists i :: 0 <= i < |imgs| && imgs[i] == r.value && r.value.isPrimary
    ensures r.None? <==> forall i :: 0 <= i < |imgs| ==> !imgs[i].isPrimary
  {
    if imgs == [] then None
    else if imgs[0].isPrimary then Some(imgs[0])
    else
      var r := FindPrimary(imgs[1..]);
      assert forall i :: 1 <= i < |imgs| ==> imgs[i] == imgs[1..][i - 1];
      r
  }

  /** `primaryImage`: the primary url, the first url, the request's `imageUrl`, then the placeholder. */
  function PrimaryImage(imgs: seq<Image>, imageUrl: string): string {
    var p := FindPrimary(imgs);
    if p.Some? && p.value.url != "" then p.value.url
    else if imgs != [] && imgs[0].url != "" then imgs[0].url
    else if imageUrl != "" then imageUrl
    else PlaceholderImage
  }

  /**
   * The stored `imageUrl` in terms of the request: the url at
   * `primaryImageIndex` when that is in range and non-empty, else the first
   * url when non-empty, else `imageUrl` when non-empty, else the placeholder.
   */
  lemma PrimaryImageChoice(images: Option<seq<string>>, primary: Option<int>, imageUrl: string)
    ensures var u := PrimaryImage(NormalizedImages(images, primary), imageUrl);
      var urls := if images.Some? then images.value else [];
      u != "" &&
      u == (if primary.Some? && 0 <= primary.value < |urls| && urls[primary.value] != "" then urls[primary.value]
            else if urls != [] && urls[0] != "" then urls[0]
            else if imageUrl != "" then imageUrl
            else PlaceholderImage)
  {
    var r := NormalizedImages(images, primary);
    NormalizedImagesPrimary(images, primary);
    var p := FindPrimary(r);
    if p.Some? {
      var i :| 0 <= i < |r| && r[i] == p.value && p.value.isPrimary;
      assert primary == Some(i);
    }
  }

  /** The item `POST /` stores: the title trimmed by the schema, the owner fields from the user, the hook's slug. */
  function NewItem(user: User, b: CreateBody, id: string, now: int): Item {
    var title := Trim(b.title);
    var imgs := NormalizedImages(b.images, b.primaryImageIndex);
    Item(id, title, b.description, b.category, b.district, b.city, b.condition,
         PrimaryImage(imgs, b.imageUrl), imgs, DefaultStatus,
         SlugOnSave("", title, b.city, b.district, id, {"title", "city", "district"}),
         user.id, user.name, user.district, [], now)
  }

  /** A new item is available, has no requests, belongs to the user and carries a slug ending in its id's last six characters. */
  lemma NewItemFields(user: User, b: CreateBody, id: string, now: int)
    ensures var it := NewItem(user, b, id, now);
      it.status == Available && it.requests == [] && it.imageUrl != "" &&
      it.owner == user.id && it.ownerName == user.name && it.ownerDistrict == user.district &&
      it.slug == BuildSlug(Trim(b.title), b.city, b.district, id) &&
      it.slug[|it.slug| - |LastChars(id, 6)|..] == LastChars(id, 6) &&
      |it.images| == (if b.images.Some? then |b.images.value| else 0)
  {
    PrimaryImageChoice(b.images, b.primaryImageIndex, b.imageUrl);
    var it := NewItem(user, b, id, now);
    var base := Slugify(SlugBase(Trim(b.title), b.city, b.district));
    var head := (if base != "" then base else "item") + "-";
    assert it.slug == head + LastChars(id, 6);
  }

  /** The user-id of a request, the key requests are told apart by. */
  function Requester(r: Request): string {
    r.user
  }

  /** `item.requests?.some((r) => r.user?.toString() === userId)`. */
  predicate AlreadyRequested(it: Item, userId: string) {
    exists k :: 0 <= k < |it.requests| && it.requests[k].user == userId
  }

  /** Position of the item with this id. */
  function IndexOfItem(items: seq<Item>, id: string): (r: Option<nat>)
    ensures r.Some? ==> r.value < |items| && items[r.value].id == id
    ensures r.None? <==> forall k :: 0 <= k < |items| ==> items[k].id != id
  {
    if items == [] then None
    else if items[0].id == id then Some(0)
    else
      var r := IndexOfItem(items[1..], id);
      assert forall k :: 1 <= k < |items| ==> items[k] == items[1..][k - 1];
      if r.Some? then Some(r.value + 1) else None
  }

  /** Some item other than the one at `except` has this slug (the unique index on `slug`). */
  predicate SlugTaken(items: seq<Item>, slug: string, except: int) {
    exists k :: 0 <= k < |items| && k != except && items[k].slug == slug
  }

  /** Ids are unique, present slugs are unique, and nobody has requested an item twice. */
  predicate ValidItems(items: seq<Item>) {
    (forall i, j :: 0 <= i < j < |items| ==> items[i].id != items[j].id) &&
    (forall i, j :: 0 <= i < |items| && 0 <= j < |items| && i != j && items[i].slug != "" ==>
       items[i].slug != items[j].slug) &&
    (forall i :: 0 <= i < |items| ==> DistinctBy(items[i].requests, Requester))
  }

  /** Replacing an item by one with the same id, a free slug and distinct requesters keeps the collection valid. */
  lemma UpdateValid(items: seq<Item>, k: nat, it: Item)
    requires ValidItems(items) && k < |items| && it.id == items[k].id
    requires it.slug == items[k].slug || !SlugTaken(items, it.slug, k)
    requires DistinctBy(it.requests, Requester)
    ensures ValidItems(items[k := it])
  {
  }

  /** Appending an item with a fresh id and a free slug keeps the collection valid. */
  lemma AppendValid(items: seq<Item>, it: Item)
    requires ValidItems(items) && (forall k :: 0 <= k < |items| ==> items[k].id != it.id)
    requires !SlugTaken(items, it.slug, -1) && it.requests == []
    ensures ValidItems(items + [it])
  {
    var r := items + [it];
    assert forall i :: 0 <= i < |items| ==> r[i] == items[i];
  }

  /** The collection of items. */
  class ItemStore {
    var items: seq<Item>

    ghost predicate Valid()
      reads this
    {
      ValidItems(items)
    }

    constructor ()
      ensures items == [] && Valid()
    {
      items := [];
    }

    /**
     * `POST /`: 400 when a required field is missing; 500 when the trimmed
     * title is empty (the schema's `required`) or the slug is taken (the unique
     * index); otherwise the new item is appended and returned with 201.
     * `freshId` is the new document's `_id`.
     */
    method CreateItem(user: User, b: CreateBody, freshId: string, now: int) returns (status: int, created: Option<Item>)
      requires Valid() && user.id != ""
      requires forall k :: 0 <= k < |items| ==> items[k].id != freshId
      modifies this
      ensures Valid()
      ensures !HasRequiredFields(b) ==> status == 400
      ensures HasRequiredFields(b) && Trim(b.title) == "" ==> status == 500
      ensures status == 201 <==>
        HasRequiredFields(b) && Trim(b.title) != "" && !SlugTaken(old(items), NewItem(user, b, freshId, now).slug, -1)
      ensures status != 201 ==> created.None? && items == old(items)
      ensures status == 201 ==>
        created == Some(NewItem(user, b, freshId, now)) && items == old(items) + [created.value]
    {
      if !HasRequiredFields(b) {
        return 400, None;
      }
      if Trim(b.title) == "" {
        return 500, None;
      }
      var it := NewItem(user, b, freshId, now);
      if SlugTaken(items, it.slug, -1) {
        return 500, None;
      }
      AppendValid(items, it);
      items := items + [it];
      status, created := 201, Some(it);
    }

    /**
     * `POST /:id/request`: 404 for an unknown item, 400 when the user has
     * already asked; otherwise one request is appended and the document saved,
     * which runs the slug hook with only `requests` modified (500 if a rebuilt
     * slug is taken).
     */
    method RequestItem(user: User, itemId: string) returns (status: int)
      requires Valid() && user.id != ""
      modifies this
      ensures Valid()
      ensures IndexOfItem(old(items), itemId).None? ==> status == 404 && items == old(items)
      ensures IndexOfItem(old(items), itemId).Some? ==>
        var k := IndexOfItem(old(items), itemId).value;
        var it := old(items)[k];
        var slug := SlugOnSave(it.slug, it.title, it.city, it.district, it.id, {"requests"});
        (AlreadyRequested(it, user.id) ==> status == 400 && items == old(items)) &&
        (!AlreadyRequested(it, user.id) && slug != it.slug && SlugTaken(old(items), slug, k) ==>
           status == 500 && items == old(items)) &&
        (!AlreadyRequested(it, user.id) && !(slug != it.slug && SlugTaken(old(items), slug, k)) ==>
           status == 200 &&
           items == old(items)[k := it.(requests := it.requests + [Request(user.id, user.email, user.name)],
                                        slug := slug)])
    {
      var found := IndexOfItem(items, itemId);
      if found.None? {
        return 404;
      }
      var k := found.value;
      var it := items[k];
      if AlreadyRequested(it, user.id) {
        return 400;
      }
      var slug := SlugOnSave(it.slug, it.title, it.city, it.district, it.id, {"requests"});
      if slug != it.slug && SlugTaken(items, slug, k) {
        return 500;
      }
      var reqs := it.requests + [Request(user.id, user.email, user.name)];
      assert DistinctBy(reqs, Requester) by {
        assert forall j :: 0 <= j < |it.requests| ==> Requester(reqs[j]) != user.id;
      }
      UpdateValid(items, k, it.(requests := reqs, slug := slug));
      items := items[k := it.(requests := reqs, slug := slug)];
      status := 200;
    }
  }

  /** After a recorded request the user counts as having requested, so asking again is refused. */
  lemma RequestRecordedOnce(it: Item, user: User)
    ensures AlreadyRequested(it.(requests := it.requests + [Request(user.id, user.email, user.name)]), user.id)
  {
    var r := it.requests + [Request(user.id, user.email, user.name)];
    assert r[|r| - 1].user == user.id;
  }
}
