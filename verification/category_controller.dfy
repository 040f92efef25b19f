/** The category routes of the server: owner-scoped list and create. */
module CategoryController {
  import opened Wrappers
  import opened DateCodec
  import opened Records

  datatype CategoryStore = CategoryStore(categories: map<CategoryId, Category>, nextId: CategoryId)

  predicate GoodCategories(s: CategoryStore) {
    forall id :: id in s.categories ==> id < s.nextId && s.categories[id].id == id
  }

  datatype CategoryAnswer =
    | Created(category: Category)
    | Listed(categories: seq<Category>)
    | Refused(status: nat, message: string)

  /** The categories of `user` among ids below n, in id order. */
  function CategoriesBelow(cats: map<CategoryId, Category>, user: UserId, n: nat): (r: seq<Category>)
    ensures forall i :: 0 <= i < |r| ==> r[i] in cats.Values && r[i].user == user
    decreases n
  {
    if n == 0 then []
    else
      var k := n - 1;
      CategoriesBelow(cats, user, k)
        + (if k in cats && cats[k].user == user then [cats[k]] else [])
  }

  lemma {:induction false} CategoriesBelowComplete(cats: map<CategoryId, Category>, user: UserId, n: nat)
    ensures forall id :: id < n && id in cats && cats[id].user == user ==> cats[id] in CategoriesBelow(cats, user, n)
  {
    if n > 0 {
      CategoriesBelowComplete(cats, user, n - 1);
    }
  }

  /** GET /api/categories: exactly the requester's categories (Category.find({ user })). */
  function ListCategories(s: CategoryStore, user: UserId): (r: CategoryAnswer)
    requires GoodCategories(s)
    ensures r.Listed?
    ensures forall c :: c in r.categories ==> c.user == user && c.id in s.categories && s.categories[c.id] == c
    ensures forall id :: id in s.categories && s.categories[id].user == user ==> s.categories[id] in r.categories
  {
    CategoriesBelowComplete(s.categories, user, s.nextId);
    Listed(CategoriesBelow(s.categories, user, s.nextId))
  }

  /** POST /api/categories: a missing or empty name is refused with 400; otherwise a new
      category owned by the requester is stored, its colour defaulting to black. */
  function CreateCategory(s: CategoryStore, user: UserId, name: Option<string>, color: Option<string>, now: Instant)
    : (r: (CategoryStore, CategoryAnswer))
    requires GoodCategories(s)
    ensures GoodCategories(r.0)
    ensures MissingText(name) ==> r == (s, Refused(400, "Please add a category name"))
    ensures !MissingText(name) ==> r.1.Created?
    ensures r.1.Created? ==>
      r.1.category.id !in s.categories && r.0.categories == s.categories[r.1.category.id := r.1.category]
    ensures r.1.Created? ==> r.1.category.user == user && Some(r.1.category.name) == name
    ensures r.1.Created? ==> r.1.category.color == (if color.Some? then color.value else DefaultColor)
  {
    if MissingText(name) then (s, Refused(400, "Please add a category name"))
    else
      var c := BuildCategory(s.nextId, user, name, color, now);
      (CategoryStore(s.categories[s.nextId := c.value], s.nextId + 1), Created(c.value))
  }

  /** A category created by one user never shows up in another user's list. */
  lemma CreatedCategoryIsPrivate(s: CategoryStore, user: UserId, other: UserId, name: Option<string>, color: Option<string>, now: Instant)
    requires GoodCategories(s) && other != user
    ensures var r := CreateCategory(s, user, name, color, now);
      GoodCategories(r.0) && ListCategories(r.0, other).categories == ListCategories(s, other).categories
  {
    var r := CreateCategory(s, user, name, color, now);
    if r.1.Created? {
      CategoriesFrame(s.categories, r.0.categories, other, s.nextId);
    }
  }

  /** Adding a category of another owner at id n does not change the list below n + 1. */
  lemma {:induction false} CategoriesFrame(before: map<CategoryId, Category>, after: map<CategoryId, Category>, user: UserId, n: nat)
    requires forall k :: k < n ==> (k in before <==> k in after) && (k in before ==> before[k] == after[k])
    requires n in after && after[n].user != user
    requires n !in before
    ensures CategoriesBelow(after, user, n + 1) == CategoriesBelow(before, user, n + 1)
  {
    BelowAgrees(before, after, user, n);
  }

  lemma {:induction false} BelowAgrees(a: map<CategoryId, Category>, b: map<CategoryId, Category>, user: UserId, n: nat)
    requires forall k :: k < n ==> (k in a <==> k in b) && (k in a ==> a[k] == b[k])
    ensures CategoriesBelow(a, user, n) == CategoriesBelow(b, user, n)
  {
    if n > 0 {
      BelowAgrees(a, b, user, n - 1);
    }
  }
}
