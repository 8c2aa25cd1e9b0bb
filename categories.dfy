/** The category handlers: a tree of categories linked by parent ids, with the guards on creating,
    re-parenting and deleting a node. */
module Categories {
  import opened Wrappers
  import opened Entities
  import opened Store

  /** Some item is filed under category `id`. */
  predicate HasItems(items: map<int, Item>, id: int) {
    exists k :: k in items && items[k].categoryId == id
  }

  /** Some category has `id` as its parent. */
  predicate HasChildren(cs: map<int, Category>, id: int) {
    exists k :: k in cs && cs[k].parentId == Some(id)
  }

  /** No category is its own parent. */
  predicate NoSelfParent(cs: map<int, Category>) {
    forall k :: k in cs ==> cs[k].parentId != Some(k)
  }

  /** Every parent id names a category. */
  predicate ParentsExist(cs: map<int, Category>) {
    forall k :: k in cs && cs[k].parentId.Some? ==> cs[k].parentId.value in cs
  }

  /** Create a category under an optional parent. The name is required; a given non-zero parent id that
      names no category is refused with 404 and a parent id of 0 is not looked up, so the foreign key
      refuses it (400) unless category 0 exists; a name another category has is refused by the unique
      index (400). */
  method Create(db: Db, name: Option<string>, description: Option<string>, parentId: Option<int>)
    returns (r: Result<int>)
    requires db.Valid()
    modifies db`categories, db`nextId
    ensures db.Valid()
    ensures !GivenText(name) ==> r == Err(400)
    ensures GivenText(name) && GivenId(parentId) && parentId.value !in old(db.categories) ==> r == Err(404)
    ensures GivenText(name) && CategoryNamed(old(db.categories), name.value) ==> r.Err?
    ensures r.Ok? <==> GivenText(name) && (parentId.Some? ==> parentId.value in old(db.categories))
                       && !CategoryNamed(old(db.categories), name.value)
    ensures r.Err? ==> db.categories == old(db.categories) && db.nextId == old(db.nextId)
    ensures r.Ok? ==>
              && r.value == old(db.nextId) && r.value !in old(db.categories)
              && db.categories == old(db.categories)[r.value := Category(name.value, description, parentId)]
    ensures r.Ok? && NoSelfParent(old(db.categories)) ==> NoSelfParent(db.categories)
    ensures r.Ok? && ParentsExist(old(db.categories)) ==> ParentsExist(db.categories)
  {
    if !GivenText(name) {
      return Err(400);
    }
    if GivenId(parentId) && parentId.value !in db.categories {
      return Err(404);
    }
    if parentId.Some? && parentId.value !in db.categories {
      return Err(400);
    }
    if CategoryNamed(db.categories, name.value) {
      return Err(400);
    }
    var id := db.AddCategory(Category(name.value, description, parentId));
    r := Ok(id);
  }

  /** `c` with every supplied field replaced; `Some(None)` clears the description or the parent. */
  function Patched(c: Category, name: Option<string>, description: Option<Option<string>>,
                   parentId: Option<Option<int>>): (r: Category)
    ensures r.name == name.GetOr(c.name) && r.description == description.GetOr(c.description)
    ensures r.parentId == parentId.GetOr(c.parentId)
  {
    Category(name.GetOr(c.name), description.GetOr(c.description), parentId.GetOr(c.parentId))
  }

  /** The parent the request asks for: a category id, not a clearing. */
  predicate NewParent(parentId: Option<Option<int>>) {
    parentId.Some? && parentId.value.Some?
  }

  /** The guards an update passes: the category exists, a non-zero parent id is not its own id, a given
      parent names a category, and a given name is not another category's. */
  predicate UpdateAccepted(cs: map<int, Category>, id: int, name: Option<string>, parentId: Option<Option<int>>) {
    && id in cs
    && !(NewParent(parentId) && parentId.value.value != 0 && parentId.value.value == id)
    && (NewParent(parentId) ==> parentId.value.value in cs)
    && !(name.Some? && NamedElsewhere(cs, name.value, id))
  }

  /** Change the supplied fields of category `id`. Making a category its own direct parent is refused;
      the check skips a parent id of 0, as 0 is falsy. A parent that names no category (the foreign key)
      and a name another category has (the unique index) are refused with 400. */
  method Update(db: Db, id: int, name: Option<string>, description: Option<Option<string>>,
                parentId: Option<Option<int>>)
    returns (r: Result<()>)
    requires db.Valid()
    modifies db`categories
    ensures db.Valid()
    ensures id !in old(db.categories) ==> r == Err(404)
    ensures id in old(db.categories) && id != 0 && parentId == Some(Some(id)) ==> r == Err(400)
    ensures id in old(db.categories) && name.Some? && NamedElsewhere(old(db.categories), name.value, id) ==> r.Err?
    ensures r.Ok? <==> UpdateAccepted(old(db.categories), id, name, parentId)
    ensures r.Err? ==> db.categories == old(db.categories)
    ensures r.Ok? ==> db.categories == old(db.categories)[id := Patched(old(db.categories)[id], name, description, parentId)]
    ensures r.Ok? && NoSelfParent(old(db.categories)) && !(id == 0 && parentId == Some(Some(0))) ==>
              NoSelfParent(db.categories)
    ensures r.Ok? && ParentsExist(old(db.categories)) ==> ParentsExist(db.categories)
  {
    if id !in db.categories {
      return Err(404);
    }
    if NewParent(parentId) && parentId.value.value != 0 && parentId.value.value == id {
      return Err(400);
    }
    if NewParent(parentId) && parentId.value.value !in db.categories {
      return Err(400);
    }
    if name.Some? && NamedElsewhere(db.categories, name.value, id) {
      return Err(400);
    }
    db.SetCategory(id, Patched(db.categories[id], name, description, parentId));
    r := Ok(());
  }

  /** Delete category `id`: refused while items are filed under it or it has subcategories, so no
      remaining item or category refers to it afterwards. */
  method Delete(db: Db, id: int) returns (r: Result<()>)
    requires db.Valid()
    modifies db`categories
    ensures db.Valid()
    ensures id !in old(db.categories) ==> r == Err(404)
    ensures id in old(db.categories) && (HasItems(db.items, id) || HasChildren(old(db.categories), id)) ==>
              r == Err(400)
    ensures r.Ok? <==> id in old(db.categories) && !HasItems(db.items, id) && !HasChildren(old(db.categories), id)
    ensures r.Err? ==> db.categories == old(db.categories)
    ensures r.Ok? ==> db.categories == old(db.categories) - {id}
    ensures r.Ok? ==> forall k :: k in db.items ==> db.items[k].categoryId != id
    ensures r.Ok? ==> forall k :: k in db.categories ==> db.categories[k].parentId != Some(id)
    ensures r.Ok? && ParentsExist(old(db.categories)) ==> ParentsExist(db.categories)
  {
    if id !in db.categories {
      return Err(404);
    }
    if HasItems(db.items, id) {
      return Err(400);
    }
    if HasChildren(db.categories, id) {
      return Err(400);
    }
    db.RemoveCategory(id);
    r := Ok(());
  }

  /** The parent of category `k`, following one link. */
  function ParentOf(cs: map<int, Category>, k: int): Option<int> {
    if k in cs then cs[k].parentId else None
  }

  /** The self-parent guard looks one link deep only: with 2 filed under 1, re-parenting 1 under 2 is
      accepted and leaves the cycle 1 → 2 → 1. */
  lemma TwoStepCycleAccepted()
    ensures
      var cs := map[1 := Category("a", None, None), 2 := Category("b", None, Some(1))];
      var cs' := cs[1 := Patched(cs[1], None, None, Some(Some(2)))];
      && UpdateAccepted(cs, 1, None, Some(Some(2)))
      && NoSelfParent(cs) && NoSelfParent(cs') && ParentsExist(cs')
      && ParentOf(cs', 1) == Some(2) && ParentOf(cs', 2) == Some(1)
  {
  }
}
