/**
 * CategoryService: listing and finding categories with the count and titles
 * of their artworks, and adding, updating and deleting categories.
 *
 * The rule the store applies to the artworks of a deleted category is taken
 * to be a cascade, as for artists; the migration that configures the
 * category key is not part of this model.
 */
module CategoryService {
  import opened Models
  import opened Tables
  import opened EntityStore

  /** One view per stored category, in the order the store lists them. */
  method ListCategories(db: Store) returns (dtos: seq<CategoryDto>)
    requires db.Valid()
    ensures |dtos| == |db.categories.order|
    ensures forall i :: 0 <= i < |dtos| ==>
      dtos[i].categoryId == db.categories.order[i] &&
      dtos[i] == CategoryView(db.categories.rows[db.categories.order[i]], db.artworks)
    ensures forall k :: k in db.categories.rows ==> exists i :: 0 <= i < |dtos| && dtos[i].categoryId == k
    ensures forall i, j :: 0 <= i < j < |dtos| ==> dtos[i].categoryId != dtos[j].categoryId
  {
    dtos := [];
    for i := 0 to |db.categories.order|
      invariant |dtos| == i
      invariant forall j :: 0 <= j < i ==>
        dtos[j].categoryId == db.categories.order[j] &&
        dtos[j] == CategoryView(db.categories.rows[db.categories.order[j]], db.artworks)
    {
      dtos := dtos + [CategoryView(db.categories.rows[db.categories.order[i]], db.artworks)];
    }
    forall k | k in db.categories.rows
      ensures exists i :: 0 <= i < |dtos| && dtos[i].categoryId == k
    {
      var i :| 0 <= i < |db.categories.order| && db.categories.order[i] == k;
      assert dtos[i].categoryId == k;
    }
  }

  /** None exactly when no category has the id; otherwise the listing's view. */
  function FindCategory(db: Store, id: int): (r: Option<CategoryDto>)
    reads db
    requires db.Valid()
    ensures r.None? <==> id !in db.categories.rows
    ensures r.Some? ==> r.value == CategoryView(db.categories.rows[id], db.artworks)
    ensures r.Some? ==>
      && r.value.categoryId == id
      && r.value.cname == db.categories.rows[id].cname
      && r.value.dateCreated == db.categories.rows[id].dateCreated
      && r.value.totalArtworks == |r.value.artworksTitle| == |ChildKeys(db.artworks.rows, InCategory(id))|
  {
    if id in db.categories.rows then
      CategoryViewAggregate(db.categories.rows[id], db.artworks);
      Some(CategoryView(db.categories.rows[id], db.artworks))
    else
      None
  }

  /**
   * Replaces the name and creation date of an existing category. A payload
   * whose id differs from `id` is refused before the store is consulted.
   */
  method UpdateCategory(db: Store, id: int, dto: UpdateCategoryDto, conflict: bool) returns (r: ServiceResponse)
    requires db.Valid()
    modifies db
    ensures db.Valid()
    ensures old(db.Consistent()) ==> db.Consistent()
    ensures db.artworks == old(db.artworks) && db.artists == old(db.artists)
    ensures id != dto.categoryId ==>
      r == Respond(Error, ["Category ID mismatch."]) && db.categories == old(db.categories)
    ensures id == dto.categoryId && id !in old(db.categories.rows) ==>
      r == Respond(NotFound, ["Category not found."]) && db.categories == old(db.categories)
    ensures id == dto.categoryId && id in old(db.categories.rows) && conflict ==>
      && r == Respond(Error, ["An error occurred while updating the category."])
      && db.categories == old(db.categories)
    ensures id == dto.categoryId && id in old(db.categories.rows) && !conflict ==>
      && r == Respond(Updated, [])
      && db.categories == old(db.categories).Put(id, Category(id, dto.cname, dto.dateCreated))
  {
    if id != dto.categoryId {
      return Respond(Error, ["Category ID mismatch."]);
    }
    if id !in db.categories.rows {
      return Respond(NotFound, ["Category not found."]);
    }
    if conflict {
      return Respond(Error, ["An error occurred while updating the category."]);
    }
    db.categories := db.categories.Put(id, Category(id, dto.cname, dto.dateCreated));
    r := Respond(Updated, []);
  }

  /** Inserts a new category under the next identity value. */
  method AddCategory(db: Store, dto: AddCategoryDto, fault: Option<string>) returns (r: ServiceResponse)
    requires db.Valid()
    modifies db
    ensures db.Valid()
    ensures old(db.Consistent()) ==> db.Consistent()
    ensures db.artworks == old(db.artworks) && db.artists == old(db.artists)
    ensures fault.Some? ==>
      && r == Respond(Error, ["There was an error adding the category.", fault.value])
      && db.categories == old(db.categories)
    ensures fault.None? ==>
      && r.status == Created && r.messages == []
      && r.createdId == old(db.categories.next) && r.createdId !in old(db.categories.rows)
      && db.categories == old(db.categories).Insert(Category(r.createdId, dto.cname, dto.dateCreated))
  {
    if fault.Some? {
      return Respond(Error, ["There was an error adding the category.", fault.value]);
    }
    var id := db.categories.next;
    db.categories := db.categories.Insert(Category(id, dto.cname, dto.dateCreated));
    r := ServiceResponse(Created, id, []);
  }

  /** Deletes a category and the artworks filed under it. */
  method DeleteCategory(db: Store, id: int, fault: Option<string>) returns (r: ServiceResponse)
    requires db.Valid()
    modifies db
    ensures db.Valid()
    ensures old(db.Consistent()) ==> db.Consistent()
    ensures db.artists == old(db.artists)
    ensures id !in old(db.categories.rows) ==>
      && r == Respond(NotFound, ["Category cannot be deleted because it does not exist."])
      && db.categories == old(db.categories) && db.artworks == old(db.artworks)
    ensures id in old(db.categories.rows) && fault.Some? ==>
      && r == Respond(Error, ["Error encountered while deleting the category."])
      && db.categories == old(db.categories) && db.artworks == old(db.artworks)
    ensures id in old(db.categories.rows) && fault.None? ==>
      && r == Respond(Deleted, [])
      && db.categories == old(db.categories).Delete({id})
      && db.artworks == old(db.artworks).Delete(ChildKeys(old(db.artworks.rows), InCategory(id)))
      && (forall k :: k in old(db.artworks.rows) ==>
            (k in db.artworks.rows <==> old(db.artworks.rows)[k].categoryId != id))
  {
    if id !in db.categories.rows {
      return Respond(NotFound, ["Category cannot be deleted because it does not exist."]);
    }
    if fault.Some? {
      return Respond(Error, ["Error encountered while deleting the category."]);
    }
    db.artworks := db.artworks.Delete(ChildKeys(db.artworks.rows, InCategory(id)));
    db.categories := db.categories.Delete({id});
    r := Respond(Deleted, []);
  }
}
