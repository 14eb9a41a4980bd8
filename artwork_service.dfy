/**
 * ArtworkService: listing and finding artworks with the names of their
 * artist and category, adding, updating and deleting artworks, and moving an
 * artwork into or out of a category.
 *
 * `fault` stands for an exception thrown while saving (Some(text) carries its
 * message); `conflict` for the concurrency exception the update catches.
 */
module ArtworkService {
  import opened Models
  import opened Tables
  import opened EntityStore

  /**
   * Message of the exception the store raises when an insert breaks a
   * foreign-key constraint.
   */
  const SaveFailedText := "An error occurred while saving the entity changes. See the inner exception for details."

  /** The artwork view shared by ListArtworks and FindArtwork. */
  function ArtworkView(w: Artwork, artists: map<int, Artist>, categories: map<int, Category>): ArtworkDto
    requires w.artistId in artists && w.categoryId in categories
  {
    ArtworkDto(w.artworkId, w.title, w.datePosted, artists[w.artistId].name, categories[w.categoryId].cname, None, 0, 0)
  }

  /**
   * `d` shows the id, title and posting date of `w` and the names of the
   * artist and category its keys point at; description and the two keys are
   * left unset.
   */
  predicate Denormalises(d: ArtworkDto, w: Artwork, artists: map<int, Artist>, categories: map<int, Category>) {
    && w.artistId in artists && w.categoryId in categories
    && d.artworkId == w.artworkId && d.title == w.title && d.datePosted == w.datePosted
    && d.artistName == artists[w.artistId].name
    && d.categoryName == categories[w.categoryId].cname
    && d.description == None && d.artistId == 0 && d.categoryId == 0
  }

  /** One view per stored artwork, in the order the store lists them. */
  method ListArtworks(db: Store) returns (dtos: seq<ArtworkDto>)
    requires db.Consistent()
    ensures |dtos| == |db.artworks.order|
    ensures forall i :: 0 <= i < |dtos| ==>
      && db.artworks.order[i] in db.artworks.rows
      && dtos[i].artworkId == db.artworks.order[i]
      && Denormalises(dtos[i], db.artworks.rows[db.artworks.order[i]], db.artists.rows, db.categories.rows)
    ensures forall k :: k in db.artworks.rows ==> exists i :: 0 <= i < |dtos| && dtos[i].artworkId == k
    ensures forall i, j :: 0 <= i < j < |dtos| ==> dtos[i].artworkId != dtos[j].artworkId
  {
    dtos := [];
    for i := 0 to |db.artworks.order|
      invariant |dtos| == i
      invariant forall j :: 0 <= j < i ==>
        && dtos[j].artworkId == db.artworks.order[j]
        && Denormalises(dtos[j], db.artworks.rows[db.artworks.order[j]], db.artists.rows, db.categories.rows)
    {
      var k := db.artworks.order[i];
      assert k in db.artworks.rows;
      var w := db.artworks.rows[k];
      assert w.artistId in db.artists.rows && w.categoryId in db.categories.rows;
      dtos := dtos + [ArtworkView(w, db.artists.rows, db.categories.rows)];
    }
    forall k | k in db.artworks.rows
      ensures exists i :: 0 <= i < |dtos| && dtos[i].artworkId == k
    {
      var i :| 0 <= i < |db.artworks.order| && db.artworks.order[i] == k;
      assert dtos[i].artworkId == k;
    }
  }

  /** None exactly when no artwork has the id; otherwise the listing's view. */
  function FindArtwork(db: Store, id: int): (r: Option<ArtworkDto>)
    reads db
    requires db.Valid()
    requires id in db.artworks.rows ==>
      db.artworks.rows[id].artistId in db.artists.rows && db.artworks.rows[id].categoryId in db.categories.rows
    ensures r.None? <==> id !in db.artworks.rows
    ensures r.Some? ==>
      && r.value.artworkId == id
      && Denormalises(r.value, db.artworks.rows[id], db.artists.rows, db.categories.rows)
  {
    if id in db.artworks.rows then
      Some(ArtworkView(db.artworks.rows[id], db.artists.rows, db.categories.rows))
    else
      None
  }

  /**
   * Replaces every field of an existing artwork but its id. A payload whose
   * id differs from `id` is refused before the store is consulted. Only the
   * concurrency exception is caught, so the keys in the payload must resolve.
   */
  method UpdateArtwork(db: Store, id: int, dto: UpdateArtworkDto, conflict: bool) returns (r: ServiceResponse)
    requires db.Valid()
    requires id == dto.artworkId && id in db.artworks.rows ==>
      dto.artistId in db.artists.rows && dto.categoryId in db.categories.rows
    modifies db
    ensures db.Valid()
    ensures old(db.Consistent()) ==> db.Consistent()
    ensures db.artists == old(db.artists) && db.categories == old(db.categories)
    ensures id != dto.artworkId ==>
      r == Respond(Error, ["Artwork ID mismatch."]) && db.artworks == old(db.artworks)
    ensures id == dto.artworkId && id !in old(db.artworks.rows) ==>
      r == Respond(NotFound, ["Artwork not found."]) && db.artworks == old(db.artworks)
    ensures id == dto.artworkId && id in old(db.artworks.rows) && conflict ==>
      && r == Respond(Error, ["An error occurred updating the artwork."])
      && db.artworks == old(db.artworks)
    ensures id == dto.artworkId && id in old(db.artworks.rows) && !conflict ==>
      && r == Respond(Updated, ["Artwork with ID " + IdText(id) + " updated successfully."])
      && db.artworks == old(db.artworks).Put(id,
           Artwork(id, dto.title, dto.description, dto.datePosted, dto.artistId, dto.categoryId))
  {
    if id != dto.artworkId {
      return Respond(Error, ["Artwork ID mismatch."]);
    }
    if id !in db.artworks.rows {
      return Respond(NotFound, ["Artwork not found."]);
    }
    if conflict {
      return Respond(Error, ["An error occurred updating the artwork."]);
    }
    var w := Artwork(id, dto.title, dto.description, dto.datePosted, dto.artistId, dto.categoryId);
    db.artworks := db.artworks.Put(id, w);
    r := Respond(Updated, ["Artwork with ID " + IdText(id) + " updated successfully."]);
  }

  /**
   * Inserts a new artwork under the next identity value. The store refuses a
   * row whose artist or category does not exist, and the service reports any
   * refusal as Error.
   */
  method AddArtwork(db: Store, dto: AddArtworkDto, fault: Option<string>) returns (r: ServiceResponse)
    requires db.Valid()
    modifies db
    ensures db.Valid()
    ensures old(db.Consistent()) ==> db.Consistent()
    ensures db.artists == old(db.artists) && db.categories == old(db.categories)
    ensures fault.Some? || dto.artistId !in old(db.artists.rows) || dto.categoryId !in old(db.categories.rows) ==>
      && r.status == Error && r.createdId == 0
      && |r.messages| == 2 && r.messages[0] == "There was an error adding the Artwork."
      && db.artworks == old(db.artworks)
    ensures fault.None? && dto.artistId in old(db.artists.rows) && dto.categoryId in old(db.categories.rows) ==>
      && r.status == Created && r.messages == []
      && r.createdId == old(db.artworks.next) && r.createdId !in old(db.artworks.rows)
      && db.artworks == old(db.artworks).Insert(
           Artwork(r.createdId, dto.title, dto.description, dto.datePosted, dto.artistId, dto.categoryId))
  {
    if fault.Some? {
      return Respond(Error, ["There was an error adding the Artwork.", fault.value]);
    }
    if dto.artistId !in db.artists.rows || dto.categoryId !in db.categories.rows {
      return Respond(Error, ["There was an error adding the Artwork.", SaveFailedText]);
    }
    var id := db.artworks.next;
    db.artworks := db.artworks.Insert(
      Artwork(id, dto.title, dto.description, dto.datePosted, dto.artistId, dto.categoryId));
    r := ServiceResponse(Created, id, []);
  }

  /** Deletes one artwork; no artist or category is touched. */
  method DeleteArtwork(db: Store, id: int, fault: Option<string>) returns (r: ServiceResponse)
    requires db.Valid()
    modifies db
    ensures db.Valid()
    ensures old(db.Consistent()) ==> db.Consistent()
    ensures db.artists == old(db.artists) && db.categories == old(db.categories)
    ensures id !in old(db.artworks.rows) ==>
      && r == Respond(NotFound, ["Artwork cannot be deleted because it does not exist."])
      && db.artworks == old(db.artworks)
    ensures id in old(db.artworks.rows) && fault.Some? ==>
      && r == Respond(Error, ["Error encountered while deleting the artwork", fault.value])
      && db.artworks == old(db.artworks)
    ensures id in old(db.artworks.rows) && fault.None? ==>
      && r == Respond(Deleted, [])
      && db.artworks == old(db.artworks).Delete({id})
      && |db.artworks.rows| == |old(db.artworks.rows)| - 1
  {
    if id !in db.artworks.rows {
      return Respond(NotFound, ["Artwork cannot be deleted because it does not exist."]);
    }
    if fault.Some? {
      return Respond(Error, ["Error encountered while deleting the artwork", fault.value]);
    }
    db.artworks := db.artworks.Delete({id});
    r := Respond(Deleted, []);
  }

  /**
   * Files an artwork under a category. The artwork is looked up first, then
   * the category; an artwork already in that category is reported as
   * AlreadyExists and nothing changes. Otherwise only its category key moves.
   */
  method LinkArtworkToCategory(db: Store, artworkId: int, categoryId: int, fault: Option<string>)
    returns (r: ServiceResponse)
    requires db.Valid()
    modifies db
    ensures db.Valid()
    ensures old(db.Consistent()) ==> db.Consistent()
    ensures db.artists == old(db.artists) && db.categories == old(db.categories)
    ensures artworkId !in old(db.artworks.rows) ==>
      r == Respond(NotFound, ["Artwork not found."]) && db.artworks == old(db.artworks)
    ensures artworkId in old(db.artworks.rows) && categoryId !in old(db.categories.rows) ==>
      r == Respond(NotFound, ["Category not found."]) && db.artworks == old(db.artworks)
    ensures artworkId in old(db.artworks.rows) && categoryId in old(db.categories.rows)
            && old(db.artworks.rows)[artworkId].categoryId == categoryId ==>
      && r == Respond(AlreadyExists, ["Artwork is already linked to this category."])
      && db.artworks == old(db.artworks)
    ensures artworkId in old(db.artworks.rows) && categoryId in old(db.categories.rows)
            && old(db.artworks.rows)[artworkId].categoryId != categoryId && fault.Some? ==>
      && r == Respond(Error, ["An error occurred while linking the artwork to the category: " + fault.value])
      && db.artworks == old(db.artworks)
    ensures artworkId in old(db.artworks.rows) && categoryId in old(db.categories.rows)
            && old(db.artworks.rows)[artworkId].categoryId != categoryId && fault.None? ==>
      && r == Respond(Updated, ["Artwork with ID " + IdText(artworkId)
                                + " successfully linked to Category with ID " + IdText(categoryId) + "."])
      && db.artworks == old(db.artworks).Put(artworkId,
           old(db.artworks.rows)[artworkId].(categoryId := categoryId))
  {
    if artworkId !in db.artworks.rows {
      return Respond(NotFound, ["Artwork not found."]);
    }
    if categoryId !in db.categories.rows {
      return Respond(NotFound, ["Category not found."]);
    }
    var w := db.artworks.rows[artworkId];
    if w.categoryId == categoryId {
      return Respond(AlreadyExists, ["Artwork is already linked to this category."]);
    }
    if fault.Some? {
      return Respond(Error, ["An error occurred while linking the artwork to the category: " + fault.value]);
    }
    db.artworks := db.artworks.Put(artworkId, w.(categoryId := categoryId));
    r := Respond(Updated, ["Artwork with ID " + IdText(artworkId)
                           + " successfully linked to Category with ID " + IdText(categoryId) + "."]);
  }

  /**
   * What the store does with an artwork taken out of a category's collection
   * when its category key is required: delete the orphaned row, or give it
   * another category key. Which one happens is decided outside the service.
   */
  datatype Severance = DeleteOrphan | Repoint(categoryId: int)

  /** The category exists and the artwork is stored with its key. */
  predicate FiledUnder(db: Store, artworkId: int, categoryId: int)
    reads db
  {
    categoryId in db.categories.rows && artworkId in db.artworks.rows
    && db.artworks.rows[artworkId].categoryId == categoryId
  }

  /**
   * Takes an artwork out of a category. Only the category is looked up: an
   * artwork that does not exist, like one filed elsewhere, is NotLinked.
   * Nothing is caught around the save.
   */
  method UnlinkArtworkFromCategory(db: Store, artworkId: int, categoryId: int, severed: Severance)
    returns (r: ServiceResponse)
    requires db.Valid()
    requires severed.Repoint? ==> severed.categoryId != categoryId
    modifies db
    ensures db.Valid()
    ensures db.artists == old(db.artists) && db.categories == old(db.categories)
    ensures categoryId !in old(db.categories.rows) ==>
      r == Respond(NotFound, ["Category not found."]) && db.artworks == old(db.artworks)
    ensures categoryId in old(db.categories.rows)
            && (artworkId !in old(db.artworks.rows) || old(db.artworks.rows)[artworkId].categoryId != categoryId) ==>
      r == Respond(NotLinked, ["Artwork is not linked to this category."]) && db.artworks == old(db.artworks)
    ensures old(FiledUnder(db, artworkId, categoryId)) ==>
      && r == Respond(Updated, ["Artwork " + IdText(artworkId) + " successfully unlinked from Category "
                                + IdText(categoryId) + "."])
      && (artworkId !in db.artworks.rows || db.artworks.rows[artworkId].categoryId != categoryId)
    ensures old(FiledUnder(db, artworkId, categoryId)) && severed.DeleteOrphan? ==>
      db.artworks == old(db.artworks).Delete({artworkId})
    ensures old(FiledUnder(db, artworkId, categoryId)) && severed.Repoint? ==>
      db.artworks == old(db.artworks).Put(artworkId, old(db.artworks.rows)[artworkId].(categoryId := severed.categoryId))
    ensures old(FiledUnder(db, artworkId, categoryId)) && old(db.Consistent()) ==>
      (db.Consistent() <==> severed.DeleteOrphan? || severed.categoryId in db.categories.rows)
    ensures r.status != Updated && old(db.Consistent()) ==> db.Consistent()
  {
    if categoryId !in db.categories.rows {
      return Respond(NotFound, ["Category not found."]);
    }
    if artworkId !in db.artworks.rows || db.artworks.rows[artworkId].categoryId != categoryId {
      return Respond(NotLinked, ["Artwork is not linked to this category."]);
    }
    var w := db.artworks.rows[artworkId];
    match severed {
      case DeleteOrphan =>
        db.artworks := db.artworks.Delete({artworkId});
        assert old(db.Consistent()) ==> db.Consistent();
      case Repoint(c) =>
        db.artworks := db.artworks.Put(artworkId, w.(categoryId := c));
        assert db.artworks.rows[artworkId].categoryId == c;
        assert old(db.Consistent()) && c in db.categories.rows ==> db.Consistent();
    }
    r := Respond(Updated, ["Artwork " + IdText(artworkId) + " successfully unlinked from Category "
                           + IdText(categoryId) + "."]);
  }

  // ------------------------------------------------------- call sequences

  /**
   * Linking the same artwork to the same category twice: the first call
   * moves it, the second reports AlreadyExists and changes nothing.
   */
  method LinkTwice(db: Store, artworkId: int, categoryId: int) returns (first: ServiceResponse, second: ServiceResponse)
    requires db.Valid()
    requires artworkId in db.artworks.rows && categoryId in db.categories.rows
    requires db.artworks.rows[artworkId].categoryId != categoryId
    modifies db
    ensures db.Valid()
    ensures first.status == Updated && second.status == AlreadyExists
    ensures second == Respond(AlreadyExists, ["Artwork is already linked to this category."])
    ensures artworkId in db.artworks.rows && db.artworks.rows[artworkId].categoryId == categoryId
    ensures db.artworks == old(db.artworks).Put(artworkId, old(db.artworks.rows)[artworkId].(categoryId := categoryId))
    ensures db.artists == old(db.artists) && db.categories == old(db.categories)
  {
    first := LinkArtworkToCategory(db, artworkId, categoryId, None);
    ghost var afterFirst := db.artworks;
    second := LinkArtworkToCategory(db, artworkId, categoryId, None);
    assert db.artworks == afterFirst;
  }
}
