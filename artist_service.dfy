/**
 * ArtistService: listing and finding artists with the count and titles of
 * their artworks, and adding, updating and deleting artists. Deleting an
 * artist deletes its artworks through the store's cascade rule.
 *
 * `fault` stands for an exception thrown while saving (Some(text) carries its
 * message); `conflict` for the concurrency exception the update catches.
 */
module ArtistService {
  import opened Models
  import opened Tables
  import opened EntityStore
  import ArtworkService

  /** One view per stored artist, in the order the store lists them. */
  method ListArtists(db: Store) returns (dtos: seq<ArtistDto>)
    requires db.Valid()
    ensures |dtos| == |db.artists.order|
    ensures forall i :: 0 <= i < |dtos| ==>
      dtos[i].artistId == db.artists.order[i] &&
      dtos[i] == ArtistView(db.artists.rows[db.artists.order[i]], db.artworks)
    ensures forall k :: k in db.artists.rows ==> exists i :: 0 <= i < |dtos| && dtos[i].artistId == k
    ensures forall i, j :: 0 <= i < j < |dtos| ==> dtos[i].artistId != dtos[j].artistId
  {
    dtos := [];
    for i := 0 to |db.artists.order|
      invariant |dtos| == i
      invariant forall j :: 0 <= j < i ==>
        dtos[j].artistId == db.artists.order[j] &&
        dtos[j] == ArtistView(db.artists.rows[db.artists.order[j]], db.artworks)
    {
      dtos := dtos + [ArtistView(db.artists.rows[db.artists.order[i]], db.artworks)];
    }
    forall k | k in db.artists.rows
      ensures exists i :: 0 <= i < |dtos| && dtos[i].artistId == k
    {
      var i :| 0 <= i < |db.artists.order| && db.artists.order[i] == k;
      assert dtos[i].artistId == k;
    }
  }

  /** None exactly when no artist has the id; otherwise the listing's view. */
  function FindArtist(db: Store, id: int): (r: Option<ArtistDto>)
    reads db
    requires db.Valid()
    ensures r.None? <==> id !in db.artists.rows
    ensures r.Some? ==> r.value == ArtistView(db.artists.rows[id], db.artworks)
    ensures r.Some? ==>
      && r.value.artistId == id
      && r.value.name == db.artists.rows[id].name
      && r.value.bio == db.artists.rows[id].bio
      && r.value.totalArtworks == |r.value.artworksTitle| == |ChildKeys(db.artworks.rows, ByArtist(id))|
  {
    if id in db.artists.rows then
      ArtistViewAggregate(db.artists.rows[id], db.artworks);
      Some(ArtistView(db.artists.rows[id], db.artworks))
    else
      None
  }

  /**
   * Replaces name, bio and email of an existing artist. The id in the payload
   * is not compared with `id`, and the artist's artworks are not touched.
   */
  method UpdateArtist(db: Store, id: int, dto: UpdateArtistDto, conflict: bool) returns (r: ServiceResponse)
    requires db.Valid()
    modifies db
    ensures db.Valid()
    ensures old(db.Consistent()) ==> db.Consistent()
    ensures db.artworks == old(db.artworks) && db.categories == old(db.categories)
    ensures id !in old(db.artists.rows) ==>
      r == Respond(NotFound, ["Artist not found."]) && db.artists == old(db.artists)
    ensures id in old(db.artists.rows) && conflict ==>
      r == Respond(Error, ["An error occurred updating the record."]) && db.artists == old(db.artists)
    ensures id in old(db.artists.rows) && !conflict ==>
      && r == Respond(Updated, [])
      && db.artists == old(db.artists).Put(id, Artist(id, dto.name, dto.bio, dto.email))
  {
    if id !in db.artists.rows {
      return Respond(NotFound, ["Artist not found."]);
    }
    if conflict {
      return Respond(Error, ["An error occurred updating the record."]);
    }
    db.artists := db.artists.Put(id, Artist(id, dto.name, dto.bio, dto.email));
    r := Respond(Updated, []);
  }

  /** Inserts a new artist under the next identity value. */
  method AddArtist(db: Store, dto: AddArtistDto, fault: Option<string>) returns (r: ServiceResponse)
    requires db.Valid()
    modifies db
    ensures db.Valid()
    ensures old(db.Consistent()) ==> db.Consistent()
    ensures db.artworks == old(db.artworks) && db.categories == old(db.categories)
    ensures fault.Some? ==>
      && r == Respond(Error, ["There was an error adding the Artist.", fault.value])
      && db.artists == old(db.artists)
    ensures fault.None? ==>
      && r.status == Created && r.messages == []
      && r.createdId == old(db.artists.next) && r.createdId !in old(db.artists.rows)
      && db.artists == old(db.artists).Insert(Artist(r.createdId, dto.name, dto.bio, dto.email))
  {
    if fault.Some? {
      return Respond(Error, ["There was an error adding the Artist.", fault.value]);
    }
    var id := db.artists.next;
    db.artists := db.artists.Insert(Artist(id, dto.name, dto.bio, dto.email));
    r := ServiceResponse(Created, id, []);
  }

  /** Deletes an artist and, by the cascade rule, every artwork it owns. */
  method DeleteArtist(db: Store, id: int, fault: Option<string>) returns (r: ServiceResponse)
    requires db.Valid()
    modifies db
    ensures db.Valid()
    ensures old(db.Consistent()) ==> db.Consistent()
    ensures db.categories == old(db.categories)
    ensures id !in old(db.artists.rows) ==>
      && r == Respond(NotFound, ["Artist cannot be deleted because it does not exist."])
      && db.artists == old(db.artists) && db.artworks == old(db.artworks)
    ensures id in old(db.artists.rows) && fault.Some? ==>
      && r == Respond(Error, ["Error encountered while deleting the artist.", fault.value])
      && db.artists == old(db.artists) && db.artworks == old(db.artworks)
    ensures id in old(db.artists.rows) && fault.None? ==>
      && r == Respond(Deleted, [])
      && db.artists == old(db.artists).Delete({id})
      && db.artworks == old(db.artworks).Delete(ChildKeys(old(db.artworks.rows), ByArtist(id)))
      && (forall k :: k in old(db.artworks.rows) ==>
            (k in db.artworks.rows <==> old(db.artworks.rows)[k].artistId != id))
  {
    if id !in db.artists.rows {
      return Respond(NotFound, ["Artist cannot be deleted because it does not exist."]);
    }
    if fault.Some? {
      return Respond(Error, ["Error encountered while deleting the artist.", fault.value]);
    }
    db.artworks := db.artworks.Delete(ChildKeys(db.artworks.rows, ByArtist(id)));
    db.artists := db.artists.Delete({id});
    r := Respond(Deleted, []);
  }

  // ------------------------------------------------------- call sequences

  /**
   * Adding an artist and then finding it gives back the name and bio with no
   * artworks: identity values are never reused, so no artwork of a
   * consistent store can point at the new id.
   */
  method AddThenFindArtist(db: Store, dto: AddArtistDto) returns (r: ServiceResponse, found: Option<ArtistDto>)
    requires db.Consistent()
    modifies db
    ensures db.Consistent()
    ensures r.status == Created
    ensures found == Some(ArtistDto(r.createdId, dto.name, dto.bio, 0, []))
  {
    ghost var newId := db.artists.next;
    r := AddArtist(db, dto, None);
    forall k | k in db.artworks.rows ensures db.artworks.rows[k].artistId != newId {
      assert db.artworks.rows[k].artistId in old(db.artists.rows);
    }
    ghost var none := ChildKeys(db.artworks.rows, ByArtist(r.createdId));
    forall k ensures k !in none {
      if k in db.artworks.rows { assert !PointsAt(db.artworks.rows[k], ByArtist(r.createdId)); }
    }
    assert none == {};
    ghost var kids := Children(db.artworks, ByArtist(r.createdId));
    ChildAggregate(db.artworks, ByArtist(r.createdId));
    assert kids == [];
    assert Titles(kids, db.artworks.rows) == [];
    assert db.artists.rows[r.createdId] == Artist(r.createdId, dto.name, dto.bio, dto.email);
    found := FindArtist(db, r.createdId);
  }

  /**
   * After an artist is deleted neither the artist nor any of its former
   * artworks can be found.
   */
  method DeleteArtistThenFind(db: Store, id: int) returns (r: ServiceResponse)
    requires db.Consistent() && id in db.artists.rows
    modifies db
    ensures db.Consistent()
    ensures r.status == Deleted
    ensures id !in db.artists.rows && FindArtist(db, id).None?
    ensures forall k :: k in old(db.artworks.rows) && old(db.artworks.rows)[k].artistId == id ==>
      k !in db.artworks.rows && ArtworkService.FindArtwork(db, k).None?
    ensures |db.artworks.rows| == |old(db.artworks.rows)| - |ChildKeys(old(db.artworks.rows), ByArtist(id))|
  {
    ghost var before := db.artworks.rows;
    r := DeleteArtist(db, id, None);
    assert db.artworks.rows.Keys == before.Keys - ChildKeys(before, ByArtist(id));
    assert ChildKeys(before, ByArtist(id)) <= before.Keys;
  }
}
