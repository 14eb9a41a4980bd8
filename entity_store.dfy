/**
 * The entity store the three services share: one table per entity, each row
 * stored under its own identity, with the store's referential rule that
 * every artwork names an existing artist and an existing category.
 */
module EntityStore {
  import opened Models
  import opened Tables

  class Store {
    var artists: Table<Artist>
    var categories: Table<Category>
    var artworks: Table<Artwork>

    /** Every table is well formed and each row is stored under its own id. */
    ghost predicate Valid()
      reads this
    {
      && artists.WellFormed()
      && categories.WellFormed()
      && artworks.WellFormed()
      && (forall k :: k in artists.rows ==> artists.rows[k].artistId == k)
      && (forall k :: k in categories.rows ==> categories.rows[k].categoryId == k)
      && (forall k :: k in artworks.rows ==> artworks.rows[k].artworkId == k)
    }

    /** Referential integrity: both foreign keys of every artwork resolve. */
    ghost predicate Consistent()
      reads this
    {
      && Valid()
      && (forall k :: k in artworks.rows ==>
            artworks.rows[k].artistId in artists.rows && artworks.rows[k].categoryId in categories.rows)
    }

    /** An empty store; each identity column starts at 1. */
    constructor ()
      ensures Consistent()
      ensures artists == Table(map[], [], 1)
      ensures categories == Table(map[], [], 1)
      ensures artworks == Table(map[], [], 1)
    {
      artists := Table(map[], [], 1);
      categories := Table(map[], [], 1);
      artworks := Table(map[], [], 1);
    }
  }
}
