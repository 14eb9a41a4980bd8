# MuseAndMasterpiece catalogue services in Dafny

A model of the service layer of the MuseAndMasterpiece catalogue. The catalogue keeps
three tables: artists, categories and artworks. Every artwork carries the key of one
artist and one category. Three services read and change the tables:

- **ArtistService** lists and finds artists, each with the number and titles of its artworks. It also adds, updates and deletes artists; deleting an artist deletes its artworks.
- **CategoryService** does the same for categories.
- **ArtworkService** lists and finds artworks with the names of their artist and category. It adds, updates and deletes artworks. It also files an artwork under a category (link) or takes it out (unlink).

Every changing operation answers with a `ServiceResponse`: one of seven statuses, the
created id and a list of messages.

Layout:

- `models.dfy` (module `Models`): the records, the request and view shapes, and the
  response with its status.
- `tables.dfy` (module `Tables`): `Table<T>` (rows by key, listing order, next identity
  value) with insert, replace and delete. It also holds the aggregate views, which count
  and name the artworks whose key points at an artist or a category.
- `entity_store.dfy` (module `EntityStore`): the class `Store`. It has one `Table` field
  per entity. `Valid()` is the table invariant. `Consistent()` adds referential integrity:
  every artwork's artist and category exist.
- `artist_service.dfy`, `category_service.dfy`, `artwork_service.dfy`: one module per
  service. Each operation is a module-level method or function that takes the shared
  `Store` as its `db` parameter. The list operations are loops proved against the view
  functions. The find operations are functions. The changing operations state the
  response, the whole new store and which tables stay as they were. All of them except
  `UnlinkArtworkFromCategory` state that referential integrity is kept. Unlink states
  when it is kept: exactly when the orphan is deleted or given an existing category.

Store faults are inputs:

- `fault: Option<string>`: `Some(text)` means saving threw an exception with that message. The operations that catch every exception take this.
- `conflict: bool`: the concurrency exception, the only one the update operations catch.

The identity column starts at 1 and grows by 1. The model hands out `next`.

## Model

| member | source | states |
|---|---|---|
| `Tables.Table.Insert` | MuseAndMasterpiece/Data/Migrations/20250203234334_artwork.cs:18-19 | the key handed out by the identity column was not a key before; the row is stored under it and listed last; the table stays well formed |
| `Tables.Table.Put` | MuseAndMasterpiece/Services/ArtistService.cs:109-118 | replacing a tracked row changes that row only; keys, listing and identity counter stay |
| `Tables.Table.Delete` | MuseAndMasterpiece/Services/ArtworkService.cs:206-209 | removing rows leaves exactly the other keys with their rows unchanged; the listing shrinks by the number removed and keeps the relative order of the survivors |
| `Tables.ChildAggregate` | MuseAndMasterpiece/Services/ArtistService.cs:42-43 | the artworks a parent's view is built from are, without repetition, exactly those whose key names the parent; count, number of titles and number of such artworks agree; each one's title is listed |
| `Tables.ArtistViewAggregate` | MuseAndMasterpiece/Services/ArtistService.cs:73-81 | an artist view copies id, name and bio; `TotalArtworks` equals the length of `ArtworksTitle` and the number of artworks of that artist; every title listed belongs to one of them and every one of them has its title listed (0 and empty when there are none) |
| `Tables.CategoryViewAggregate` | MuseAndMasterpiece/Services/CategoryService.cs:75-83 | the same for a category view, which copies id, name and creation date |
| `ArtistService.ListArtists` | MuseAndMasterpiece/Services/ArtistService.cs:27-50 | one view per stored artist, in store order, each the shared projection `Tables.ArtistView` (id, name, bio, artwork count and titles); every artist appears and none twice |
| `ArtistService.FindArtist` | MuseAndMasterpiece/Services/ArtistService.cs:62-85 | None iff no artist has the id; otherwise the same `ArtistView` as the listing, with that id, name and bio and a count equal to its titles and to its artworks |
| `ArtistService.UpdateArtist` | MuseAndMasterpiece/Services/ArtistService.cs:95-130 | absent id: NotFound and nothing changes; concurrency conflict: Error and nothing changes; otherwise Updated with name, bio and email replaced under the same id, the payload id ignored, artworks and categories untouched |
| `ArtistService.AddArtist` | MuseAndMasterpiece/Services/ArtistService.cs:143-171 | on a fault, Error with both messages and no row added; otherwise Created with the next identity value, not previously a key, stored with the given name, bio and email |
| `ArtistService.DeleteArtist` | MuseAndMasterpiece/Services/ArtistService.cs:181-209 | absent id: NotFound, nothing changes; fault: Error, nothing changes; otherwise Deleted, the artist and exactly the artworks with its key removed, categories untouched, `Consistent` kept |
| `ArtistService.AddThenFindArtist` | MuseAndMasterpiece/Services/ArtistService.cs:143-171 | on a consistent store, finding a freshly added artist gives its name and bio, `TotalArtworks` 0 and no titles |
| `ArtistService.DeleteArtistThenFind` | MuseAndMasterpiece/Data/Migrations/20250204000720_artistxartwork.cs:25-31 | after the cascade `FindArtist` finds nothing for the artist and `FindArtwork` nothing for any of its former artworks, none of which is stored; the artwork count drops by their number; `Consistent` holds |
| `CategoryService.ListCategories` | MuseAndMasterpiece/Services/CategoryService.cs:28-51 | one view per stored category, in store order, each the shared projection `Tables.CategoryView` (id, name, creation date, artwork count and titles); every category appears and none twice |
| `CategoryService.FindCategory` | MuseAndMasterpiece/Services/CategoryService.cs:64-87 | None iff no category has the id; otherwise the listing's `CategoryView` with that id, name and date and a count equal to its titles and to its artworks |
| `CategoryService.UpdateCategory` | MuseAndMasterpiece/Services/CategoryService.cs:97-136 | id mismatch: Error before any lookup, nothing changes; absent id: NotFound; conflict: Error; otherwise Updated with only name and date replaced, artworks untouched |
| `CategoryService.AddCategory` | MuseAndMasterpiece/Services/CategoryService.cs:150-176 | on a fault, Error and no row; otherwise Created with a fresh id and the given name and date |
| `CategoryService.DeleteCategory` | MuseAndMasterpiece/Services/CategoryService.cs:186-212 | absent id: NotFound, nothing changes; fault: Error with one message, nothing changes; otherwise Deleted, the category and exactly its artworks removed (assumed cascade), artists untouched |
| `ArtworkService.ListArtworks` | MuseAndMasterpiece/Services/ArtworkService.cs:26-50 | on a store satisfying `EntityStore.Store.Consistent` (every artwork's artist and category exist, the foreign-key constraint), one view per stored artwork in store order, built by `ArtworkView` and described by `Denormalises`, none twice, carrying its id, title and date and the names of the artist and category its keys point at; description and keys unset |
| `ArtworkService.FindArtwork` | MuseAndMasterpiece/Services/ArtworkService.cs:62-86 | needs only the found artwork's own artist and category to exist; None iff no artwork has the id; otherwise that artwork's `ArtworkView`, as in the listing |
| `ArtworkService.UpdateArtwork` | MuseAndMasterpiece/Services/ArtworkService.cs:96-139 | id mismatch: Error before any lookup, nothing changes; absent id: NotFound; conflict: Error; otherwise Updated, title, date, description and both keys replaced under the same id, every other row untouched |
| `ArtworkService.AddArtwork` | MuseAndMasterpiece/Services/ArtworkService.cs:154-184 | a fault or a dangling artist or category key gives Error and adds no row; otherwise Created with a fresh id and a row holding exactly the payload's fields |
| `ArtworkService.DeleteArtwork` | MuseAndMasterpiece/Services/ArtworkService.cs:194-222 | absent id: NotFound, nothing changes; fault: Error; otherwise Deleted, exactly that artwork removed, artists and categories untouched |
| `ArtworkService.LinkArtworkToCategory` | MuseAndMasterpiece/Services/ArtworkService.cs:238-287 | missing artwork, then missing category: NotFound; already in that category: AlreadyExists, nothing changes; fault: Error; otherwise Updated with only the category key of that artwork changed |
| `ArtworkService.UnlinkArtworkFromCategory` | MuseAndMasterpiece/Services/ArtworkService.cs:301-334 | missing category: NotFound; an artwork that is absent or filed elsewhere: NotLinked, nothing changes; otherwise Updated and the artwork is no longer in that category: it is deleted, or only its category key is replaced, as the `Severance` input says; integrity survives iff the orphan is deleted or given an existing category |
| `ArtworkService.LinkTwice` | MuseAndMasterpiece/Services/ArtworkService.cs:260-276 | linking twice with the same arguments answers Updated, then AlreadyExists with its message; the final artwork table is the original with only that artwork's category key moved, so the second call changed nothing |

## Left out

- Entity Framework plumbing (`Include`, `FindAsync`, change tracking, `SaveChangesAsync`) and `async`: replaced by reads and updates of the store's tables.
- Controllers, `Program.cs`, the service interfaces and the data-context class: transport, configuration and signatures only.
- The `SelectListItem` lists on the artwork request and view shapes: they feed page dropdowns.
- Exceptions the services do not catch are not modelled as results. These are any non-concurrency failure in the update operations and any failure while saving an unlink. A dangling key in `UpdateArtwork`'s payload is therefore a precondition.
- The text of an exception is the `fault` input. For a dangling key in `AddArtwork` it is the store's generic save-failure message.
- `ArtworkService.AddArtwork`: the contract fixes only the first of the two Error messages. The second is the exception text, which depends on which fault came first.
- Identity values are C# `int` (MuseAndMasterpiece/Models/Artwork.cs:11, MuseAndMasterpiece/Models/Artist.cs:8, MuseAndMasterpiece/Models/Category.cs:9), but the counter `next` is unbounded. An insert after the identity column runs out fails and lands in the catch-all Error branch; the model reaches that outcome only through the `fault` input.
- Identity values consumed by failed inserts are not modelled. The model hands out `next` only on success; keys stay fresh either way.
- `UnlinkArtworkFromCategory`: the category key is required, so what the store does with the removed artwork is library behaviour. The `Severance` input decides it: delete the orphan, or give it another category. The model does not pick a default category. It states when referential integrity survives.
- `CategoryService.DeleteCategory`: the migration configuring the category key is not part of this model. A cascade, like the artist key's, is assumed.
- The order of a parent's titles is the artwork table's listing order. The database does not promise any order for included collections.
- Required-field validation of names and emails happens in the controllers and is not modelled.
- Artwork views leave the description and both keys unset (MuseAndMasterpiece/Services/ArtworkService.cs:37-45, 74-82).
- `AddArtwork` does not check the keys itself. The store's foreign-key constraint refuses a dangling key.
- Unlink assigns no default category, although its doc comment (MuseAndMasterpiece/Services/ArtworkService.cs:293) says it does.
