/**
 * Keyed tables with a listing order and an identity counter, and the
 * aggregate views derived from them: which artworks point at a parent row,
 * how many there are and what their titles are.
 */
module Tables {
  import opened Models

  predicate NoDuplicates(s: seq<int>) {
    forall i, j :: 0 <= i < j < |s| ==> s[i] != s[j]
  }

  /** `order` lists every key of `keys` exactly once and nothing else. */
  predicate Enumerates(order: seq<int>, keys: set<int>) {
    && NoDuplicates(order)
    && (forall i :: 0 <= i < |order| ==> order[i] in keys)
    && (forall k :: k in keys ==> k in order)
  }

  /** The elements of `order` that are in `keep`, in their order. */
  function Restrict(order: seq<int>, keep: set<int>): (r: seq<int>)
    ensures forall k :: k in r <==> k in order && k in keep
    ensures NoDuplicates(order) ==> NoDuplicates(r)
    ensures |r| <= |order|
  {
    if order == [] then []
    else if order[0] in keep then [order[0]] + Restrict(order[1..], keep)
    else Restrict(order[1..], keep)
  }

  /** `x` is listed before `y` in `s`. */
  predicate Before(s: seq<int>, x: int, y: int) {
    exists p, q :: 0 <= p < q < |s| && s[p] == x && s[q] == y
  }

  /** Whatever `sub` lists first, `order` lists first too. */
  predicate KeepsOrder(sub: seq<int>, order: seq<int>) {
    forall i, j :: 0 <= i < j < |sub| ==> Before(order, sub[i], sub[j])
  }

  /** Restricting a listing keeps the relative order of what survives. */
  lemma {:induction false} RestrictKeepsOrder(order: seq<int>, keep: set<int>)
    ensures KeepsOrder(Restrict(order, keep), order)
  {
    if order != [] {
      var r := Restrict(order, keep);
      var rest := Restrict(order[1..], keep);
      RestrictKeepsOrder(order[1..], keep);
      forall i, j | 0 <= i < j < |r| ensures Before(order, r[i], r[j]) {
        if order[0] in keep {
          assert r == [order[0]] + rest;
          if i == 0 {
            assert r[j] == rest[j - 1] && rest[j - 1] in order[1..];
            var q :| 0 <= q < |order[1..]| && order[1..][q] == r[j];
            assert order[0] == r[i] && order[q + 1] == r[j];
          } else {
            assert Before(order[1..], rest[i - 1], rest[j - 1]);
            var p, q :| 0 <= p < q < |order[1..]| && order[1..][p] == rest[i - 1] && order[1..][q] == rest[j - 1];
            assert order[p + 1] == r[i] && order[q + 1] == r[j];
          }
        } else {
          assert r == rest;
          assert Before(order[1..], rest[i], rest[j]);
          var p, q :| 0 <= p < q < |order[1..]| && order[1..][p] == rest[i] && order[1..][q] == rest[j];
          assert order[p + 1] == r[i] && order[q + 1] == r[j];
        }
      }
    }
  }

  /** A duplicate-free listing of a set is as long as the set is large. */
  lemma {:induction false} EnumerationSize(order: seq<int>, keys: set<int>)
    requires Enumerates(order, keys)
    ensures |order| == |keys|
  {
    if order != [] {
      var x, rest := order[0], order[1..];
      assert order == [x] + rest;
      var others := keys - {x};
      assert x in keys && |keys| == |others| + 1;
      forall k | k in others ensures k in rest {
        assert k in order && k != x;
      }
      assert Enumerates(rest, others);
      EnumerationSize(rest, others);
    } else {
      assert forall k :: k !in keys;
      assert keys == {};
    }
  }

  /**
   * One table of the store: the rows by key, the order in which the store
   * lists them, and the next value of the identity column (which starts
   * at 1 and grows by 1).
   */
  datatype Table<T> = Table(rows: map<int, T>, order: seq<int>, next: int) {

    predicate WellFormed() {
      && Enumerates(order, rows.Keys)
      && next >= 1
      && (forall k :: k in rows ==> 1 <= k < next)
    }

    /** Adds `row` under the next identity value, which was not a key before. */
    function Insert(row: T): (t: Table<T>)
      requires WellFormed()
      ensures t.WellFormed()
      ensures next !in rows && t.rows == rows[next := row]
      ensures t.order == order + [next] && t.next == next + 1
    {
      Table(rows[next := row], order + [next], next + 1)
    }

    /** Replaces the row stored under an existing key; the listing is kept. */
    function Put(k: int, row: T): (t: Table<T>)
      requires WellFormed() && k in rows
      ensures t.WellFormed()
      ensures t.rows.Keys == rows.Keys && t.rows[k] == row
      ensures forall j :: j in rows && j != k ==> t.rows[j] == rows[j]
      ensures t.order == order && t.next == next
    {
      Table(rows[k := row], order, next)
    }

    /** Removes the rows under `gone`; every other row and its place stay. */
    function Delete(gone: set<int>): (t: Table<T>)
      requires WellFormed()
      ensures t.WellFormed()
      ensures t.rows.Keys == rows.Keys - gone
      ensures forall j :: j in t.rows ==> t.rows[j] == rows[j]
      ensures |t.order| == |order| - |rows.Keys * gone|
      ensures t.order == Restrict(order, t.rows.Keys)
      ensures KeepsOrder(t.order, order)
      ensures t.next == next
    {
      var kept := rows - gone;
      var t := Table(kept, Restrict(order, kept.Keys), next);
      RestrictKeepsOrder(order, kept.Keys);
      EnumerationSize(t.order, kept.Keys);
      EnumerationSize(order, rows.Keys);
      assert rows.Keys == kept.Keys + rows.Keys * gone;
      t
    }
  }

  // ------------------------------------------------------------ aggregates

  /** The parent row an artwork's foreign key is compared with. */
  datatype Parent = ByArtist(artistId: int) | InCategory(categoryId: int)

  predicate PointsAt(w: Artwork, p: Parent) {
    match p
    case ByArtist(a) => w.artistId == a
    case InCategory(c) => w.categoryId == c
  }

  /** The keys of the artworks whose foreign key names `p`. */
  function ChildKeys(works: map<int, Artwork>, p: Parent): set<int> {
    set k | k in works && PointsAt(works[k], p)
  }

  /** The children of `p` in the order the artwork table lists them. */
  function Children(works: Table<Artwork>, p: Parent): (r: seq<int>)
    ensures forall i :: 0 <= i < |r| ==> r[i] in works.rows && PointsAt(works.rows[r[i]], p)
  {
    var r := Restrict(works.order, ChildKeys(works.rows, p));
    assert forall i :: 0 <= i < |r| ==> r[i] in r;
    r
  }

  function Titles(ids: seq<int>, works: map<int, Artwork>): (r: seq<string>)
    requires forall i :: 0 <= i < |ids| ==> ids[i] in works
    ensures |r| == |ids|
    ensures forall i :: 0 <= i < |ids| ==> r[i] == works[ids[i]].title
  {
    if ids == [] then [] else [works[ids[0]].title] + Titles(ids[1..], works)
  }

  /**
   * The aggregate of a parent: the number of its artworks equals the number
   * of titles listed, and equals the number of artworks whose key names it;
   * every listed title is the title of one of them, and each of them has its
   * title listed.
   */
  lemma ChildAggregate(works: Table<Artwork>, p: Parent)
    requires works.WellFormed()
    ensures var kids := Children(works, p);
      && Enumerates(kids, ChildKeys(works.rows, p))
      && |Titles(kids, works.rows)| == |kids| == |ChildKeys(works.rows, p)|
      && (forall i :: 0 <= i < |kids| ==> kids[i] in works.rows && PointsAt(works.rows[kids[i]], p))
      && (forall k :: k in ChildKeys(works.rows, p) ==> works.rows[k].title in Titles(kids, works.rows))
  {
    var kids := Children(works, p);
    var keys := ChildKeys(works.rows, p);
    assert Enumerates(kids, keys);
    EnumerationSize(kids, keys);
    var titles := Titles(kids, works.rows);
    forall k | k in keys ensures works.rows[k].title in titles {
      var i :| 0 <= i < |kids| && kids[i] == k;
      assert titles[i] == works.rows[k].title;
    }
  }

  /** The artist projection shared by ListArtists and FindArtist. */
  function ArtistView(a: Artist, works: Table<Artwork>): ArtistDto {
    var kids := Children(works, ByArtist(a.artistId));
    ArtistDto(a.artistId, a.name, a.bio, |kids|, Titles(kids, works.rows))
  }

  /** The category projection shared by ListCategories and FindCategory. */
  function CategoryView(c: Category, works: Table<Artwork>): CategoryDto {
    var kids := Children(works, InCategory(c.categoryId));
    CategoryDto(c.categoryId, c.cname, c.dateCreated, |kids|, Titles(kids, works.rows))
  }

  /** An artist view counts and names exactly the artworks of that artist. */
  lemma ArtistViewAggregate(a: Artist, works: Table<Artwork>)
    requires works.WellFormed()
    ensures var d := ArtistView(a, works);
      && d.artistId == a.artistId && d.name == a.name && d.bio == a.bio
      && d.totalArtworks == |d.artworksTitle| == |ChildKeys(works.rows, ByArtist(a.artistId))|
      && (forall t :: t in d.artworksTitle ==>
            exists k :: k in works.rows && works.rows[k].artistId == a.artistId && works.rows[k].title == t)
      && (forall k :: k in works.rows && works.rows[k].artistId == a.artistId ==> works.rows[k].title in d.artworksTitle)
  {
    var p := ByArtist(a.artistId);
    ChildAggregate(works, p);
    var kids := Children(works, p);
    var d := ArtistView(a, works);
    forall t | t in d.artworksTitle
      ensures exists k :: k in works.rows && works.rows[k].artistId == a.artistId && works.rows[k].title == t
    {
      var i :| 0 <= i < |d.artworksTitle| && d.artworksTitle[i] == t;
      assert kids[i] in works.rows && PointsAt(works.rows[kids[i]], p);
    }
    forall k | k in works.rows && works.rows[k].artistId == a.artistId
      ensures works.rows[k].title in d.artworksTitle
    {
      assert k in ChildKeys(works.rows, p);
    }
  }

  /** A category view counts and names exactly the artworks in that category. */
  lemma CategoryViewAggregate(c: Category, works: Table<Artwork>)
    requires works.WellFormed()
    ensures var d := CategoryView(c, works);
      && d.categoryId == c.categoryId && d.cname == c.cname && d.dateCreated == c.dateCreated
      && d.totalArtworks == |d.artworksTitle| == |ChildKeys(works.rows, InCategory(c.categoryId))|
      && (forall t :: t in d.artworksTitle ==>
            exists k :: k in works.rows && works.rows[k].categoryId == c.categoryId && works.rows[k].title == t)
      && (forall k :: k in works.rows && works.rows[k].categoryId == c.categoryId ==> works.rows[k].title in d.artworksTitle)
  {
    var p := InCategory(c.categoryId);
    ChildAggregate(works, p);
    var kids := Children(works, p);
    var d := CategoryView(c, works);
    forall t | t in d.artworksTitle
      ensures exists k :: k in works.rows && works.rows[k].categoryId == c.categoryId && works.rows[k].title == t
    {
      var i :| 0 <= i < |d.artworksTitle| && d.artworksTitle[i] == t;
      assert kids[i] in works.rows && PointsAt(works.rows[kids[i]], p);
    }
    forall k | k in works.rows && works.rows[k].categoryId == c.categoryId
      ensures works.rows[k].title in d.artworksTitle
    {
      assert k in ChildKeys(works.rows, p);
    }
  }
}
