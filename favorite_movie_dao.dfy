/**
 * The `favorite_movies` table behind `FavoriteMovieDao`, held in memory as a map
 * from primary key to row. The table operations are given first as functions on
 * that map; the DAO class then performs them in place.
 */
module FavoriteMovieDaos {
  import opened Wrappers
  import opened Kotlin
  import opened FavoriteMovieEntities

  type Table = map<Int32, FavoriteMovieEntity>

  /** The primary-key invariant: every row is stored under its own id, so no two rows share one. */
  predicate KeyedById(t: Table)
  {
    forall id :: id in t ==> t[id].id == id
  }

  /** `SELECT * FROM favorite_movies WHERE id = :id LIMIT 1`. */
  function Lookup(t: Table, id: Int32): (r: Option<FavoriteMovieEntity>)
    ensures r.Some? <==> id in t
    ensures r.Some? ==> r.value == t[id]
    ensures KeyedById(t) && r.Some? ==> r.value.id == id
  {
    if id in t then Some(t[id]) else None
  }

  /** `@Insert(onConflict = REPLACE)`: the row is stored under its id, replacing any row there. */
  function Upsert(t: Table, e: FavoriteMovieEntity): (r: Table)
    ensures r.Keys == t.Keys + {e.id}
    ensures r[e.id] == e
    ensures forall id :: id in t && id != e.id ==> r[id] == t[id]
    ensures KeyedById(t) ==> KeyedById(r)
  {
    t[e.id := e]
  }

  /** `@Delete`: removes the row whose primary key is `e.id`, whatever its other fields. */
  function DeleteRow(t: Table, e: FavoriteMovieEntity): (r: Table)
    ensures r.Keys == t.Keys - {e.id}
    ensures forall id :: id in r ==> r[id] == t[id]
    ensures KeyedById(t) ==> KeyedById(r)
  {
    t - {e.id}
  }

  /** `SELECT * FROM favorite_movies`: every row; the query has no ORDER BY, so a set. */
  function AllRows(t: Table): (s: set<FavoriteMovieEntity>)
    requires KeyedById(t)
    ensures forall e :: e in s <==> e.id in t && t[e.id] == e
    ensures |s| == |t|
  {
    var s := t.Values;
    assert forall e :: e in s ==> e.id in t && t[e.id] == e;
    CardinalityOfRows(t);
    s
  }

  /** Distinct keys hold distinct rows, so the table has as many rows as keys. */
  lemma {:induction false} CardinalityOfRows(t: Table)
    requires KeyedById(t)
    ensures |t.Values| == |t.Keys|
  {
    if t != map[] {
      var id :| id in t;
      var rest := t - {id};
      CardinalityOfRows(rest);
      assert t[id] !in rest.Values by {
        forall k | k in rest ensures rest[k] != t[id] { assert rest[k].id == k; }
      }
      assert t.Values == rest.Values + {t[id]};
      assert t.Keys == rest.Keys + {id};
    }
  }

  /**
   * A list emitted by the favorites query: each stored row exactly once, in
   * whatever order the database returns them.
   */
  predicate Lists(es: seq<FavoriteMovieEntity>, t: Table)
  {
    && (forall k :: 0 <= k < |es| ==> es[k].id in t && t[es[k].id] == es[k])
    && (forall id :: id in t ==> exists k :: 0 <= k < |es| && es[k] == t[id])
    && (forall j, k :: 0 <= j < k < |es| ==> es[j].id != es[k].id)
  }

  /** Deleting by id undoes inserting a row under an id that was free. */
  lemma DeleteUndoesUpsert(t: Table, e: FavoriteMovieEntity)
    requires e.id !in t
    ensures DeleteRow(Upsert(t, e), e) == t
  {
  }

  /** Inserting twice with the same id keeps only the later row. */
  lemma UpsertReplaces(t: Table, e1: FavoriteMovieEntity, e2: FavoriteMovieEntity)
    requires e1.id == e2.id
    ensures Upsert(Upsert(t, e1), e2) == Upsert(t, e2)
  {
  }

  /** The DAO: an interface Room implements over the `favorite_movies` table. */
  class FavoriteMovieDao {
    var rows: Table

    ghost predicate Valid()
      reads this
    {
      KeyedById(rows)
    }

    /** A new, empty table. */
    constructor ()
      ensures Valid() && rows == map[]
    {
      rows := map[];
    }

    /** `getFavoriteMovies()`: the current contents of the table. */
    method GetFavoriteMovies() returns (s: set<FavoriteMovieEntity>)
      requires Valid()
      ensures forall e :: e in s <==> e.id in rows && rows[e.id] == e
      ensures |s| == |rows|
    {
      s := AllRows(rows);
    }

    /** `getById(id)`: the row whose primary key is `id`, or null. */
    method GetById(id: Int32) returns (r: Option<FavoriteMovieEntity>)
      requires Valid()
      ensures r.Some? <==> id in rows
      ensures r.Some? ==> r.value == rows[id] && r.value.id == id
    {
      r := Lookup(rows, id);
    }

    /** `insert(movie)` with REPLACE on conflict. */
    method Insert(e: FavoriteMovieEntity)
      requires Valid()
      modifies this
      ensures Valid()
      ensures rows == Upsert(old(rows), e)
    {
      rows := rows[e.id := e];
    }

    /** `delete(movie)`: removes the row with the same primary key. */
    method Delete(e: FavoriteMovieEntity)
      requires Valid()
      modifies this
      ensures Valid()
      ensures rows == DeleteRow(old(rows), e)
    {
      rows := rows - {e.id};
    }
  }
}
