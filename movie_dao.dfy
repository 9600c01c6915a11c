/**
 * The unified `movies` cache table behind `MovieDao`, held in memory as a map from
 * primary key to row. Rows carry their own `isFavorite` flag; nothing ever removes a row.
 */
module MovieDaos {
  import opened Wrappers
  import opened Kotlin
  import opened MovieEntities

  type Table = map<Int32, MovieEntity>

  /** The primary-key invariant: every row is stored under its own id. */
  predicate KeyedById(t: Table)
  {
    forall id :: id in t ==> t[id].id == id
  }

  /** `SELECT * FROM movies WHERE id = :id LIMIT 1`. */
  function Lookup(t: Table, id: Int32): (r: Option<MovieEntity>)
    ensures r.Some? <==> id in t
    ensures r.Some? ==> r.value == t[id]
    ensures KeyedById(t) && r.Some? ==> r.value.id == id
  {
    if id in t then Some(t[id]) else None
  }

  /** `@Insert(onConflict = REPLACE)`: the whole row under `e.id`, flag included, becomes `e`. */
  function Upsert(t: Table, e: MovieEntity): (r: Table)
    ensures r.Keys == t.Keys + {e.id}
    ensures r[e.id] == e
    ensures forall id :: id in t && id != e.id ==> r[id] == t[id]
    ensures KeyedById(t) ==> KeyedById(r)
  {
    t[e.id := e]
  }

  /** `insertAll(movies)` with REPLACE: the rows of `es` inserted one after the other. */
  function UpsertAll(t: Table, es: seq<MovieEntity>): (r: Table)
    decreases |es|
  {
    if es == [] then t else Upsert(UpsertAll(t, es[..|es| - 1]), es[|es| - 1])
  }

  /** The ids a list of rows mentions. */
  function Ids(es: seq<MovieEntity>): set<Int32>
  {
    set k | 0 <= k < |es| :: es[k].id
  }

  /** `SELECT * FROM movies WHERE isFavorite = 1`. */
  function FavoriteRows(t: Table): (s: set<MovieEntity>)
    requires KeyedById(t)
    ensures forall e :: e in s <==> e.id in t && t[e.id] == e && e.isFavorite
  {
    set id | id in t && t[id].isFavorite :: t[id]
  }

  /** Inserting a list is inserting its first part and then the rest. */
  lemma {:induction false} UpsertAllAppend(t: Table, a: seq<MovieEntity>, b: seq<MovieEntity>)
    ensures UpsertAll(t, a + b) == UpsertAll(UpsertAll(t, a), b)
    decreases |b|
  {
    if b == [] {
      assert a + b == a;
    } else {
      assert (a + b)[..|a + b| - 1] == a + b[..|b| - 1];
      UpsertAllAppend(t, a, b[..|b| - 1]);
    }
  }

  /** After `insertAll` the keys are the old keys plus the ids of the list: none is lost. */
  lemma {:induction false} UpsertAllKeys(t: Table, es: seq<MovieEntity>)
    ensures UpsertAll(t, es).Keys == t.Keys + Ids(es)
    decreases |es|
  {
    if es != [] {
      var init := es[..|es| - 1];
      UpsertAllKeys(t, init);
      assert Ids(es) == Ids(init) + {es[|es| - 1].id} by {
        forall id | id in Ids(es) ensures id in Ids(init) + {es[|es| - 1].id} {
          var k :| 0 <= k < |es| && es[k].id == id;
          if k < |es| - 1 { assert init[k] == es[k]; }
        }
        forall id | id in Ids(init) ensures id in Ids(es) {
          var k :| 0 <= k < |init| && init[k].id == id;
          assert es[k] == init[k];
        }
      }
    }
  }

  /** `insertAll` keeps the primary-key invariant. */
  lemma {:induction false} UpsertAllKeyed(t: Table, es: seq<MovieEntity>)
    requires KeyedById(t)
    ensures KeyedById(UpsertAll(t, es))
    decreases |es|
  {
    if es != [] {
      UpsertAllKeyed(t, es[..|es| - 1]);
    }
  }

  /**
   * REPLACE semantics of `insertAll`: an id the list mentions ends up holding the
   * last row of the list with that id.
   */
  lemma {:induction false} UpsertAllLastWins(t: Table, es: seq<MovieEntity>, k: nat)
    requires k < |es|
    requires forall j :: k < j < |es| ==> es[j].id != es[k].id
    ensures es[k].id in UpsertAll(t, es) && UpsertAll(t, es)[es[k].id] == es[k]
    decreases |es|
  {
    var init := es[..|es| - 1];
    if k < |es| - 1 {
      assert init[k] == es[k];
      forall j | k < j < |init| ensures init[j].id != init[k].id { assert init[j] == es[j]; }
      UpsertAllLastWins(t, init, k);
    }
  }

  /** An id the list does not mention keeps its old row, or stays absent. */
  lemma {:induction false} UpsertAllElsewhere(t: Table, es: seq<MovieEntity>, id: Int32)
    requires id !in Ids(es)
    ensures id in UpsertAll(t, es) <==> id in t
    ensures id in t ==> UpsertAll(t, es)[id] == t[id]
    decreases |es|
  {
    if es != [] {
      var init := es[..|es| - 1];
      assert es[|es| - 1].id in Ids(es);
      UpsertAllElsewhere(t, init, id);
    }
  }

  /** Inserting a row whose flag is false clears any favorite stored under its id. */
  lemma UpsertUnflaggedClearsFavorite(t: Table, e: MovieEntity)
    requires KeyedById(t) && !e.isFavorite
    ensures forall f :: f in FavoriteRows(Upsert(t, e)) ==> f.id != e.id
    ensures FavoriteRows(Upsert(t, e)) == FavoriteRows(t) - (set f | f in FavoriteRows(t) && f.id == e.id)
  {
  }

  /** The DAO: an interface Room implements over the `movies` table. */
  class MovieDao {
    var rows: Table

    ghost predicate Valid()
      reads this
    {
      KeyedById(rows)
    }

    /** A new, empty table. */
    constructor ()
      ensures Valid() && rows == map[]
    {
      rows := map[];
    }

    /** `getFavoriteMovies()`: exactly the rows whose flag is set. */
    method GetFavoriteMovies() returns (s: set<MovieEntity>)
      requires Valid()
      ensures forall e :: e in s <==> e.id in rows && rows[e.id] == e && e.isFavorite
    {
      s := FavoriteRows(rows);
    }

    /** `getById(id)`: the row whose primary key is `id`, or null. */
    method GetById(id: Int32) returns (r: Option<MovieEntity>)
      requires Valid()
      ensures r.Some? <==> id in rows
      ensures r.Some? ==> r.value == rows[id] && r.value.id == id
    {
      r := Lookup(rows, id);
    }

    /** `insert(movie)` with REPLACE on conflict. */
    method Insert(e: MovieEntity)
      requires Valid()
      modifies this
      ensures Valid()
      ensures rows == Upsert(old(rows), e)
    {
      rows := rows[e.id := e];
    }

    /** `insertAll(movies)` with REPLACE on conflict, row by row in list order. */
    method InsertAll(es: seq<MovieEntity>)
      requires Valid()
      modifies this
      ensures Valid()
      ensures rows == UpsertAll(old(rows), es)
      ensures old(rows).Keys <= rows.Keys
    {
      ghost var start := rows;
      for i := 0 to |es|
        invariant rows == UpsertAll(start, es[..i])
        invariant Valid()
      {
        assert es[..i + 1][..i] == es[..i];
        rows := rows[es[i].id := es[i]];
      }
      assert es[..|es|] == es;
      UpsertAllKeys(start, es);
    }
  }
}
