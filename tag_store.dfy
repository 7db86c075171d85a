/** The stored search tags (`TagLocalDataSource`) and the cache-or-fetch rule of
    `SearchRepository.fetchAllTags`. The tag table is keyed by `tagName`; inserting a
    tag whose name is stored replaces the stored row, as every insert of the app's
    database does. */
module TagStore {
  import opened Wrappers
  import opened Tags

  type TagTable = map<string, SearchTag>

  /** Every row sits under its own tag name. */
  predicate Keyed(rows: TagTable) {
    forall k :: k in rows ==> rows[k].tagName == k
  }

  /** `insertAll(*tags)` with replacement: each tag in turn, a later one with the same
      name replacing an earlier. */
  function Upsert(rows: TagTable, tags: seq<SearchTag>): (r: TagTable)
    ensures Keyed(rows) ==> Keyed(r)
  {
    if tags == [] then rows
    else Upsert(rows, tags[..|tags| - 1])[tags[|tags| - 1].tagName := tags[|tags| - 1]]
  }

  /** After an insert the table holds the old names and the new ones; a new name maps to
      the last tag given with it, an old name not given keeps its row. */
  lemma {:induction false} UpsertRows(rows: TagTable, tags: seq<SearchTag>, k: string)
    ensures k in Upsert(rows, tags) <==> k in rows || exists i :: 0 <= i < |tags| && tags[i].tagName == k
    ensures (forall i :: 0 <= i < |tags| ==> tags[i].tagName != k) && k in rows ==> Upsert(rows, tags)[k] == rows[k]
    ensures (exists i :: 0 <= i < |tags| && tags[i].tagName == k) ==> Upsert(rows, tags)[k] == tags[LastWith(tags, k)]
  {
    if tags != [] {
      var init := tags[..|tags| - 1];
      UpsertRows(rows, init, k);
      forall i | 0 <= i < |init| && init[i].tagName == k
        ensures tags[i].tagName == k
      {
      }
      if tags[|tags| - 1].tagName != k && exists i :: 0 <= i < |tags| && tags[i].tagName == k {
        var i :| 0 <= i < |tags| && tags[i].tagName == k;
        assert init[i] == tags[i];
      }
    }
  }

  /** Inserting the same tags twice is inserting them once. */
  lemma {:induction false} UpsertIdempotent(rows: TagTable, tags: seq<SearchTag>)
    ensures Upsert(Upsert(rows, tags), tags) == Upsert(rows, tags)
  {
    var once := Upsert(rows, tags);
    var twice := Upsert(once, tags);
    forall k
      ensures k in twice <==> k in once
      ensures k in once ==> twice[k] == once[k]
    {
      UpsertRows(rows, tags, k);
      UpsertRows(once, tags, k);

    }
  }

  /** The last position of a tag with name `k`. */
  function LastWith(tags: seq<SearchTag>, k: string): (i: nat)
    requires exists i :: 0 <= i < |tags| && tags[i].tagName == k
    ensures i < |tags| && tags[i].tagName == k && forall j :: i < j < |tags| ==> tags[j].tagName != k
  {
    if tags[|tags| - 1].tagName == k then |tags| - 1
    else
      var init := tags[..|tags| - 1];
      assert exists i :: 0 <= i < |init| && init[i].tagName == k by {
        var i :| 0 <= i < |tags| && tags[i].tagName == k;
        assert i < |init| && init[i] == tags[i];
      }
      LastWith(init, k)
  }

  /** `s` lists the rows of `rows`, each once, in some order. */
  predicate Lists(s: seq<SearchTag>, rows: TagTable) {
    && (forall i :: 0 <= i < |s| ==> s[i].tagName in rows && rows[s[i].tagName] == s[i])
    && (forall i, j :: 0 <= i < j < |s| ==> s[i].tagName != s[j].tagName)
    && (forall k :: k in rows ==> exists i :: 0 <= i < |s| && s[i].tagName == k)
  }

  /** The loop state of an enumeration: the rows listed so far, each once and under its
      key, are exactly the rows whose keys are no longer pending. */
  predicate ListedSoFar(listing: seq<SearchTag>, rows: TagTable, rest: set<string>) {
    && rest <= rows.Keys
    && (forall i :: 0 <= i < |listing| ==>
          listing[i].tagName in rows && rows[listing[i].tagName] == listing[i] && listing[i].tagName !in rest)
    && (forall i, j :: 0 <= i < j < |listing| ==> listing[i].tagName != listing[j].tagName)
    && (forall k :: k in rows && k !in rest ==> exists i :: 0 <= i < |listing| && listing[i].tagName == k)
  }

  lemma {:induction false} ListedStep(listing: seq<SearchTag>, rows: TagTable, rest: set<string>, k: string)
    requires Keyed(rows)
    requires ListedSoFar(listing, rows, rest) && k in rest
    ensures ListedSoFar(listing + [rows[k]], rows, rest - {k})
  {
    var next := listing + [rows[k]];
    assert rows[k].tagName == k;
    assert next[|listing|].tagName == k;
    forall i | 0 <= i < |next|
      ensures next[i].tagName in rows && rows[next[i].tagName] == next[i] && next[i].tagName !in rest - {k}
    {
      if i < |listing| {
        assert next[i] == listing[i];
      }
    }
    forall i, j | 0 <= i < j < |next|
      ensures next[i].tagName != next[j].tagName
    {
      assert next[i] == listing[i];
      if j < |listing| {
        assert next[j] == listing[j];
      }
    }
    forall v | v in rows && v !in rest - {k}
      ensures exists i :: 0 <= i < |next| && next[i].tagName == v
    {
      if v == k {
        assert next[|listing|].tagName == v;
      } else {
        var i :| 0 <= i < |listing| && listing[i].tagName == v;
        assert next[i] == listing[i];
      }
    }
  }

  /** `TagLocalDataSource` over the tag table. */
  class SearchTagStore {
    var rows: TagTable

    predicate Valid()
      reads this
    {
      Keyed(rows)
    }

    constructor ()
      ensures Valid() && rows == map[]
    {
      rows := map[];
    }

    /** `count()`. */
    function Count(): (n: nat)
      reads this
      ensures n == |rows.Keys|
    {
      |rows.Keys|
    }

    /** `empty()`: holds exactly when no tag is stored. */
    function Empty(): (b: bool)
      reads this
      ensures b <==> rows == map[]
    {
      if Count() == 0 then
        assert rows.Keys == {};
        true
      else
        assert rows.Keys != {};
        false
    }

    /** `getSearchTag(tagName)`. */
    function GetSearchTag(tagName: string): (r: Option<SearchTag>)
      reads this
      ensures r.Some? <==> tagName in rows
      ensures r.Some? ==> r.value == rows[tagName]
    {
      if tagName in rows then Some(rows[tagName]) else None
    }

    /** `getAllSearchTag()`: every stored tag once, in an order the table chooses. */
    method GetAll() returns (listing: seq<SearchTag>)
      requires Valid()
      ensures Lists(listing, rows)
    {
      listing := [];
      var rest := rows.Keys;
      while rest != {}
        invariant ListedSoFar(listing, rows, rest)
        decreases |rest|
      {
        var k :| k in rest;
        ListedStep(listing, rows, rest, k);
        listing := listing + [rows[k]];
        rest := rest - {k};
      }
    }

    /** `updateSearchTagIfNew(*tags)`: the tags are inserted only when fewer rows are
        stored than tags are given; the answer is the number given minus the number
        stored before, negative when more are stored. */
    method UpdateSearchTagIfNew(tags: seq<SearchTag>) returns (delta: int)
      requires Valid()
      modifies this
      ensures Valid()
      ensures delta == |tags| - |old(rows).Keys|
      ensures |old(rows).Keys| < |tags| ==> rows == Upsert(old(rows), tags)
      ensures |old(rows).Keys| >= |tags| ==> rows == old(rows)
    {
      var size := Count();
      if size < |tags| {
        rows := Upsert(rows, tags);
      }
      delta := |tags| - size;
    }
  }

  /** The two sources of `fetchAllTags`: the store, and the tag page of the site. */
  class SearchTagRepository {
    const store: SearchTagStore
    const remoteTags: Result<seq<SearchTag>, string>   // `fetchAllTags()` of the remote source

    constructor (store: SearchTagStore, remoteTags: Result<seq<SearchTag>, string>)
      ensures this.store == store && this.remoteTags == remoteTags
    {
      this.store := store;
      this.remoteTags := remoteTags;
    }

    /** An empty store is filled from the site and the site's tags returned (its failure
        is thrown); otherwise the stored tags are returned and the site is not asked. */
    method FetchAllTags() returns (r: Result<seq<SearchTag>, string>)
      requires store.Valid()
      modifies store
      ensures store.Valid()
      ensures old(store.rows) == map[] && remoteTags.Failure? ==>
                r == remoteTags && store.rows == old(store.rows)
      ensures old(store.rows) == map[] && remoteTags.Success? ==>
                r == remoteTags && store.rows == Upsert(map[], remoteTags.value)
      ensures old(store.rows) != map[] ==> r.Success? && Lists(r.value, store.rows) && store.rows == old(store.rows)
    {
      if store.Empty() {
        if remoteTags.Failure? {
          return remoteTags;
        }
        var tags := remoteTags.value;
        var _ := store.UpdateSearchTagIfNew(tags);
        return Success(tags);
      }
      var all := store.GetAll();
      return Success(all);
    }
  }

  /** After filling an empty store from the site every tag of the site can be looked up
      by its name, and nothing else is stored. */
  lemma {:induction false} FilledStoreHoldsSiteTags(tags: seq<SearchTag>, k: string)
    ensures k in Upsert(map[], tags) <==> exists i :: 0 <= i < |tags| && tags[i].tagName == k
    ensures k in Upsert(map[], tags) ==> Upsert(map[], tags)[k].tagName == k
  {
    UpsertRows(map[], tags, k);
  }
}
