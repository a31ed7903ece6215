/** One database table as the handlers see it: rows keyed by an
    autoincremented integer primary key (`autoincrement=True`, first id 1),
    listed back in insertion order. */
module Tables {
  import opened Wrappers

  predicate Increasing(s: seq<nat>) {
    forall i, j :: 0 <= i < j < |s| ==> s[i] < s[j]
  }

  datatype Table<R> = Table(rows: map<nat, R>, order: seq<nat>, nextId: nat) {

    /** `order` lists every stored id once, oldest first, and every stored id
        is below the next one to be handed out. */
    ghost predicate Valid() {
      && nextId >= 1
      && Increasing(order)
      && (forall k :: k in rows <==> k in order)
      && (forall k :: k in rows ==> 0 < k < nextId)
    }
  }

  function Empty<R>(): (t: Table<R>)
    ensures t.Valid() && t.rows == map[] && Entries(t) == []
  {
    Table(map[], [], 1)
  }

  /** `query(...).filter(X.id == id).first()`: the row with that id, if any. */
  function Find<R>(t: Table<R>, id: int): (r: Option<R>)
    ensures r.Some? <==> id >= 0 && id in t.rows
    ensures r.Some? ==> r.value == t.rows[id]
  {
    if id >= 0 && id as nat in t.rows then Some(t.rows[id as nat]) else None
  }

  /** `query(...).all()`: every (id, row) pair, oldest first. */
  function Entries<R>(t: Table<R>): (es: seq<(nat, R)>)
    requires forall i :: 0 <= i < |t.order| ==> t.order[i] in t.rows
    ensures |es| == |t.order|
  {
    seq(|t.order|, i requires 0 <= i < |t.order| => (t.order[i], t.rows[t.order[i]]))
  }

  lemma EntriesEmpty<R>(t: Table<R>)
    requires t.Valid()
    ensures Entries(t) == [] <==> t.rows == map[]
  {
    if t.order != [] {
      assert t.order[0] in t.rows;
    }
    if t.rows != map[] {
      var k :| k in t.rows;
      assert k in t.order;
    }
  }

  /** `db.add(x); db.commit()`: store `r` under the next id. */
  function Insert<R>(t: Table<R>, r: R): (u: Table<R>)
    requires t.Valid()
    ensures u.Valid()
    ensures t.nextId !in t.rows && u.nextId > t.nextId
    ensures Find(u, t.nextId) == Some(r)
    ensures forall k :: k != t.nextId ==> Find(u, k) == Find(t, k)
    ensures Entries(u) == Entries(t) + [(t.nextId, r)]
  {
    var u := Table(t.rows[t.nextId := r], t.order + [t.nextId], t.nextId + 1);
    assert forall i :: 0 <= i < |t.order| ==> t.order[i] < t.nextId by {
      forall i | 0 <= i < |t.order| ensures t.order[i] < t.nextId {
        assert t.order[i] in t.order;
      }
    }
    assert forall k :: k in u.rows <==> k in u.order by {
      forall k ensures k in u.rows <==> k in u.order {
        assert k in u.order <==> k in t.order || k == t.nextId;
      }
    }
    u
  }

  /** Assign new field values to an existing row, then commit. */
  function Put<R>(t: Table<R>, id: nat, r: R): (u: Table<R>)
    requires t.Valid() && id in t.rows
    ensures u.Valid()
    ensures u.rows.Keys == t.rows.Keys && u.order == t.order && u.nextId == t.nextId
    ensures Find(u, id) == Some(r)
    ensures forall k :: k != id ==> Find(u, k) == Find(t, k)
    ensures forall i :: 0 <= i < |t.order| && t.order[i] != id ==> Entries(u)[i] == Entries(t)[i]
  {
    Table(t.rows[id := r], t.order, t.nextId)
  }

  /** `s` without the elements of `d`, in the same order. */
  function Without(s: seq<nat>, d: set<nat>): (r: seq<nat>)
    ensures forall x :: x in r <==> x in s && x !in d
    ensures Increasing(s) ==> Increasing(r)
  {
    if s == [] then []
    else
      var rest := Without(s[1..], d);
      assert Increasing(s) ==> forall x :: x in rest ==> s[0] < x by {
        if Increasing(s) {
          forall x | x in rest ensures s[0] < x {
            var j :| 0 <= j < |s[1..]| && s[1..][j] == x;
            assert s[j + 1] == x;
          }
        }
      }
      if s[0] in d then rest
      else
        assert Increasing(s) ==> Increasing([s[0]] + rest) by {
          if Increasing(s) {
            forall i, j | 0 <= i < j < |[s[0]] + rest| ensures ([s[0]] + rest)[i] < ([s[0]] + rest)[j] {
              assert rest[j - 1] in rest;
            }
          }
        }
        [s[0]] + rest
  }

  /** `db.delete(x)` on each row of `ids` (plus commit); ids are never reused,
      since `nextId` stays. */
  function RemoveAll<R>(t: Table<R>, ids: set<nat>): (u: Table<R>)
    requires t.Valid()
    ensures u.Valid()
    ensures u.rows.Keys == t.rows.Keys - ids && u.nextId == t.nextId
    ensures forall k :: Find(u, k) == if k >= 0 && k in ids then None else Find(t, k)
    ensures u.order == Without(t.order, ids)
  {
    Table(t.rows - ids, Without(t.order, ids), t.nextId)
  }

  /** A row that the removal spares is still listed, with the same value. */
  lemma {:induction false} WithoutKeepsEntries<R>(t: Table<R>, ids: set<nat>, i: nat)
    requires t.Valid() && i < |t.order| && t.order[i] !in ids
    ensures var u := RemoveAll(t, ids);
      exists j :: 0 <= j < |u.order| && Entries(u)[j] == Entries(t)[i]
  {
    var u := RemoveAll(t, ids);
    assert t.order[i] in u.order;
    var j :| 0 <= j < |u.order| && u.order[j] == t.order[i];
    assert Entries(u)[j] == Entries(t)[i];
  }

  /** Conversely, everything listed after a removal was listed before and
      was not removed. */
  lemma RemoveAllListsOnlyKept<R>(t: Table<R>, ids: set<nat>, j: nat)
    requires t.Valid()
    ensures var u := RemoveAll(t, ids);
      j < |u.order| ==> exists i :: 0 <= i < |t.order| && t.order[i] !in ids && Entries(t)[i] == Entries(u)[j]
  {
    var u := RemoveAll(t, ids);
    if j < |u.order| {
      assert u.order[j] in u.order;
      var i :| 0 <= i < |t.order| && t.order[i] == u.order[j];
      assert Entries(t)[i] == Entries(u)[j];
    }
  }

  lemma IncreasingTail(s: seq<nat>)
    requires Increasing(s) && s != []
    ensures Increasing(s[1..])
    ensures forall x :: x in s[1..] ==> s[0] < x
  {
    forall x | x in s[1..] ensures s[0] < x {
      var i :| 0 <= i < |s[1..]| && s[1..][i] == x;
      assert s[i + 1] == x;
    }
  }

  function Elements(s: seq<nat>): set<nat> {
    set x | x in s
  }

  lemma ElementsCons(s: seq<nat>)
    requires s != []
    ensures Elements(s) == {s[0]} + Elements(s[1..])
  {
    assert s == [s[0]] + s[1..];
  }

  lemma {:induction false} IncreasingCard(s: seq<nat>)
    requires Increasing(s)
    ensures |Elements(s)| == |s|
    decreases |s|
  {
    if s != [] {
      IncreasingTail(s);
      IncreasingCard(s[1..]);
      ElementsCons(s);
      assert s[0] !in Elements(s[1..]);
    }
  }

  /** The number of stored rows is the length of the listing. */
  lemma SizeIsLength<R>(t: Table<R>)
    requires t.Valid()
    ensures |t.rows| == |t.order|
  {
    assert t.rows.Keys == Elements(t.order);
    IncreasingCard(t.order);
  }
}
