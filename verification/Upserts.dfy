/** One pass of a declarative import over one table.

    Access lists, hosts and streams are imported the same way: each document entry
    is looked up by its natural key, checked against the row it found, validated,
    checked against every other row, and written in place or appended. A `Kind` says
    what those steps are for one sort of entry; the laws a kind obeys give what a
    pass keeps and what a second pass over the same entries does. */
module Upserts {
  import opened Basics

  datatype Row<+R> = Row(id: int, body: R)

  /** A table in id order; `next` is the id an insert gets (AUTOINCREMENT). */
  datatype Table<+R> = Table(rows: seq<Row<R>>, next: int)

  datatype Kind<!E, !R, !K> = Kind(
    key: E -> K,
    rowKey: R -> K,
    usable: K -> bool,
    refuses: (R, E) -> bool,
    settle: (Option<R>, E) -> Option<R>,
    clash: (R, R) -> bool)

  /** Where a pass stands: the table, the rows by key as first read or created, the
      row each entry so far went to, and the two counts. */
  datatype Pass<!R, !K> = Pass(table: Table<R>, index: map<K, Row<R>>, ids: seq<int>, created: nat, updated: nat)

  function Index<E, R, K(==)>(kind: Kind<E, R, K>, rows: seq<Row<R>>): map<K, Row<R>> {
    if |rows| == 0 then map[]
    else
      var last := rows[|rows| - 1];
      Index(kind, rows[..|rows| - 1])[kind.rowKey(last.body) := last]
  }

  function Position<R>(rows: seq<Row<R>>, id: int): (at: Option<nat>)
    ensures at.Some? ==> at.value < |rows| && rows[at.value].id == id
    ensures at.None? ==> forall i :: 0 <= i < |rows| ==> rows[i].id != id
  {
    if |rows| == 0 then None
    else if rows[|rows| - 1].id == id then Some(|rows| - 1)
    else Position(rows[..|rows| - 1], id)
  }

  predicate Clashes<E, R, K>(kind: Kind<E, R, K>, rows: seq<Row<R>>, id: int, body: R) {
    exists i :: 0 <= i < |rows| && rows[i].id != id && kind.clash(rows[i].body, body)
  }

  function Start<E, R, K(==)>(kind: Kind<E, R, K>, t: Table<R>): Pass<R, K> {
    Pass(t, Index(kind, t.rows), [], 0, 0)
  }

  function Replace<E, R, K(==)>(kind: Kind<E, R, K>, p: Pass<R, K>, e: E, cur: Row<R>): Option<Pass<R, K>> {
    if kind.refuses(cur.body, e) then None
    else
      var at := Position(p.table.rows, cur.id);
      if at.None? then None
      else
        var body := kind.settle(Some(p.table.rows[at.value].body), e);
        if body.None? || Clashes(kind, p.table.rows, cur.id, body.value) then None
        else
          Some(p.(table := p.table.(rows := p.table.rows[at.value := Row(cur.id, body.value)]),
                  ids := p.ids + [cur.id], updated := p.updated + 1))
  }

  function Append<E, R, K(==)>(kind: Kind<E, R, K>, p: Pass<R, K>, e: E): Option<Pass<R, K>> {
    var body := kind.settle(None, e);
    if body.None? || Clashes(kind, p.table.rows, 0, body.value) then None
    else
      var row := Row(p.table.next, body.value);
      Some(Pass(Table(p.table.rows + [row], p.table.next + 1), p.index[kind.rowKey(body.value) := row],
                p.ids + [row.id], p.created + 1, p.updated))
  }

  function Upsert<E, R, K(==)>(kind: Kind<E, R, K>, p: Pass<R, K>, e: E): Option<Pass<R, K>> {
    var key := kind.key(e);
    if key in p.index && kind.usable(key) then Replace(kind, p, e, p.index[key]) else Append(kind, p, e)
  }

  function Run<E, R, K(==)>(kind: Kind<E, R, K>, t: Table<R>, entries: seq<E>): Option<Pass<R, K>> {
    if |entries| == 0 then Some(Start(kind, t))
    else
      var before := Run(kind, t, entries[..|entries| - 1]);
      if before.None? then None else Upsert(kind, before.value, entries[|entries| - 1])
  }

  lemma {:induction false} FailedStaysFailed<E, R, K>(kind: Kind<E, R, K>, t: Table<R>, entries: seq<E>, n: nat)
    requires n <= |entries|
    requires Run(kind, t, entries[..n]).None?
    ensures Run(kind, t, entries).None?
    decreases |entries| - n
  {
    if n < |entries| {
      assert entries[..n + 1][..n] == entries[..n];
      FailedStaysFailed(kind, t, entries, n + 1);
    } else {
      assert entries[..n] == entries;
    }
  }

  // ---- what a pass keeps ----

  /** What makes a kind's steps fit together. `stored` is what every row satisfies,
      `kept(a, b)` that b took nothing away from a. */
  ghost predicate Lawful<E(!new), R(!new), K>(kind: Kind<E, R, K>, stored: R -> bool, kept: (R, R) -> bool) {
    && (forall p, e :: kind.settle(p, e).Some? ==>
          var r := kind.settle(p, e).value;
          kind.rowKey(r) == kind.key(e) && kind.usable(kind.key(e)) && stored(r))
    && (forall a, b :: kind.clash(a, b) ==> kind.clash(b, a))
    && (forall a :: kept(a, a))
    && (forall a, p, e :: stored(a) && !kind.refuses(a, e) && kind.settle(p, e).Some? ==>
          kept(a, kind.settle(p, e).value))
  }

  ghost predicate Tidy<E, R, K>(kind: Kind<E, R, K>, t: Table<R>, stored: R -> bool) {
    && 1 <= t.next
    && (forall i :: 0 <= i < |t.rows| ==> 1 <= t.rows[i].id < t.next && stored(t.rows[i].body))
    && (forall i, j :: 0 <= i < j < |t.rows| ==> t.rows[i].id != t.rows[j].id)
    && (forall i, j :: 0 <= i < j < |t.rows| ==> kind.rowKey(t.rows[i].body) != kind.rowKey(t.rows[j].body))
    && (forall i, j :: 0 <= i < |t.rows| && 0 <= j < |t.rows| && i != j ==>
          !kind.clash(t.rows[i].body, t.rows[j].body))
  }

  /** Nothing of t0 is gone from t: same rows in the same places, under the same id
      and key, none of which lost anything. */
  ghost predicate Kept<E, R, K>(kind: Kind<E, R, K>, t0: Table<R>, t: Table<R>, kept: (R, R) -> bool) {
    && |t0.rows| <= |t.rows|
    && forall i :: 0 <= i < |t0.rows| ==>
         && t.rows[i].id == t0.rows[i].id
         && kind.rowKey(t.rows[i].body) == kind.rowKey(t0.rows[i].body)
         && kept(t0.rows[i].body, t.rows[i].body)
  }

  /** The index names every row by its key, under the row's id. */
  ghost predicate Indexed<E, R, K>(kind: Kind<E, R, K>, p: Pass<R, K>) {
    && (forall i :: 0 <= i < |p.table.rows| ==>
          && kind.rowKey(p.table.rows[i].body) in p.index
          && p.index[kind.rowKey(p.table.rows[i].body)].id == p.table.rows[i].id)
    && (forall k :: k in p.index ==> exists i :: 0 <= i < |p.table.rows| && kind.rowKey(p.table.rows[i].body) == k)
  }

  /** For a row of t0 the index still holds it as it was read. */
  ghost predicate AsRead<E, R, K>(kind: Kind<E, R, K>, t0: Table<R>, p: Pass<R, K>) {
    forall i :: 0 <= i < |t0.rows| ==>
      kind.rowKey(t0.rows[i].body) in p.index && p.index[kind.rowKey(t0.rows[i].body)] == t0.rows[i]
  }

  ghost predicate Counted<R, K>(t0: Table<R>, p: Pass<R, K>) {
    && |p.table.rows| == |t0.rows| + p.created
    && |p.ids| == p.created + p.updated
  }

  ghost predicate Inv<E, R, K>(kind: Kind<E, R, K>, stored: R -> bool, kept: (R, R) -> bool, t0: Table<R>, p: Pass<R, K>) {
    && Tidy(kind, p.table, stored)
    && Kept(kind, t0, p.table, kept)
    && Indexed(kind, p)
    && AsRead(kind, t0, p)
    && Counted(t0, p)
  }

  lemma {:induction false} IndexHoldsRows<E, R, K>(kind: Kind<E, R, K>, rows: seq<Row<R>>)
    requires forall i, j :: 0 <= i < j < |rows| ==> kind.rowKey(rows[i].body) != kind.rowKey(rows[j].body)
    ensures forall i :: 0 <= i < |rows| ==>
      kind.rowKey(rows[i].body) in Index(kind, rows) && Index(kind, rows)[kind.rowKey(rows[i].body)] == rows[i]
    ensures forall k :: k in Index(kind, rows) ==> exists i :: 0 <= i < |rows| && kind.rowKey(rows[i].body) == k
  {
    if |rows| > 0 {
      var front := rows[..|rows| - 1];
      IndexHoldsRows(kind, front);
      forall k | k in Index(kind, rows) ensures exists i :: 0 <= i < |rows| && kind.rowKey(rows[i].body) == k {
        if k != kind.rowKey(rows[|rows| - 1].body) {
          var i :| 0 <= i < |front| && kind.rowKey(front[i].body) == k;
          assert rows[i] == front[i];
        }
      }
      forall i | 0 <= i < |rows|
        ensures kind.rowKey(rows[i].body) in Index(kind, rows) && Index(kind, rows)[kind.rowKey(rows[i].body)] == rows[i]
      {
        if i < |front| { assert rows[i] == front[i]; }
      }
    }
  }

  lemma StartInv<E(!new), R(!new), K>(kind: Kind<E, R, K>, stored: R -> bool, kept: (R, R) -> bool, t: Table<R>)
    requires Lawful(kind, stored, kept)
    requires Tidy(kind, t, stored)
    ensures Inv(kind, stored, kept, t, Start(kind, t))
  {
    IndexHoldsRows(kind, t.rows);
  }

  /** The place of the row an indexed key stands for. */
  lemma WhereIndexed<E, R, K>(kind: Kind<E, R, K>, p: Pass<R, K>, key: K, stored: R -> bool) returns (at: nat)
    requires Tidy(kind, p.table, stored) && Indexed(kind, p) && key in p.index
    ensures at < |p.table.rows|
    ensures kind.rowKey(p.table.rows[at].body) == key && p.table.rows[at].id == p.index[key].id
    ensures Position(p.table.rows, p.index[key].id) == Some(at)
  {
    at :| 0 <= at < |p.table.rows| && kind.rowKey(p.table.rows[at].body) == key;
    var found := Position(p.table.rows, p.index[key].id);
    assert forall k :: 0 <= k < |p.table.rows| && k != at ==> p.table.rows[k].id != p.table.rows[at].id;
  }

  lemma ReplaceTidy<E(!new), R(!new), K>(kind: Kind<E, R, K>, stored: R -> bool, kept: (R, R) -> bool,
                                            t: Table<R>, at: nat, row: Row<R>, u: Table<R>)
    requires Lawful(kind, stored, kept) && Tidy(kind, t, stored)
    requires at < |t.rows| && row.id == t.rows[at].id && kind.rowKey(row.body) == kind.rowKey(t.rows[at].body)
    requires stored(row.body) && !Clashes(kind, t.rows, row.id, row.body)
    requires u == t.(rows := t.rows[at := row])
    ensures Tidy(kind, u, stored)
  {
    forall i, j | 0 <= i < |u.rows| && 0 <= j < |u.rows| && i != j
      ensures !kind.clash(u.rows[i].body, u.rows[j].body)
    {
      if i != at && j != at {
        assert !kind.clash(t.rows[i].body, t.rows[j].body);
      } else {
        var other := if i == at then j else i;
        assert t.rows[other].id != row.id;
        assert !kind.clash(t.rows[other].body, row.body);
      }
    }
  }

  /** A replacing step writes one row, under the id and the key it had. */
  lemma ReplaceShape<E(!new), R(!new), K>(kind: Kind<E, R, K>, stored: R -> bool, kept: (R, R) -> bool,
                                             p: Pass<R, K>, e: E) returns (at: nat, row: Row<R>)
    requires Lawful(kind, stored, kept) && Tidy(kind, p.table, stored) && Indexed(kind, p)
    requires kind.key(e) in p.index && Replace(kind, p, e, p.index[kind.key(e)]).Some?
    ensures at < |p.table.rows| && row.id == p.table.rows[at].id == p.index[kind.key(e)].id
    ensures kind.rowKey(row.body) == kind.rowKey(p.table.rows[at].body) == kind.key(e)
    ensures kind.settle(Some(p.table.rows[at].body), e) == Some(row.body)
    ensures !kind.refuses(p.index[kind.key(e)].body, e) && !Clashes(kind, p.table.rows, row.id, row.body)
    ensures Replace(kind, p, e, p.index[kind.key(e)]).value
         == p.(table := p.table.(rows := p.table.rows[at := row]), ids := p.ids + [row.id], updated := p.updated + 1)
  {
    at := WhereIndexed(kind, p, kind.key(e), stored);
    row := Row(p.index[kind.key(e)].id, kind.settle(Some(p.table.rows[at].body), e).value);
  }

  lemma ReplaceIndexed<E, R, K>(kind: Kind<E, R, K>, p: Pass<R, K>, at: nat, row: Row<R>, q: Pass<R, K>)
    requires Indexed(kind, p)
    requires at < |p.table.rows| && row.id == p.table.rows[at].id
    requires kind.rowKey(row.body) == kind.rowKey(p.table.rows[at].body)
    requires q.table.rows == p.table.rows[at := row] && q.index == p.index
    ensures Indexed(kind, q)
  {
    forall k | k in q.index
      ensures exists i :: 0 <= i < |q.table.rows| && kind.rowKey(q.table.rows[i].body) == k
    {
      var i :| 0 <= i < |p.table.rows| && kind.rowKey(p.table.rows[i].body) == k;
      assert kind.rowKey(q.table.rows[i].body) == k;
    }
  }

  lemma ReplaceKept<E(!new), R(!new), K>(kind: Kind<E, R, K>, stored: R -> bool, kept: (R, R) -> bool,
                                            t0: Table<R>, p: Pass<R, K>, e: E, at: nat, row: Row<R>)
    requires Lawful(kind, stored, kept) && Tidy(kind, t0, stored)
    requires Kept(kind, t0, p.table, kept) && AsRead(kind, t0, p)
    requires kind.key(e) in p.index && at < |p.table.rows|
    requires row.id == p.table.rows[at].id && kind.rowKey(row.body) == kind.rowKey(p.table.rows[at].body) == kind.key(e)
    requires kind.settle(Some(p.table.rows[at].body), e) == Some(row.body)
    requires !kind.refuses(p.index[kind.key(e)].body, e)
    ensures Kept(kind, t0, p.table.(rows := p.table.rows[at := row]), kept)
  {
    if at < |t0.rows| {
      assert p.index[kind.key(e)] == t0.rows[at];
      assert kept(t0.rows[at].body, row.body);
    }
  }

  lemma ReplaceInv<E(!new), R(!new), K>(kind: Kind<E, R, K>, stored: R -> bool, kept: (R, R) -> bool,
                                           t0: Table<R>, p: Pass<R, K>, e: E)
    requires Lawful(kind, stored, kept) && Tidy(kind, t0, stored) && Inv(kind, stored, kept, t0, p)
    requires kind.key(e) in p.index && Replace(kind, p, e, p.index[kind.key(e)]).Some?
    ensures Inv(kind, stored, kept, t0, Replace(kind, p, e, p.index[kind.key(e)]).value)
  {
    hide Tidy, Kept, Indexed, Clashes, Replace;
    var at, row := ReplaceShape(kind, stored, kept, p, e);
    var q := Replace(kind, p, e, p.index[kind.key(e)]).value;
    ReplaceTidy(kind, stored, kept, p.table, at, row, q.table);
    ReplaceIndexed(kind, p, at, row, q);
    ReplaceKept(kind, stored, kept, t0, p, e, at, row);
  }

  lemma AppendTidy<E(!new), R(!new), K>(kind: Kind<E, R, K>, stored: R -> bool, kept: (R, R) -> bool,
                                           t: Table<R>, body: R)
    requires Lawful(kind, stored, kept) && Tidy(kind, t, stored) && stored(body)
    requires !Clashes(kind, t.rows, 0, body)
    requires forall i :: 0 <= i < |t.rows| ==> kind.rowKey(t.rows[i].body) != kind.rowKey(body)
    ensures Tidy(kind, Table(t.rows + [Row(t.next, body)], t.next + 1), stored)
  {
    var u := Table(t.rows + [Row(t.next, body)], t.next + 1);
    forall i, j | 0 <= i < |u.rows| && 0 <= j < |u.rows| && i != j
      ensures !kind.clash(u.rows[i].body, u.rows[j].body)
    {
      if i < |t.rows| && j < |t.rows| {
        assert !kind.clash(t.rows[i].body, t.rows[j].body);
      } else {
        var other := if i == |t.rows| then j else i;
        assert t.rows[other].id != 0;
        assert !kind.clash(t.rows[other].body, body);
      }
    }
  }

  lemma AppendIndexed<E, R, K>(kind: Kind<E, R, K>, p: Pass<R, K>, row: Row<R>, q: Pass<R, K>)
    requires Indexed(kind, p) && kind.rowKey(row.body) !in p.index
    requires q.table.rows == p.table.rows + [row] && q.index == p.index[kind.rowKey(row.body) := row]
    ensures Indexed(kind, q)
  {
    forall k | k in q.index
      ensures exists i :: 0 <= i < |q.table.rows| && kind.rowKey(q.table.rows[i].body) == k
    {
      if k == kind.rowKey(row.body) {
        assert q.table.rows[|p.table.rows|] == row;
      } else {
        var i :| 0 <= i < |p.table.rows| && kind.rowKey(p.table.rows[i].body) == k;
        assert kind.rowKey(q.table.rows[i].body) == k;
      }
    }
  }

  lemma UnusedKey<E, R, K>(kind: Kind<E, R, K>, p: Pass<R, K>, key: K)
    requires Indexed(kind, p) && key !in p.index
    ensures forall i :: 0 <= i < |p.table.rows| ==> kind.rowKey(p.table.rows[i].body) != key
  {
    assert forall i :: 0 <= i < |p.table.rows| ==> kind.rowKey(p.table.rows[i].body) in p.index;
  }

  lemma AppendInv<E(!new), R(!new), K>(kind: Kind<E, R, K>, stored: R -> bool, kept: (R, R) -> bool,
                                          t0: Table<R>, p: Pass<R, K>, e: E)
    requires Lawful(kind, stored, kept) && Tidy(kind, t0, stored) && Inv(kind, stored, kept, t0, p)
    requires kind.key(e) !in p.index && Append(kind, p, e).Some?
    ensures Inv(kind, stored, kept, t0, Append(kind, p, e).value)
  {
    hide Tidy, Indexed, Clashes;
    var q := Append(kind, p, e).value;
    var body := kind.settle(None, e).value;
    var row := Row(p.table.next, body);
    assert kind.rowKey(body) == kind.key(e) && stored(body);
    UnusedKey(kind, p, kind.key(e));
    AppendTidy(kind, stored, kept, p.table, body);
    AppendIndexed(kind, p, row, q);
  }

  lemma UpsertInv<E(!new), R(!new), K>(kind: Kind<E, R, K>, stored: R -> bool, kept: (R, R) -> bool,
                                          t0: Table<R>, p: Pass<R, K>, e: E)
    requires Lawful(kind, stored, kept) && Tidy(kind, t0, stored) && Inv(kind, stored, kept, t0, p)
    requires Upsert(kind, p, e).Some?
    ensures Inv(kind, stored, kept, t0, Upsert(kind, p, e).value)
    ensures Upsert(kind, p, e).value.ids == p.ids + [Upsert(kind, p, e).value.ids[|p.ids|]]
  {
    hide Tidy, Indexed, Clashes, Inv, Kept;
    if kind.key(e) in p.index && kind.usable(kind.key(e)) {
      ReplaceInv(kind, stored, kept, t0, p, e);
    } else {
      assert kind.settle(None, e).Some?;
      AppendInv(kind, stored, kept, t0, p, e);
    }
  }

  /** A pass that succeeds took away nothing that was in the table, left every row's
      id and key alone, and kept keys, ids and claims of different rows apart. */
  lemma {:induction false} RunInv<E(!new), R(!new), K>(
      kind: Kind<E, R, K>, stored: R -> bool, kept: (R, R) -> bool, t: Table<R>, entries: seq<E>)
    requires Lawful(kind, stored, kept) && Tidy(kind, t, stored)
    requires Run(kind, t, entries).Some?
    ensures Inv(kind, stored, kept, t, Run(kind, t, entries).value)
    ensures |Run(kind, t, entries).value.ids| == |entries|
  {
    hide Tidy, Inv, Lawful, Upsert;
    if |entries| == 0 {
      StartInv(kind, stored, kept, t);
    } else {
      var front := entries[..|entries| - 1];
      RunInv(kind, stored, kept, t, front);
      UpsertInv(kind, stored, kept, t, Run(kind, t, front).value, entries[|entries| - 1]);
    }
  }

  // ---- a second pass ----

  /** The row with this id holds what the entry settles to. */
  ghost predicate Landed<E, R(!new), K>(kind: Kind<E, R, K>, rows: seq<Row<R>>, id: int, e: E) {
    exists at, prev: Option<R> :: 0 <= at < |rows| && rows[at].id == id
      && kind.rowKey(rows[at].body) == kind.key(e) && kind.settle(prev, e) == Some(rows[at].body)
  }

  ghost predicate DistinctKeys<E, R, K>(kind: Kind<E, R, K>, entries: seq<E>) {
    forall i, j :: 0 <= i < j < |entries| ==> kind.key(entries[i]) != kind.key(entries[j])
  }

  /** Settling an entry over the row it settled to changes nothing, and that row
      refuses the entry just when `again` fails. */
  ghost predicate Repeatable<E(!new), R(!new), K>(kind: Kind<E, R, K>, again: E -> bool) {
    forall p, e :: kind.settle(p, e).Some? ==>
      var r := kind.settle(p, e).value;
      kind.settle(Some(r), e) == Some(r) && kind.refuses(r, e) == !again(e)
  }

  lemma LandsNow<E(!new), R(!new), K>(kind: Kind<E, R, K>, stored: R -> bool, kept: (R, R) -> bool,
                                         t0: Table<R>, p: Pass<R, K>, e: E)
    requires Lawful(kind, stored, kept) && Tidy(kind, t0, stored) && Inv(kind, stored, kept, t0, p)
    requires Upsert(kind, p, e).Some?
    ensures |Upsert(kind, p, e).value.ids| == |p.ids| + 1
    ensures Landed(kind, Upsert(kind, p, e).value.table.rows, Upsert(kind, p, e).value.ids[|p.ids|], e)
  {
    hide Tidy, Indexed, Clashes, Kept, AsRead;
    var q := Upsert(kind, p, e).value;
    if kind.key(e) in p.index && kind.usable(kind.key(e)) {
      var at, row := ReplaceShape(kind, stored, kept, p, e);
      assert q.table.rows[at] == row;
    } else {
      var at := |p.table.rows|;
      assert q.table.rows[at].body == kind.settle(None, e).value;
    }
  }

  lemma StaysLanded<E(!new), R(!new), K>(kind: Kind<E, R, K>, stored: R -> bool, kept: (R, R) -> bool,
                                            t0: Table<R>, p: Pass<R, K>, e: E, id: int, earlier: E)
    requires Lawful(kind, stored, kept) && Tidy(kind, t0, stored) && Inv(kind, stored, kept, t0, p)
    requires Upsert(kind, p, e).Some?
    requires Landed(kind, p.table.rows, id, earlier) && kind.key(earlier) != kind.key(e)
    ensures Landed(kind, Upsert(kind, p, e).value.table.rows, id, earlier)
  {
    hide Tidy, Indexed, Clashes, Kept, AsRead;
    var q := Upsert(kind, p, e).value;
    var there, prev: Option<R> :| 0 <= there < |p.table.rows| && p.table.rows[there].id == id
      && kind.rowKey(p.table.rows[there].body) == kind.key(earlier)
      && kind.settle(prev, earlier) == Some(p.table.rows[there].body);
    if kind.key(e) in p.index && kind.usable(kind.key(e)) {
      var at, row := ReplaceShape(kind, stored, kept, p, e);
    }
    assert q.table.rows[there] == p.table.rows[there];
  }

  /** After a pass over entries with distinct keys, every entry is where its id says. */
  lemma {:induction false} RunLands<E(!new), R(!new), K>(
      kind: Kind<E, R, K>, stored: R -> bool, kept: (R, R) -> bool, t: Table<R>, entries: seq<E>, i: nat)
    requires Lawful(kind, stored, kept) && Tidy(kind, t, stored)
    requires DistinctKeys(kind, entries) && Run(kind, t, entries).Some? && i < |entries|
    ensures |Run(kind, t, entries).value.ids| == |entries|
    ensures Landed(kind, Run(kind, t, entries).value.table.rows, Run(kind, t, entries).value.ids[i], entries[i])
    decreases |entries|
  {
    hide Tidy, Inv, Lawful, Upsert, Landed;
    var front, e := entries[..|entries| - 1], entries[|entries| - 1];
    var p := Run(kind, t, front).value;
    RunInv(kind, stored, kept, t, front);
    UpsertInv(kind, stored, kept, t, p, e);
    if i == |front| {
      LandsNow(kind, stored, kept, t, p, e);
    } else {
      RunLands(kind, stored, kept, t, front, i);
      StaysLanded(kind, stored, kept, t, p, e, p.ids[i], front[i]);
    }
  }

  /** A row with this id has this key. */
  ghost predicate Keyed<E, R, K>(kind: Kind<E, R, K>, rows: seq<Row<R>>, id: int, key: K) {
    exists at :: 0 <= at < |rows| && rows[at].id == id && kind.rowKey(rows[at].body) == key
  }

  lemma StaysKeyed<E(!new), R(!new), K>(kind: Kind<E, R, K>, stored: R -> bool, kept: (R, R) -> bool,
                                       t0: Table<R>, p: Pass<R, K>, e: E, id: int, key: K)
    requires Lawful(kind, stored, kept) && Inv(kind, stored, kept, t0, p)
    requires Upsert(kind, p, e).Some? && Keyed(kind, p.table.rows, id, key)
    ensures Keyed(kind, Upsert(kind, p, e).value.table.rows, id, key)
  {
    hide Tidy, Indexed, Clashes, Kept, AsRead;
    var q := Upsert(kind, p, e).value;
    var there :| 0 <= there < |p.table.rows| && p.table.rows[there].id == id && kind.rowKey(p.table.rows[there].body) == key;
    if kind.key(e) in p.index && kind.usable(kind.key(e)) {
      var at, row := ReplaceShape(kind, stored, kept, p, e);
    }
    assert q.table.rows[there].id == id && kind.rowKey(q.table.rows[there].body) == key;
  }

  /** Whether or not keys repeat, the row an entry went to has the entry's key. */
  lemma {:induction false} RunGoes<E(!new), R(!new), K>(
      kind: Kind<E, R, K>, stored: R -> bool, kept: (R, R) -> bool, t: Table<R>, entries: seq<E>, i: nat)
    requires Lawful(kind, stored, kept) && Tidy(kind, t, stored) && Run(kind, t, entries).Some? && i < |entries|
    ensures |Run(kind, t, entries).value.ids| == |entries|
    ensures Keyed(kind, Run(kind, t, entries).value.table.rows, Run(kind, t, entries).value.ids[i], kind.key(entries[i]))
    decreases |entries|
  {
    hide Tidy, Inv, Lawful, Upsert, Keyed;
    var front, e := entries[..|entries| - 1], entries[|entries| - 1];
    var p := Run(kind, t, front).value;
    RunInv(kind, stored, kept, t, front);
    UpsertInv(kind, stored, kept, t, p, e);
    if i == |front| {
      LandsNow(kind, stored, kept, t, p, e);
      LandedIsKeyed(kind, Run(kind, t, entries).value.table.rows, Run(kind, t, entries).value.ids[i], e);
    } else {
      RunGoes(kind, stored, kept, t, front, i);
      StaysKeyed(kind, stored, kept, t, p, e, p.ids[i], kind.key(front[i]));
    }
  }

  lemma LandedIsKeyed<E, R(!new), K>(kind: Kind<E, R, K>, rows: seq<Row<R>>, id: int, e: E)
    requires Landed(kind, rows, id, e)
    ensures Keyed(kind, rows, id, kind.key(e))
  {
  }

  /** A row of a tidy table is found by its id and clashes with no other. */
  lemma OnlyPlace<E, R, K>(kind: Kind<E, R, K>, t: Table<R>, stored: R -> bool, at: nat)
    requires Tidy(kind, t, stored) && at < |t.rows|
    ensures Position(t.rows, t.rows[at].id) == Some(at)
    ensures !Clashes(kind, t.rows, t.rows[at].id, t.rows[at].body)
  {
    var found := Position(t.rows, t.rows[at].id);
    assert forall k :: 0 <= k < |t.rows| && k != at ==> t.rows[k].id != t.rows[at].id;
  }

  lemma TidyIndex<E, R, K>(kind: Kind<E, R, K>, t: Table<R>, stored: R -> bool, at: nat)
    requires Tidy(kind, t, stored) && at < |t.rows|
    ensures kind.rowKey(t.rows[at].body) in Index(kind, t.rows)
    ensures Index(kind, t.rows)[kind.rowKey(t.rows[at].body)] == t.rows[at]
  {
    IndexHoldsRows(kind, t.rows);
  }

  /** One step of a second pass: refused, or without effect on the table. */
  lemma UpsertAgain<E(!new), R(!new), K>(kind: Kind<E, R, K>, stored: R -> bool, again: E -> bool,
                                            t: Table<R>, ids: seq<int>, n: nat, id: int, e: E)
    requires Tidy(kind, t, stored) && Repeatable(kind, again)
    requires Landed(kind, t.rows, id, e)
    requires kind.usable(kind.key(e))
    ensures Upsert(kind, Pass(t, Index(kind, t.rows), ids, 0, n), e)
         == if again(e) then Some(Pass(t, Index(kind, t.rows), ids + [id], 0, n + 1)) else None
  {
    hide Tidy, Clashes, Index;
    var p := Pass(t, Index(kind, t.rows), ids, 0, n);
    var at, prev: Option<R> :| 0 <= at < |t.rows| && t.rows[at].id == id
      && kind.rowKey(t.rows[at].body) == kind.key(e) && kind.settle(prev, e) == Some(t.rows[at].body);
    var row := t.rows[at];
    TidyIndex(kind, t, stored, at);
    OnlyPlace(kind, t, stored, at);
    assert kind.settle(Some(row.body), e) == Some(row.body) && kind.refuses(row.body, e) == !again(e);
    assert t.rows[at := row] == t.rows;
  }

  ghost predicate AllAgain<E>(again: E -> bool, entries: seq<E>) {
    forall i :: 0 <= i < |entries| ==> again(entries[i])
  }

  lemma {:induction false} AgainUpTo<E(!new), R(!new), K>(
      kind: Kind<E, R, K>, stored: R -> bool, again: E -> bool, t: Table<R>, ids: seq<int>, entries: seq<E>)
    requires Tidy(kind, t, stored) && Repeatable(kind, again)
    requires |ids| == |entries|
    requires forall i :: 0 <= i < |entries| ==> Landed(kind, t.rows, ids[i], entries[i]) && kind.usable(kind.key(entries[i]))
    ensures Run(kind, t, entries)
         == if AllAgain(again, entries) then Some(Pass(t, Index(kind, t.rows), ids, 0, |entries|)) else None
  {
    hide Tidy, Repeatable, Landed, Upsert;
    if |entries| == 0 {
      assert ids == [];
    } else {
      var n := |entries| - 1;
      AgainUpTo(kind, stored, again, t, ids[..n], entries[..n]);
      if AllAgain(again, entries[..n]) {
        UpsertAgain(kind, stored, again, t, ids[..n], n, ids[n], entries[n]);
        assert ids[..n] + [ids[n]] == ids;
      }
    }
  }

  /** A second pass over the same entries, with distinct keys: it is refused if some
      entry is refused by the row it settled to, and otherwise creates nothing, goes
      to the same rows and leaves the table as it is. */
  lemma RunTwice<E(!new), R(!new), K>(kind: Kind<E, R, K>, stored: R -> bool, kept: (R, R) -> bool, again: E -> bool,
                                         t: Table<R>, entries: seq<E>)
    requires Lawful(kind, stored, kept) && Tidy(kind, t, stored) && Repeatable(kind, again)
    requires DistinctKeys(kind, entries) && Run(kind, t, entries).Some?
    ensures
      var p := Run(kind, t, entries).value;
      Run(kind, p.table, entries)
        == if AllAgain(again, entries) then Some(Pass(p.table, Index(kind, p.table.rows), p.ids, 0, |entries|)) else None
  {
    hide Tidy, Repeatable, Upsert, DistinctKeys, Run;
    var p := Run(kind, t, entries).value;
    RunInv(kind, stored, kept, t, entries);
    forall i | 0 <= i < |entries|
      ensures Landed(kind, p.table.rows, p.ids[i], entries[i]) && kind.usable(kind.key(entries[i]))
    {
      RunLands(kind, stored, kept, t, entries, i);
    }
    AgainUpTo(kind, stored, again, p.table, p.ids, entries);
  }

  /** A row no entry is for is left as it was. */
  lemma {:induction false} RunLeavesOthers<E(!new), R(!new), K>(
      kind: Kind<E, R, K>, stored: R -> bool, kept: (R, R) -> bool, t: Table<R>, entries: seq<E>, i: nat)
    requires Lawful(kind, stored, kept) && Tidy(kind, t, stored) && Run(kind, t, entries).Some?
    requires i < |t.rows| && forall j :: 0 <= j < |entries| ==> kind.key(entries[j]) != kind.rowKey(t.rows[i].body)
    ensures |t.rows| <= |Run(kind, t, entries).value.table.rows|
    ensures Run(kind, t, entries).value.table.rows[i] == t.rows[i]
    decreases |entries|
  {
    hide Tidy, Lawful, Upsert, Indexed, AsRead;
    if |entries| > 0 {
      var front, e := entries[..|entries| - 1], entries[|entries| - 1];
      RunInv(kind, stored, kept, t, front);
      RunLeavesOthers(kind, stored, kept, t, front, i);
      var p := Run(kind, t, front).value;
      UpsertInv(kind, stored, kept, t, p, e);
      StepLeavesOthers(kind, stored, kept, t, p, e, i);
    }
  }

  lemma StepLeavesOthers<E(!new), R(!new), K>(kind: Kind<E, R, K>, stored: R -> bool, kept: (R, R) -> bool,
                                                 t0: Table<R>, p: Pass<R, K>, e: E, i: nat)
    requires Lawful(kind, stored, kept) && Inv(kind, stored, kept, t0, p) && Upsert(kind, p, e).Some?
    requires i < |p.table.rows| && kind.key(e) != kind.rowKey(p.table.rows[i].body)
    ensures i < |Upsert(kind, p, e).value.table.rows|
    ensures Upsert(kind, p, e).value.table.rows[i] == p.table.rows[i]
  {
    hide Tidy, Lawful, Indexed, AsRead, Kept, Clashes;
    if kind.key(e) in p.index && kind.usable(kind.key(e)) {
      var at, row := ReplaceShape(kind, stored, kept, p, e);
    }
  }

  /** With distinct keys, the row an entry is for holds what the entry settles to. */
  lemma RunWrites<E(!new), R(!new), K>(
      kind: Kind<E, R, K>, stored: R -> bool, kept: (R, R) -> bool, t: Table<R>, entries: seq<E>, i: nat, j: nat)
    requires Lawful(kind, stored, kept) && Tidy(kind, t, stored)
    requires DistinctKeys(kind, entries) && Run(kind, t, entries).Some?
    requires i < |t.rows| && j < |entries| && kind.key(entries[j]) == kind.rowKey(t.rows[i].body)
    ensures |t.rows| <= |Run(kind, t, entries).value.table.rows|
    ensures exists prev: Option<R> :: kind.settle(prev, entries[j]) == Some(Run(kind, t, entries).value.table.rows[i].body)
  {
    hide Lawful, Run, Indexed, AsRead, DistinctKeys, Clashes;
    RunInv(kind, stored, kept, t, entries);
    RunLands(kind, stored, kept, t, entries, j);
    var p := Run(kind, t, entries).value;
    var at, prev: Option<R> :| 0 <= at < |p.table.rows| && p.table.rows[at].id == p.ids[j]
      && kind.rowKey(p.table.rows[at].body) == kind.key(entries[j]) && kind.settle(prev, entries[j]) == Some(p.table.rows[at].body);
    assert forall k :: 0 <= k < |p.table.rows| && k != i ==> kind.rowKey(p.table.rows[k].body) != kind.rowKey(p.table.rows[i].body);
  }

  // ---- what a pass stores, and why one is refused ----

  /** What was stored under a key before the pass. */
  ghost function Before<E(!new), R(!new), K>(kind: Kind<E, R, K>, t: Table<R>, key: K): (prev: Option<R>)
    ensures prev.Some? ==> exists i :: 0 <= i < |t.rows| && kind.rowKey(t.rows[i].body) == key && t.rows[i].body == prev.value
    ensures prev.None? ==> forall i :: 0 <= i < |t.rows| ==> kind.rowKey(t.rows[i].body) != key
  {
    if i :| 0 <= i < |t.rows| && kind.rowKey(t.rows[i].body) == key then Some(t.rows[i].body) else None
  }

  /** The row with this id holds what the entry settles to over what was there before. */
  ghost predicate LandedFrom<E(!new), R(!new), K>(kind: Kind<E, R, K>, t: Table<R>, rows: seq<Row<R>>, id: int, e: E) {
    exists at :: 0 <= at < |rows| && rows[at].id == id
      && kind.rowKey(rows[at].body) == kind.key(e) && kind.settle(Before(kind, t, kind.key(e)), e) == Some(rows[at].body)
  }

  /** The rows of t are where they were, the first under their keys; no row of t has
      changed whose key no entry so far had. */
  lemma StillBefore<E(!new), R(!new), K>(
      kind: Kind<E, R, K>, stored: R -> bool, kept: (R, R) -> bool, t: Table<R>, front: seq<E>, p: Pass<R, K>, e: E)
    requires Lawful(kind, stored, kept) && Tidy(kind, t, stored) && Run(kind, t, front) == Some(p)
    requires Inv(kind, stored, kept, t, p)
    requires forall j :: 0 <= j < |front| ==> kind.key(front[j]) != kind.key(e)
    ensures Before(kind, t, kind.key(e)).Some? ==>
      kind.key(e) in p.index && p.index[kind.key(e)].body == Before(kind, t, kind.key(e)).value
      && exists i :: 0 <= i < |p.table.rows| && kind.rowKey(p.table.rows[i].body) == kind.key(e)
           && p.table.rows[i].body == Before(kind, t, kind.key(e)).value
  {
    hide Lawful, Run, Tidy, Indexed;
    var prev := Before(kind, t, kind.key(e));
    if prev.Some? {
      var i :| 0 <= i < |t.rows| && kind.rowKey(t.rows[i].body) == kind.key(e) && t.rows[i].body == prev.value;
      RunLeavesOthers(kind, stored, kept, t, front, i);
    }
  }

  /** Where no row had the key before, none has it until its entry comes. */
  lemma {:induction false} NoneYet<E(!new), R(!new), K>(
      kind: Kind<E, R, K>, stored: R -> bool, kept: (R, R) -> bool, t: Table<R>, front: seq<E>, key: K)
    requires Lawful(kind, stored, kept) && Tidy(kind, t, stored) && Run(kind, t, front).Some?
    requires forall j :: 0 <= j < |front| ==> kind.key(front[j]) != key
    requires forall i :: 0 <= i < |t.rows| ==> kind.rowKey(t.rows[i].body) != key
    ensures var rows := Run(kind, t, front).value.table.rows;
      forall i :: 0 <= i < |rows| ==> kind.rowKey(rows[i].body) != key
  {
    hide Tidy, Lawful, Upsert, Inv;
    if |front| > 0 {
      var before, e := front[..|front| - 1], front[|front| - 1];
      NoneYet(kind, stored, kept, t, before, key);
      RunInv(kind, stored, kept, t, before);
      NoneAdded(kind, stored, kept, t, Run(kind, t, before).value, e, key);
    }
  }

  lemma NoneAdded<E(!new), R(!new), K>(
      kind: Kind<E, R, K>, stored: R -> bool, kept: (R, R) -> bool, t0: Table<R>, p: Pass<R, K>, e: E, key: K)
    requires Lawful(kind, stored, kept) && Inv(kind, stored, kept, t0, p) && Upsert(kind, p, e).Some? && kind.key(e) != key
    requires forall i :: 0 <= i < |p.table.rows| ==> kind.rowKey(p.table.rows[i].body) != key
    ensures var rows := Upsert(kind, p, e).value.table.rows;
      forall i :: 0 <= i < |rows| ==> kind.rowKey(rows[i].body) != key
  {
    hide Tidy, Indexed, Clashes, Kept, AsRead;
    if kind.key(e) in p.index && kind.usable(kind.key(e)) {
      var at, row := ReplaceShape(kind, stored, kept, p, e);
    }
  }

  /** An entry is taken over what was there before: its row may be replaced, it settles,
      and what it settles to clashes with no other row. */
  ghost predicate Taken<E(!new), R(!new), K>(kind: Kind<E, R, K>, t: Table<R>, rows: seq<Row<R>>, e: E) {
    var prev := Before(kind, t, kind.key(e));
    && (prev.Some? ==> !kind.refuses(prev.value, e))
    && kind.settle(prev, e).Some?
    && forall i :: 0 <= i < |rows| && kind.rowKey(rows[i].body) != kind.key(e) ==> !kind.clash(rows[i].body, kind.settle(prev, e).value)
  }

  /** A step succeeds exactly if its entry is taken, and stores what it settles to: in the
      place of the row of its key, or as a new row under the next id. */
  lemma StepTakes<E(!new), R(!new), K>(
      kind: Kind<E, R, K>, stored: R -> bool, kept: (R, R) -> bool, t: Table<R>, front: seq<E>, e: E)
    requires Lawful(kind, stored, kept) && Tidy(kind, t, stored) && Run(kind, t, front).Some?
    requires forall j :: 0 <= j < |front| ==> kind.key(front[j]) != kind.key(e)
    ensures var p := Run(kind, t, front).value;
      && (Upsert(kind, p, e).Some? <==> Taken(kind, t, p.table.rows, e))
      && (Upsert(kind, p, e).Some? ==>
            var q := Upsert(kind, p, e).value;
            && |q.ids| == |p.ids| + 1 && LandedFrom(kind, t, q.table.rows, q.ids[|p.ids|], e)
            && (if Before(kind, t, kind.key(e)).Some? then |q.table.rows| == |p.table.rows| && q.created == p.created && q.updated == p.updated + 1
                else q.table.rows == p.table.rows + [Row(p.table.next, kind.settle(None, e).value)] && q.table.next == p.table.next + 1
                     && q.created == p.created + 1 && q.updated == p.updated))
  {
    hide Run, Inv, Tidy, Indexed, AsRead, Kept;
    var p := Run(kind, t, front).value;
    RunInv(kind, stored, kept, t, front);
    StillBefore(kind, stored, kept, t, front, p, e);
    if Before(kind, t, kind.key(e)).Some? {
      StepReplaces(kind, stored, kept, t, p, e);
    } else {
      NoneYet(kind, stored, kept, t, front, kind.key(e));
      StepAppends(kind, stored, kept, t, p, e);
    }
  }

  lemma StepReplaces<E(!new), R(!new), K>(
      kind: Kind<E, R, K>, stored: R -> bool, kept: (R, R) -> bool, t: Table<R>, p: Pass<R, K>, e: E)
    requires Lawful(kind, stored, kept) && Inv(kind, stored, kept, t, p)
    requires var prev := Before(kind, t, kind.key(e));
      && prev.Some? && kind.key(e) in p.index && p.index[kind.key(e)].body == prev.value
      && exists i :: 0 <= i < |p.table.rows| && kind.rowKey(p.table.rows[i].body) == kind.key(e) && p.table.rows[i].body == prev.value
    ensures Upsert(kind, p, e).Some? <==> Taken(kind, t, p.table.rows, e)
    ensures Upsert(kind, p, e).Some? ==>
      var q := Upsert(kind, p, e).value;
      && |q.ids| == |p.ids| + 1 && LandedFrom(kind, t, q.table.rows, q.ids[|p.ids|], e)
      && |q.table.rows| == |p.table.rows| && q.created == p.created && q.updated == p.updated + 1
  {
    hide Kept, AsRead, Counted;
    var key, prev := kind.key(e), Before(kind, t, kind.key(e));
    var at := WhereIndexed(kind, p, key, stored);
    var i :| 0 <= i < |p.table.rows| && kind.rowKey(p.table.rows[i].body) == key && p.table.rows[i].body == prev.value;
    OneOfKey(kind, p.table, stored, at, i);
    var body := kind.settle(prev, e);
    if body.Some? {
      ClashesMeans(kind, p.table, stored, p.index[key].id, at, body.value);
      if Upsert(kind, p, e).Some? {
        var q := Upsert(kind, p, e).value;
        assert q.table.rows[at] == Row(p.index[key].id, body.value);
      }
    }
  }

  lemma OneOfKey<E, R, K>(kind: Kind<E, R, K>, t: Table<R>, stored: R -> bool, i: nat, j: nat)
    requires Tidy(kind, t, stored) && i < |t.rows| && j < |t.rows|
    requires kind.rowKey(t.rows[i].body) == kind.rowKey(t.rows[j].body)
    ensures i == j
  {
  }

  /** Rows other than the one at `at` are those of another id, and those of another key. */
  lemma ClashesMeans<E(!new), R(!new), K>(kind: Kind<E, R, K>, t: Table<R>, stored: R -> bool, id: int, at: nat, body: R)
    requires Tidy(kind, t, stored) && at < |t.rows| && t.rows[at].id == id
    ensures Clashes(kind, t.rows, id, body) <==>
      exists i :: 0 <= i < |t.rows| && kind.rowKey(t.rows[i].body) != kind.rowKey(t.rows[at].body) && kind.clash(t.rows[i].body, body)
  {
    assert forall i :: 0 <= i < |t.rows| ==> (t.rows[i].id != id <==> i != at);
    assert forall i :: 0 <= i < |t.rows| ==> (kind.rowKey(t.rows[i].body) != kind.rowKey(t.rows[at].body) <==> i != at);
  }

  lemma StepAppends<E(!new), R(!new), K>(
      kind: Kind<E, R, K>, stored: R -> bool, kept: (R, R) -> bool, t: Table<R>, p: Pass<R, K>, e: E)
    requires Lawful(kind, stored, kept) && Inv(kind, stored, kept, t, p)
    requires Before(kind, t, kind.key(e)).None?
    requires forall i :: 0 <= i < |p.table.rows| ==> kind.rowKey(p.table.rows[i].body) != kind.key(e)
    ensures Upsert(kind, p, e).Some? <==> Taken(kind, t, p.table.rows, e)
    ensures Upsert(kind, p, e).Some? ==>
      var q := Upsert(kind, p, e).value;
      && |q.ids| == |p.ids| + 1 && LandedFrom(kind, t, q.table.rows, q.ids[|p.ids|], e)
      && q.table.rows == p.table.rows + [Row(p.table.next, kind.settle(None, e).value)] && q.table.next == p.table.next + 1
      && q.created == p.created + 1 && q.updated == p.updated
  {
    hide Kept, AsRead, Counted;
    assert kind.key(e) !in p.index;
    assert forall i :: 0 <= i < |p.table.rows| ==> p.table.rows[i].id != 0;
    if Upsert(kind, p, e).Some? {
      var q := Upsert(kind, p, e).value;
      assert q.table.rows[|p.table.rows|] == Row(p.table.next, kind.settle(None, e).value);
    }
  }

  lemma StaysLandedFrom<E(!new), R(!new), K>(kind: Kind<E, R, K>, stored: R -> bool, kept: (R, R) -> bool,
                                            t: Table<R>, p: Pass<R, K>, e: E, id: int, earlier: E)
    requires Lawful(kind, stored, kept) && Tidy(kind, t, stored) && Inv(kind, stored, kept, t, p)
    requires Upsert(kind, p, e).Some?
    requires LandedFrom(kind, t, p.table.rows, id, earlier) && kind.key(earlier) != kind.key(e)
    ensures LandedFrom(kind, t, Upsert(kind, p, e).value.table.rows, id, earlier)
  {
    hide Tidy, Indexed, Clashes, Kept, AsRead;
    var q := Upsert(kind, p, e).value;
    var there :| 0 <= there < |p.table.rows| && p.table.rows[there].id == id
      && kind.rowKey(p.table.rows[there].body) == kind.key(earlier)
      && kind.settle(Before(kind, t, kind.key(earlier)), earlier) == Some(p.table.rows[there].body);
    if kind.key(e) in p.index && kind.usable(kind.key(e)) {
      var at, row := ReplaceShape(kind, stored, kept, p, e);
    }
    assert q.table.rows[there] == p.table.rows[there];
  }

  /** After a pass over entries with distinct keys every entry's row holds what the entry
      settles to over what was stored under its key before the pass. */
  lemma {:induction false} RunStores<E(!new), R(!new), K>(
      kind: Kind<E, R, K>, stored: R -> bool, kept: (R, R) -> bool, t: Table<R>, entries: seq<E>, i: nat)
    requires Lawful(kind, stored, kept) && Tidy(kind, t, stored)
    requires DistinctKeys(kind, entries) && Run(kind, t, entries).Some? && i < |entries|
    ensures |Run(kind, t, entries).value.ids| == |entries|
    ensures LandedFrom(kind, t, Run(kind, t, entries).value.table.rows, Run(kind, t, entries).value.ids[i], entries[i])
    decreases |entries|
  {
    hide Tidy, Inv, Lawful, Upsert, LandedFrom, Taken;
    var front, e := entries[..|entries| - 1], entries[|entries| - 1];
    var p := Run(kind, t, front).value;
    RunInv(kind, stored, kept, t, front);
    UpsertInv(kind, stored, kept, t, p, e);
    StepTakes(kind, stored, kept, t, front, e);
    if i < |front| {
      RunStores(kind, stored, kept, t, front, i);
      StaysLandedFrom(kind, stored, kept, t, p, e, p.ids[i], front[i]);
    }
  }

  /** Some entry, all before it having been taken, is not. */
  ghost predicate SomeNotTaken<E(!new), R(!new), K>(kind: Kind<E, R, K>, t: Table<R>, entries: seq<E>) {
    exists j :: 0 <= j < |entries| && Run(kind, t, entries[..j]).Some?
      && !Taken(kind, t, Run(kind, t, entries[..j]).value.table.rows, entries[j])
  }

  /** A pass over entries with distinct keys is refused exactly if some entry, all before
      it having been taken, is not. */
  lemma {:induction false} RunRefused<E(!new), R(!new), K>(
      kind: Kind<E, R, K>, stored: R -> bool, kept: (R, R) -> bool, t: Table<R>, entries: seq<E>)
    requires Lawful(kind, stored, kept) && Tidy(kind, t, stored) && DistinctKeys(kind, entries)
    ensures Run(kind, t, entries).None? <==> SomeNotTaken(kind, t, entries)
  {
    hide Tidy, Lawful, Upsert, Taken;
    if |entries| > 0 {
      var n := |entries| - 1;
      var front := entries[..n];
      RunRefused(kind, stored, kept, t, front);
      forall j | 0 <= j < n ensures front[..j] == entries[..j] && front[j] == entries[j] {}
      if Run(kind, t, front).Some? {
        StepTakes(kind, stored, kept, t, front, entries[n]);
        assert entries[..n] == front;
        forall j | 0 <= j < n && Run(kind, t, entries[..j]).Some?
          ensures Taken(kind, t, Run(kind, t, entries[..j]).value.table.rows, entries[j])
        {
          assert front[..j] == entries[..j];
        }
      } else {
        var j :| 0 <= j < n && Run(kind, t, front[..j]).Some? && !Taken(kind, t, Run(kind, t, front[..j]).value.table.rows, front[j]);
        assert entries[..j] == front[..j];
      }
    }
  }
}
