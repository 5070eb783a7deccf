/**
 * The app shell's table of routines (`Record<string, Routine>`), keyed by routine id. The table
 * keeps its keys in insertion order, because deleting the current routine falls back to the
 * first remaining key (`Object.keys(...)[0]`). Ids are taken not to be array-index strings, so
 * JavaScript's own key order is plain insertion order.
 */
module RoutineTable {
  import opened Wrappers
  import opened Types
  import opened Presets

  datatype Table = Table(order: seq<string>, byId: map<string, Routine>)

  predicate Distinct(keys: seq<string>) {
    forall i, j :: 0 <= i < j < |keys| ==> keys[i] != keys[j]
  }

  /** Keys listed once each, exactly the keys of the map, and every routine stored under its own id. */
  ghost predicate Valid(t: Table) {
    Distinct(t.order)
    && (forall k :: k in t.order ==> k in t.byId)
    && (forall k :: k in t.byId ==> k in t.order)
    && (forall k :: k in t.byId ==> t.byId[k].id == k)
  }

  /** `customRoutines[id]`, or none when the table has no such key. */
  function Lookup(t: Table, id: string): (r: Option<Routine>)
    ensures r.Some? <==> id in t.byId
    ensures r.Some? ==> r.value == t.byId[id]
  {
    if id in t.byId then Some(t.byId[id]) else None
  }

  /** In a well-formed table `customRoutines[id]` finds a routine exactly for a listed key, and that routine carries the id. */
  lemma LookupValid(t: Table, id: string)
    requires Valid(t)
    ensures Lookup(t, id).Some? <==> id in t.order
    ensures Lookup(t, id).Some? ==> Lookup(t, id).value.id == id
  {
  }

  /** `{ ...table, [r.id]: r }`: an existing key keeps its place, a new one goes last. */
  function Upsert(t: Table, r: Routine): Table {
    Table(if r.id in t.byId then t.order else t.order + [r.id], t.byId[r.id := r])
  }

  /** `delete table[id]`. */
  function Remove(t: Table, id: string): Table {
    Table(Without(t.order, id), t.byId - {id})
  }

  /** The keys other than `id`, in order. */
  function Without(keys: seq<string>, id: string): (r: seq<string>)
    ensures forall k :: k in r <==> k in keys && k != id
    ensures |r| <= |keys|
  {
    if keys == [] then []
    else if keys[0] == id then Without(keys[1..], id)
    else [keys[0]] + Without(keys[1..], id)
  }

  /** The built-in routines, in the order the preset table lists them. */
  function PresetTable(): Table {
    var rs := PresetRoutines();
    Table([rs[0].id, rs[1].id, rs[2].id, rs[3].id, rs[4].id],
          map[rs[0].id := rs[0], rs[1].id := rs[1], rs[2].id := rs[2], rs[3].id := rs[3], rs[4].id := rs[4]])
  }

  /**
   * `deleteRoutine`: the table without `id`, and the current id. When the deleted routine was the
   * current one, the first remaining key becomes current; when no key remains, the table goes
   * back to the presets and the morning routine becomes current.
   */
  function Delete(t: Table, current: string, id: string): (Table, string) {
    var rest := Remove(t, id);
    if current != id then (rest, current)
    else if |rest.order| > 0 then (rest, rest.order[0])
    else (PresetTable(), MorningProductive)
  }

  // ----- properties -----

  lemma PresetTableValid()
    ensures Valid(PresetTable())
    ensures MorningProductive in PresetTable().byId
    ensures PresetTable().order[0] == MorningProductive
  {
    var rs := PresetRoutines();
    assert Distinct([rs[0].id, rs[1].id, rs[2].id, rs[3].id, rs[4].id]);
    FiveValid(rs);
  }

  /** Five routines with distinct ids, listed in order and each stored under its id, make a valid table. */
  lemma FiveValid(rs: seq<Routine>)
    requires |rs| == 5 && Distinct([rs[0].id, rs[1].id, rs[2].id, rs[3].id, rs[4].id])
    ensures Valid(Table([rs[0].id, rs[1].id, rs[2].id, rs[3].id, rs[4].id],
                        map[rs[0].id := rs[0], rs[1].id := rs[1], rs[2].id := rs[2], rs[3].id := rs[3], rs[4].id := rs[4]]))
  {
  }

  /** After an upsert the routine is stored under its id, every other entry is as it was, and the order only grows by a new key. */
  lemma UpsertSpec(t: Table, r: Routine)
    requires Valid(t)
    ensures Valid(Upsert(t, r))
    ensures Lookup(Upsert(t, r), r.id) == Some(r)
    ensures forall k :: k != r.id ==> Lookup(Upsert(t, r), k) == Lookup(t, k)
    ensures r.id in t.byId ==> Upsert(t, r).order == t.order
    ensures r.id !in t.byId ==> Upsert(t, r).order == t.order + [r.id]
  {
  }

  lemma {:induction false} WithoutDistinct(keys: seq<string>, id: string)
    requires Distinct(keys)
    ensures Distinct(Without(keys, id))
  {
    if keys != [] {
      WithoutDistinct(keys[1..], id);
      var tail := Without(keys[1..], id);
      if keys[0] != id {
        var r := [keys[0]] + tail;
        assert Without(keys, id) == r;
        forall i, j | 0 <= i < j < |r| ensures r[i] != r[j] {
          if i == 0 {
            assert r[j] == tail[j - 1];
            assert r[j] in tail;
            assert keys[0] !in keys[1..] by {
              forall m | 1 <= m < |keys| ensures keys[m] != keys[0] { }
            }
          } else {
            assert r[i] == tail[i - 1] && r[j] == tail[j - 1];
          }
        }
      }
    }
  }

  /** Removing keeps the table valid, drops exactly `id`, and leaves the other keys in their order. */
  lemma RemoveSpec(t: Table, id: string)
    requires Valid(t)
    ensures Valid(Remove(t, id))
    ensures Lookup(Remove(t, id), id) == None
    ensures forall k :: k != id ==> Lookup(Remove(t, id), k) == Lookup(t, k)
    ensures id !in t.byId ==> Remove(t, id) == t
  {
    WithoutDistinct(t.order, id);
    if id !in t.byId {
      WithoutAbsent(t.order, id);
    }
  }

  lemma {:induction false} WithoutAbsent(keys: seq<string>, id: string)
    requires id !in keys
    ensures Without(keys, id) == keys
  {
    if keys != [] {
      WithoutAbsent(keys[1..], id);
      assert keys == [keys[0]] + keys[1..];
    }
  }

  /** Deleting a routine other than the current one removes just that routine and keeps the current id. */
  lemma DeleteOther(t: Table, current: string, id: string)
    requires Valid(t) && current != id
    ensures Delete(t, current, id) == (Remove(t, id), current)
    ensures Valid(Delete(t, current, id).0)
    ensures forall k :: k != id ==> Lookup(Delete(t, current, id).0, k) == Lookup(t, k)
  {
    RemoveSpec(t, id);
  }

  /**
   * Deleting the current routine while others remain removes just that routine, and the first
   * remaining key, which names a routine of the table, becomes current.
   */
  lemma DeleteCurrent(t: Table, id: string)
    requires Valid(t) && exists k :: k in t.byId && k != id
    ensures var (t', current') := Delete(t, id, id);
      t' == Remove(t, id) && Valid(t') && current' == t'.order[0] && Lookup(t', current').Some?
      && Lookup(t', id) == None && forall k :: k != id ==> Lookup(t', k) == Lookup(t, k)
    ensures exists m ::
              0 <= m < |t.order| && Delete(t, id, id).1 == t.order[m]
              && forall j :: 0 <= j < m ==> t.order[j] == id
  {
    var rest := Remove(t, id);
    RemoveSpec(t, id);
    var k :| k in t.byId && k != id;
    assert k in rest.order;
    WithoutFirst(t.order, id);
  }

  /** The first key left by `Without` is the first old key other than `id`. */
  lemma {:induction false} WithoutFirst(keys: seq<string>, id: string)
    requires Without(keys, id) != []
    ensures exists m ::
              0 <= m < |keys| && Without(keys, id)[0] == keys[m]
              && forall j :: 0 <= j < m ==> keys[j] == id
  {
    if keys[0] == id {
      WithoutFirst(keys[1..], id);
      var m :| 0 <= m < |keys[1..]| && Without(keys[1..], id)[0] == keys[1..][m]
        && forall j :: 0 <= j < m ==> keys[1..][j] == id;
      forall j | 0 <= j < m + 1
        ensures keys[j] == id
      {
        if j > 0 { assert keys[j] == keys[1..][j - 1]; }
      }
      assert Without(keys, id)[0] == keys[m + 1];
    } else {
      assert Without(keys, id)[0] == keys[0];
    }
  }

  /** `Without` works piece by piece, so the keys it keeps stay in their order. */
  lemma {:induction false} WithoutAppend(a: seq<string>, b: seq<string>, id: string)
    ensures Without(a + b, id) == Without(a, id) + Without(b, id)
  {
    if a == [] {
      assert a + b == b;
    } else {
      assert (a + b)[0] == a[0] && (a + b)[1..] == a[1..] + b;
      WithoutAppend(a[1..], b, id);
      if a[0] == id {
        assert Without(a + b, id) == Without(a[1..] + b, id);
      } else {
        assert Without(a + b, id) == [a[0]] + Without(a[1..] + b, id);
      }
    }
  }

  /** Deleting the current and only routine puts the presets back and makes the morning routine current. */
  lemma DeleteLast(t: Table, id: string)
    requires Valid(t) && forall k :: k in t.byId ==> k == id
    ensures Delete(t, id, id) == (PresetTable(), MorningProductive)
    ensures Valid(PresetTable()) && Lookup(PresetTable(), MorningProductive).Some?
  {
    var rest := Remove(t, id);
    RemoveSpec(t, id);
    PresetTableValid();
    forall i | 0 <= i < |t.order| ensures t.order[i] == id {
      assert t.order[i] in t.order;
    }
    WithoutAll(t.order, id);
  }

  lemma {:induction false} WithoutAll(keys: seq<string>, id: string)
    requires forall i :: 0 <= i < |keys| ==> keys[i] == id
    ensures Without(keys, id) == []
  {
    if keys != [] {
      WithoutAll(keys[1..], id);
    }
  }

  /** Deletion keeps the table valid and, when the current id named a routine, keeps it naming one. */
  lemma DeleteKeepsCurrent(t: Table, current: string, id: string)
    requires Valid(t) && current in t.byId
    ensures Valid(Delete(t, current, id).0)
    ensures Delete(t, current, id).1 in Delete(t, current, id).0.byId
  {
    if current != id {
      DeleteOther(t, current, id);
    } else if exists k :: k in t.byId && k != id {
      DeleteCurrent(t, id);
    } else {
      DeleteLast(t, id);
    }
  }
}
