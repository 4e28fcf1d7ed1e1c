/** Making a project's table mappings equal to a submitted list, in the form with usage flags
    and in the older form that lists table ids only. */
module MappingSync {
  import opened Wrappers

  datatype Flags = Flags(queryStudio: bool, widgetboard: bool)

  datatype Entry = Entry(table: int, flags: Flags)

  /** db_type of a table_master row, trimmed and lower-cased; it may be empty. */
  datatype DbType = Blank | Main | Other

  /** table_project_mapping, by project and table. */
  type Rows = map<(int, int), Flags>

  const NOT_FOUND := "table master not found"
  const NOT_MAIN := "not a main table"

  predicate Used(f: Flags) {
    f.queryStudio || f.widgetboard
  }

  /** A blank type counts as main here. */
  predicate Mappable(masters: map<int, DbType>, table: int) {
    table in masters && masters[table] != Other
  }

  /** The first entry of a table decides. */
  predicate FirstAt(entries: seq<Entry>, i: nat) {
    i < |entries| && forall j | 0 <= j < i :: entries[j].table != entries[i].table
  }

  /** The rows the project should have: the first entry of each table, unless both flags are off. */
  ghost predicate Wanted(entries: seq<Entry>, table: int, flags: Flags) {
    exists i: nat :: FirstAt(entries, i) && entries[i] == Entry(table, flags) && Used(flags)
  }

  /** A table gets a row exactly when its first entry sets one of the flags, and then with the flags
      of that entry. */
  lemma WantedExactly(entries: seq<Entry>, i: nat, flags: Flags)
    requires i < |entries| && forall j :: 0 <= j < i ==> entries[j].table != entries[i].table
    ensures Wanted(entries, entries[i].table, flags) <==> flags == entries[i].flags && (flags.queryStudio || flags.widgetboard)
  {
    assert FirstAt(entries, i);
    if Wanted(entries, entries[i].table, flags) {
      var k: nat :| FirstAt(entries, k) && entries[k] == Entry(entries[i].table, flags);
      assert k == i;
    }
  }

  ghost predicate Synced(before: Rows, after: Rows, project: int, entries: seq<Entry>) {
    && (forall p, t :: p != project ==> ((p, t) in after <==> (p, t) in before))
    && (forall p, t :: p != project && (p, t) in before ==> after[(p, t)] == before[(p, t)])
    && (forall t :: (project, t) in after <==> exists f :: Wanted(entries, t, f))
    && (forall t :: (project, t) in after ==> Wanted(entries, t, after[(project, t)]))
  }

  ghost predicate AllMappable(masters: map<int, DbType>, entries: seq<Entry>) {
    forall e :: e in entries ==> Mappable(masters, e.table)
  }

  lemma WantedOnce(entries: seq<Entry>, t: int, f: Flags, g: Flags)
    requires Wanted(entries, t, f) && Wanted(entries, t, g)
    ensures f == g
  {
    var i: nat :| FirstAt(entries, i) && entries[i] == Entry(t, f);
    var j: nat :| FirstAt(entries, j) && entries[j] == Entry(t, g);
    assert entries[i].table == t && entries[j].table == t;
  }

  /** The specification determines the rows. */
  lemma SyncedOnce(before: Rows, a: Rows, b: Rows, project: int, entries: seq<Entry>)
    requires Synced(before, a, project, entries) && Synced(before, b, project, entries)
    ensures a == b
  {
    forall k ensures k in a <==> k in b {
      var (p, t) := k;
    }
    forall k | k in a ensures a[k] == b[k] {
      var (p, t) := k;
      if p == project {
        WantedOnce(entries, t, a[k], b[k]);
      }
    }
  }

  /** Syncing again changes nothing. */
  lemma SyncedAgain(before: Rows, once: Rows, twice: Rows, project: int, entries: seq<Entry>)
    requires Synced(before, once, project, entries) && Synced(once, twice, project, entries)
    ensures once == twice
  {
    assert Synced(before, twice, project, entries);
    SyncedOnce(before, once, twice, project, entries);
  }

  /** Entries after the first of a table, and entries with both flags off, have no say. */
  ghost predicate Collected(entries: seq<Entry>, n: nat, seen: set<int>, normalized: seq<Entry>)
    requires n <= |entries|
  {
    && (forall t :: t in seen <==> exists i :: 0 <= i < n && entries[i].table == t)
    && (forall e :: e in normalized <==> Wanted(entries[..n], e.table, e.flags))
    && (forall i, j :: 0 <= i < j < |normalized| ==> normalized[i].table != normalized[j].table)
  }

  lemma WantedGrows(entries: seq<Entry>, n: nat, e: Entry)
    requires n < |entries|
    ensures Wanted(entries[..n + 1], e.table, e.flags) <==>
            Wanted(entries[..n], e.table, e.flags) || (e == entries[n] && FirstAt(entries, n) && Used(e.flags))
  {
    if e == entries[n] && FirstAt(entries, n) && Used(e.flags) {
      assert FirstAt(entries[..n + 1], n) && entries[..n + 1][n] == e;
    }
    if Wanted(entries[..n], e.table, e.flags) {
      WantedStays(entries, n, e);
    }
    if Wanted(entries[..n + 1], e.table, e.flags) {
      WantedBefore(entries, n, e);
    }
  }

  lemma WantedStays(entries: seq<Entry>, n: nat, e: Entry)
    requires n < |entries| && Wanted(entries[..n], e.table, e.flags)
    ensures Wanted(entries[..n + 1], e.table, e.flags)
  {
    var i: nat :| FirstAt(entries[..n], i) && entries[..n][i] == e;
    assert FirstAt(entries[..n + 1], i) && entries[..n + 1][i] == e;
  }

  lemma WantedBefore(entries: seq<Entry>, n: nat, e: Entry)
    requires n < |entries| && Wanted(entries[..n + 1], e.table, e.flags)
    ensures Wanted(entries[..n], e.table, e.flags) || (e == entries[n] && FirstAt(entries, n))
  {
    var i: nat :| FirstAt(entries[..n + 1], i) && entries[..n + 1][i] == e;
    if i < n {
      assert FirstAt(entries[..n], i) && entries[..n][i] == e;
    } else {
      assert forall j :: 0 <= j < n ==> entries[..n + 1][j] == entries[j];
    }
  }

  lemma CollectOne(entries: seq<Entry>, n: nat, seen: set<int>, normalized: seq<Entry>)
    requires n < |entries| && Collected(entries, n, seen, normalized)
    ensures var e := entries[n];
            var add := e.table !in seen && Used(e.flags);
            Collected(entries, n + 1, seen + {e.table}, if add then normalized + [e] else normalized)
  {
    var e := entries[n];
    assert FirstAt(entries, n) <==> e.table !in seen;
    forall x: Entry ensures Wanted(entries[..n + 1], x.table, x.flags) <==>
        Wanted(entries[..n], x.table, x.flags) || (x == e && e.table !in seen && Used(e.flags)) {
      WantedGrows(entries, n, x);
    }
    if e.table !in seen {
      forall x | x in normalized ensures x.table != e.table {
        var i: nat :| FirstAt(entries[..n], i) && entries[..n][i] == x;
        assert entries[i].table in seen;
      }
    }
    forall t ensures t in seen + {e.table} <==> exists i :: 0 <= i < n + 1 && entries[i].table == t {
    }
  }

  ghost predicate SeenMappable(masters: map<int, DbType>, seen: set<int>) {
    forall t :: t in seen ==> Mappable(masters, t)
  }

  lemma NotMappable(masters: map<int, DbType>, entries: seq<Entry>, n: nat)
    requires n < |entries| && !Mappable(masters, entries[n].table)
    ensures !AllMappable(masters, entries)
  {
    assert entries[n] in entries;
  }

  lemma CollectedAll(masters: map<int, DbType>, entries: seq<Entry>, seen: set<int>, normalized: seq<Entry>)
    requires Collected(entries, |entries|, seen, normalized) && SeenMappable(masters, seen)
    ensures AllMappable(masters, entries) && forall e :: e in normalized <==> Wanted(entries, e.table, e.flags)
  {
    assert entries[..|entries|] == entries;
    forall e | e in entries ensures Mappable(masters, e.table) {
      var i :| 0 <= i < |entries| && entries[i] == e;
      assert e.table in seen;
    }
  }

  class MappingTable {
    var rows: Rows
    const masters: map<int, DbType>

    constructor (rows: Rows, masters: map<int, DbType>)
      ensures this.rows == rows && this.masters == masters
    {
      this.rows, this.masters := rows, masters;
    }

    /** INSERT ... ON CONFLICT DO UPDATE of both flags. */
    method Upsert(project: int, e: Entry)
      modifies this`rows
      ensures rows == old(rows)[(project, e.table) := e.flags]
    {
      rows := rows[(project, e.table) := e.flags];
    }

    /** DELETE of the project's rows, all of them or those NOT IN a list. */
    method DeleteNotIn(project: int, keep: set<int>)
      modifies this`rows
      ensures rows == map k | k in old(rows) && !(k.0 == project && k.1 !in keep) :: old(rows)[k]
    {
      rows := map k | k in rows && !(k.0 == project && k.1 !in keep) :: rows[k];
    }

    /** The checking loop: the entries that will be written, or the first problem. */
    method Normalize(entries: seq<Entry>) returns (r: Result<seq<Entry>>)
      ensures r.Ok? <==> AllMappable(masters, entries)
      ensures r.Ok? ==> forall e :: e in r.value <==> Wanted(entries, e.table, e.flags)
      ensures r.Ok? ==> forall i, j :: 0 <= i < j < |r.value| ==> r.value[i].table != r.value[j].table
    {
      var normalized: seq<Entry> := [];
      var seen: set<int> := {};
      var n := 0;
      while n < |entries|
        invariant 0 <= n <= |entries|
        invariant Collected(entries, n, seen, normalized) && SeenMappable(masters, seen)
      {
        var e := entries[n];
        if e.table !in seen && !Mappable(masters, e.table) {
          NotMappable(masters, entries, n);
          return Err(if e.table in masters then NOT_MAIN else NOT_FOUND);
        }
        CollectOne(entries, n, seen, normalized);
        if e.table !in seen && Used(e.flags) {
          normalized := normalized + [e];
        }
        seen := seen + {e.table};
        n := n + 1;
      }
      CollectedAll(masters, entries, seen, normalized);
      r := Ok(normalized);
    }

    /** _sync_project_table_mappings_with_usage: raises, before any write, exactly if some entry
        names a missing or non-main table; otherwise the project's rows become the wanted ones. */
    method SyncWithUsage(project: int, entries: seq<Entry>) returns (r: Result<()>)
      modifies this`rows
      ensures r.Ok? <==> AllMappable(masters, entries)
      ensures r.Ok? ==> Synced(old(rows), rows, project, entries)
      ensures r.Err? ==> rows == old(rows)
    {
      var checked := Normalize(entries);
      if checked.Err? {
        return Err(checked.message);
      }
      var normalized := checked.value;
      var ids := set e | e in normalized :: e.table;
      DeleteNotIn(project, ids);
      var i := 0;
      while i < |normalized|
        invariant 0 <= i <= |normalized|
        invariant Written(old(rows), rows, project, normalized, i)
      {
        WriteOne(old(rows), rows, project, normalized, i);
        Upsert(project, normalized[i]);
        i := i + 1;
      }
      WrittenIsSynced(old(rows), rows, project, normalized, entries);
      r := Ok(());
    }

    /** _sync_project_table_mappings: table ids only; tables that are not of type main are passed
        over. */
    method SyncIds(project: int, ids: seq<int>) returns (r: Result<()>)
      modifies this`rows
      ensures r.Ok? <==> AllListed(masters, ids)
      ensures r.Ok? ==> Synced(old(rows), rows, project, MainEntries(masters, ids))
      ensures r.Err? ==> rows == old(rows)
    {
      var entries: seq<Entry> := [];
      var n := 0;
      while n < |ids|
        invariant 0 <= n <= |ids| && rows == old(rows)
        invariant AllListed(masters, ids[..n])
        invariant entries == MainEntries(masters, ids[..n])
      {
        if ids[n] !in masters {
          NotListed(masters, ids, n);
          return Err(NOT_FOUND);
        }
        MainEntriesGrow(masters, ids, n);
        ListedGrows(masters, ids, n);
        if masters[ids[n]] == Main {
          entries := entries + [Entry(ids[n], Flags(true, true))];
        }
        n := n + 1;
      }
      assert ids[..n] == ids;
      MainEntriesMappable(masters, ids);
      r := SyncWithUsage(project, entries);
    }
  }

  // ---------- the write loop ----------

  ghost predicate Written(before: Rows, now: Rows, project: int, normalized: seq<Entry>, i: nat)
    requires i <= |normalized|
  {
    && (forall p, t :: p != project ==> ((p, t) in now <==> (p, t) in before))
    && (forall p, t :: p != project && (p, t) in before ==> now[(p, t)] == before[(p, t)])
    && (forall t :: (project, t) in now ==> exists e :: e in normalized && e.table == t)
    && (forall j :: 0 <= j < i ==> (project, normalized[j].table) in now && now[(project, normalized[j].table)] == normalized[j].flags)
  }

  lemma WriteOne(before: Rows, now: Rows, project: int, normalized: seq<Entry>, i: nat)
    requires i < |normalized| && Written(before, now, project, normalized, i)
    requires forall a, b :: 0 <= a < b < |normalized| ==> normalized[a].table != normalized[b].table
    ensures Written(before, now[(project, normalized[i].table) := normalized[i].flags], project, normalized, i + 1)
  {
    assert normalized[i] in normalized;
  }

  lemma WrittenIsSynced(before: Rows, now: Rows, project: int, normalized: seq<Entry>, entries: seq<Entry>)
    requires Written(before, now, project, normalized, |normalized|)
    requires forall e :: e in normalized <==> Wanted(entries, e.table, e.flags)
    ensures Synced(before, now, project, entries)
  {
    forall t ensures (project, t) in now <==> exists f :: Wanted(entries, t, f) {
      if f :| Wanted(entries, t, f) {
        assert Entry(t, f) in normalized;
      }
    }
    forall t | (project, t) in now ensures Wanted(entries, t, now[(project, t)]) {
      var e :| e in normalized && e.table == t;
      var j :| 0 <= j < |normalized| && normalized[j] == e;
      assert now[(project, normalized[j].table)] == e.flags;
      assert Wanted(entries, e.table, e.flags);
    }
  }

  // ---------- the older form ----------

  /** The entries the older form hands on: listed tables of type main, both flags on. */
  function MainEntries(masters: map<int, DbType>, ids: seq<int>): seq<Entry> {
    if ids == [] then []
    else
      var n := |ids| - 1;
      MainEntries(masters, ids[..n]) +
      (if ids[n] in masters && masters[ids[n]] == Main then [Entry(ids[n], Flags(true, true))] else [])
  }

  lemma MainEntriesGrow(masters: map<int, DbType>, ids: seq<int>, n: nat)
    requires n < |ids|
    ensures MainEntries(masters, ids[..n + 1]) ==
            MainEntries(masters, ids[..n]) + (if ids[n] in masters && masters[ids[n]] == Main then [Entry(ids[n], Flags(true, true))] else [])
  {
    assert ids[..n + 1][..n] == ids[..n];
  }

  ghost predicate AllListed(masters: map<int, DbType>, ids: seq<int>) {
    forall t :: t in ids ==> t in masters
  }

  lemma NotListed(masters: map<int, DbType>, ids: seq<int>, n: nat)
    requires n < |ids| && ids[n] !in masters
    ensures !AllListed(masters, ids)
  {
    var t := ids[n];
    assert t in ids;
  }

  lemma ListedGrows(masters: map<int, DbType>, ids: seq<int>, n: nat)
    requires n < |ids| && AllListed(masters, ids[..n]) && ids[n] in masters
    ensures AllListed(masters, ids[..n + 1])
  {
    forall t | t in ids[..n + 1] ensures t in masters {
      var j :| 0 <= j < n + 1 && ids[j] == t;
      if j < n {
        assert ids[..n][j] in ids[..n];
      }
    }
  }

  function OnEntries(ids: seq<int>): seq<Entry> {
    if ids == [] then [] else OnEntries(ids[..|ids| - 1]) + [Entry(ids[|ids| - 1], Flags(true, true))]
  }

  lemma {:induction false} MainEntriesIn(masters: map<int, DbType>, ids: seq<int>, e: Entry)
    ensures e in MainEntries(masters, ids) <==>
            e.flags == Flags(true, true) && e.table in ids && e.table in masters && masters[e.table] == Main
  {
    if ids != [] {
      var n := |ids| - 1;
      MainEntriesIn(masters, ids[..n], e);
      assert ids == ids[..n] + [ids[n]];
    }
  }

  lemma MainEntriesMappable(masters: map<int, DbType>, ids: seq<int>)
    ensures AllMappable(masters, MainEntries(masters, ids))
  {
    forall e | e in MainEntries(masters, ids) ensures Mappable(masters, e.table) {
      MainEntriesIn(masters, ids, e);
    }
  }

  lemma {:induction false} OnEntriesIn(ids: seq<int>, e: Entry)
    ensures e in OnEntries(ids) <==> e.flags == Flags(true, true) && e.table in ids
  {
    if ids != [] {
      OnEntriesIn(ids[..|ids| - 1], e);
      assert ids == ids[..|ids| - 1] + [ids[|ids| - 1]];
    }
  }

  ghost predicate AllOn(entries: seq<Entry>) {
    forall e :: e in entries ==> e.flags == Flags(true, true)
  }

  /** With every flag on, exactly the listed tables are wanted. */
  lemma WantedAllOn(entries: seq<Entry>, t: int, f: Flags)
    requires AllOn(entries)
    ensures Wanted(entries, t, f) <==> Entry(t, f) in entries
  {
    if Entry(t, f) in entries {
      var i := FirstOf(entries, t);
      assert entries[i] in entries && entries[i] == Entry(t, f);
    }
  }

  lemma {:induction false} FirstOf(entries: seq<Entry>, t: int) returns (i: nat)
    requires exists e :: e in entries && e.table == t
    ensures FirstAt(entries, i) && entries[i].table == t
  {
    i := 0;
    while entries[i].table != t
      invariant i < |entries| && forall j :: 0 <= j < i ==> entries[j].table != t
      decreases |entries| - i
    {
      assert exists j :: i < j < |entries| && entries[j].table == t by {
        var e :| e in entries && e.table == t;
        var j :| 0 <= j < |entries| && entries[j] == e;
        assert j > i;
      }
      i := i + 1;
    }
  }

  /** What each form does to the rows: the flagged form on all ids switched on, the older form
      on the ids, both as an outcome (no rows when it raises). */
  ghost predicate FlaggedOutcome(masters: map<int, DbType>, before: Rows, project: int, ids: seq<int>, after: Option<Rows>) {
    if AllMappable(masters, OnEntries(ids)) then after.Some? && Synced(before, after.value, project, OnEntries(ids))
    else after.None?
  }

  ghost predicate IdsOutcome(masters: map<int, DbType>, before: Rows, project: int, ids: seq<int>, after: Option<Rows>) {
    if AllListed(masters, ids) then after.Some? && Synced(before, after.value, project, MainEntries(masters, ids))
    else after.None?
  }

  /** The older form has the effect of the flagged form with both flags on exactly if every
      listed table is of type main, or one does not exist (then both raise): a blank type is
      mapped only by the flagged form, and another type makes only the flagged form raise. */
  lemma FormsAgreeExactly(masters: map<int, DbType>, before: Rows, project: int, ids: seq<int>, flagged: Option<Rows>, legacy: Option<Rows>)
    requires FlaggedOutcome(masters, before, project, ids, flagged)
    requires IdsOutcome(masters, before, project, ids, legacy)
    ensures flagged == legacy <==>
            (forall t :: t in ids ==> t in masters && masters[t] == Main) || (exists t :: t in ids && t !in masters)
  {
    var on, main := OnEntries(ids), MainEntries(masters, ids);
    forall e ensures e in on <==> e.flags == Flags(true, true) && e.table in ids {
      OnEntriesIn(ids, e);
    }
    forall e ensures e in main <==> e.flags == Flags(true, true) && e.table in ids && e.table in masters && masters[e.table] == Main {
      MainEntriesIn(masters, ids, e);
    }
    OnMappable(masters, ids);
    if t :| t in ids && t !in masters {
    } else if t :| t in ids && masters[t] == Other {
    } else if forall t :: t in ids ==> masters[t] == Main {
      SameWanted(before, flagged.value, legacy.value, project, on, main);
    } else {
      var t :| t in ids && masters[t] == Blank;
      WantedAllOn(on, t, Flags(true, true));
      assert (project, t) in flagged.value;
      forall f ensures !Wanted(main, t, f) {
        WantedAllOn(main, t, f);
      }
      assert (project, t) !in legacy.value;
    }
  }

  lemma OnMappable(masters: map<int, DbType>, ids: seq<int>)
    ensures AllMappable(masters, OnEntries(ids)) <==> forall t :: t in ids ==> Mappable(masters, t)
  {
    forall t | t in ids ensures Entry(t, Flags(true, true)) in OnEntries(ids) {
      OnEntriesIn(ids, Entry(t, Flags(true, true)));
    }
    forall e | e in OnEntries(ids) ensures e.table in ids {
      OnEntriesIn(ids, e);
    }
  }

  lemma SameWanted(before: Rows, a: Rows, b: Rows, project: int, es: seq<Entry>, fs: seq<Entry>)
    requires AllOn(es) && AllOn(fs) && forall e :: e in es <==> e in fs
    requires Synced(before, a, project, es) && Synced(before, b, project, fs)
    ensures a == b
  {
    forall t, f ensures Wanted(es, t, f) <==> Wanted(fs, t, f) {
      WantedAllOn(es, t, f);
      WantedAllOn(fs, t, f);
    }
    assert Synced(before, b, project, es);
    SyncedOnce(before, a, b, project, es);
  }
}
