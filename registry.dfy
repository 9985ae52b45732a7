/**
 * The per-process `mem` report: process_mem_print walks the address-ordered
 * rb-tree of bound entries, then the id map with a cursor, printing the
 * entries of the id map that have no GPU address.
 *
 * The registry is a value that does not change during the walk: the locking
 * that makes this so in the kernel is not modelled.
 */
module ProcessMem {
  import opened MachineTypes
  import opened MemEntryRender

  /**
   * The two indices of a process's registry: `rb` is the in-order sequence of
   * the rb-tree (entries with a GPU address), `idr` maps every id to its entry.
   */
  datatype Registry = Registry(rb: seq<MemEntry>, idr: map<nat, MemEntry>)

  /** An id of the id map whose entry has no GPU address. */
  predicate Unbound(idr: map<nat, MemEntry>, k: nat)
  {
    k in idr && idr[k].gpuaddr == 0
  }

  /**
   * The registry invariant the rest of the driver keeps: every entry is filed
   * under its own id, the rb-tree holds exactly the entries with a GPU address,
   * and its in-order walk is in strictly ascending address order.
   */
  ghost predicate RegistryValid(reg: Registry)
  {
    && (forall k :: k in reg.idr ==> reg.idr[k].id == k)
    && (forall i :: 0 <= i < |reg.rb| ==>
          reg.rb[i].gpuaddr != 0 && reg.rb[i].id in reg.idr && reg.idr[reg.rb[i].id] == reg.rb[i])
    && (forall i, j :: 0 <= i < j < |reg.rb| ==> reg.rb[i].gpuaddr < reg.rb[j].gpuaddr)
    && (forall k :: k in reg.idr && reg.idr[k].gpuaddr != 0 ==> reg.idr[k] in reg.rb)
  }

  /** The unbound ids below `n`, in ascending order: what the cursor pass has printed once it reaches `n`. */
  function UnboundIdsBelow(idr: map<nat, MemEntry>, n: nat): (ids: seq<nat>)
    ensures forall i, j :: 0 <= i < j < |ids| ==> ids[i] < ids[j]
    ensures forall k: nat :: k in ids <==> k < n && Unbound(idr, k)
    decreases n
  {
    if n == 0 then []
    else
      var below := UnboundIdsBelow(idr, n - 1);
      assert forall i :: 0 <= i < |below| ==> below[i] in below;
      below + (if Unbound(idr, n - 1) then [n - 1] else [])
  }

  /** A number above every id of the map. */
  ghost function KeyBound(keys: set<nat>): (b: nat)
    ensures forall k :: k in keys ==> k < b
    decreases keys
  {
    if keys == {} then 0
    else
      var k :| k in keys;
      var rest := KeyBound(keys - {k});
      assert forall x :: x in keys ==> x == k || x in keys - {k};
      if k < rest then rest else k + 1
  }

  /** The ids the cursor pass prints, in print order: each unbound id once, ascending. */
  ghost function UnboundIds(idr: map<nat, MemEntry>): (ids: seq<nat>)
    ensures forall i, j :: 0 <= i < j < |ids| ==> ids[i] < ids[j]
    ensures forall k: nat :: k in ids <==> Unbound(idr, k)
  {
    UnboundIdsBelow(idr, KeyBound(idr.Keys))
  }

  /** The entries filed under the given ids. */
  function EntriesAt(idr: map<nat, MemEntry>, ids: seq<nat>): seq<MemEntry>
    requires forall k :: k in ids ==> k in idr
  {
    seq(|ids|, i requires 0 <= i < |ids| => idr[ids[i]])
  }

  /** print_mem_entry applied to each entry in turn. */
  function RowsOf(es: seq<MemEntry>, usage: bv32 -> string): seq<Row>
  {
    seq(|es|, i requires 0 <= i < |es| => RowOf(es[i], usage))
  }

  /** The entries the report prints, in order: the rb-tree in order, then the unbound entries by id. */
  ghost function SnapshotEntries(reg: Registry): seq<MemEntry>
  {
    reg.rb + EntriesAt(reg.idr, UnboundIds(reg.idr))
  }

  /** The whole report: the header, then one row per printed entry. */
  ghost function Snapshot(reg: Registry, usage: bv32 -> string): seq<Row>
  {
    [HeaderRow] + RowsOf(SnapshotEntries(reg), usage)
  }

  lemma RowsOfAppend(es: seq<MemEntry>, more: seq<MemEntry>, usage: bv32 -> string)
    ensures RowsOf(es + more, usage) == RowsOf(es, usage) + RowsOf(more, usage)
  {
    var whole := RowsOf(es + more, usage);
    var parts := RowsOf(es, usage) + RowsOf(more, usage);
    assert |whole| == |parts|;
    forall i | 0 <= i < |whole|
      ensures whole[i] == parts[i]
    {
      if i < |es| {
        assert (es + more)[i] == es[i];
      } else {
        assert (es + more)[i] == more[i - |es|];
      }
    }
  }

  /** Between two cursor positions with no id in between, the printed ids are the same. */
  lemma {:induction false} UnboundIdsGap(idr: map<nat, MemEntry>, lo: nat, hi: nat)
    requires lo <= hi
    requires forall k :: lo <= k < hi ==> k !in idr
    ensures UnboundIdsBelow(idr, hi) == UnboundIdsBelow(idr, lo)
    decreases hi
  {
    if lo < hi {
      UnboundIdsGap(idr, lo, hi - 1);
    }
  }

  /** One cursor step: from `next` to just past the smallest id `k` at or above it. */
  lemma UnboundIdsStep(idr: map<nat, MemEntry>, next: nat, k: nat)
    requires next <= k && k in idr
    requires forall j :: next <= j < k ==> j !in idr
    ensures UnboundIdsBelow(idr, k + 1)
      == UnboundIdsBelow(idr, next) + (if idr[k].gpuaddr == 0 then [k] else [])
  {
    UnboundIdsGap(idr, next, k);
  }

  /** Printing one more entry found by the cursor extends the printed rows by its row. */
  lemma CursorRowsAppend(idr: map<nat, MemEntry>, ids: seq<nat>, k: nat, usage: bv32 -> string, before: seq<Row>)
    requires forall j :: j in ids ==> j in idr
    requires k in idr
    ensures before + RowsOf(EntriesAt(idr, ids + [k]), usage)
      == before + RowsOf(EntriesAt(idr, ids), usage) + [RowOf(idr[k], usage)]
  {
    assert EntriesAt(idr, ids + [k]) == EntriesAt(idr, ids) + [idr[k]];
    RowsOfAppend(EntriesAt(idr, ids), [idr[k]], usage);
  }

  /**
   * idr_get_next, which is not part of this model beyond its contract: the
   * entry with the smallest id at or above the cursor, and that id; None
   * (cursor unchanged) when no id is that large.
   */
  method IdrGetNext(idr: map<nat, MemEntry>, next: nat) returns (found: Option<MemEntry>, id: nat)
    ensures found.None? ==> id == next && forall k :: k in idr ==> k < next
    ensures found.Some? ==> next <= id && id in idr && found.value == idr[id]
    ensures found.Some? ==> forall k :: k in idr && next <= k ==> id <= k
  {
    var rest := idr.Keys;
    var best: Option<nat> := None;
    while rest != {}
      invariant rest <= idr.Keys
      invariant best.None? ==> forall k :: k in idr && k !in rest ==> k < next
      invariant best.Some? ==> next <= best.value && best.value in idr
      invariant best.Some? ==> forall k :: k in idr && k !in rest && next <= k ==> best.value <= k
      decreases rest
    {
      var k :| k in rest;
      rest := rest - {k};
      if next <= k && (best.None? || k < best.value) {
        best := Some(k);
      }
    }
    if best.None? {
      found, id := None, next;
    } else {
      found, id := Some(idr[best.value]), best.value;
    }
  }

  /**
   * The first pass of process_mem_print: under the registry's lock, every
   * rb-tree entry is printed in tree order, after what the report already holds.
   */
  method PrintTreePass(rb: seq<MemEntry>, usage: bv32 -> string, before: seq<Row>) returns (rows: seq<Row>)
    ensures rows == before + RowsOf(rb, usage)
  {
    rows := before;
    for i := 0 to |rb|
      invariant rows == before + RowsOf(rb[..i], usage)
    {
      assert rb[..i + 1] == rb[..i] + [rb[i]];
      RowsOfAppend(rb[..i], [rb[i]], usage);
      rows := rows + [RowOf(rb[i], usage)];
    }
    assert rb[..|rb|] == rb;
  }

  /**
   * The second pass of process_mem_print: the cursor starts at 0, each call
   * yields the entry with the smallest id at or above it, and the cursor moves
   * one past that id; only entries without a GPU address are printed. The
   * cursor strictly increases and stays below a bound on the ids, so the loop ends.
   */
  method PrintCursorPass(idr: map<nat, MemEntry>, usage: bv32 -> string, before: seq<Row>) returns (rows: seq<Row>)
    ensures rows == before + RowsOf(EntriesAt(idr, UnboundIds(idr)), usage)
  {
    rows := before;
    var next: nat := 0;
    ghost var ids: seq<nat> := [];
    ghost var bound := KeyBound(idr.Keys);
    while true
      invariant next <= bound
      invariant ids == UnboundIdsBelow(idr, next)
      invariant rows == before + RowsOf(EntriesAt(idr, ids), usage)
      decreases bound - next
    {
      var entry, cursor := IdrGetNext(idr, next);
      if entry.None? {
        break;
      }
      assert cursor in idr.Keys;
      UnboundIdsStep(idr, next, cursor);
      next := cursor;
      if entry.value.gpuaddr == 0 {
        CursorRowsAppend(idr, ids, next, usage, before);
        rows := rows + [RowOf(entry.value, usage)];
        ids := ids + [next];
      }
      next := next + 1;
    }
    UnboundIdsGap(idr, next, bound);
  }

  /**
   * process_mem_print: the header, then the rb-tree pass, then the cursor pass
   * over the id map.
   */
  method ProcessMemPrint(reg: Registry, usage: bv32 -> string) returns (rows: seq<Row>)
    ensures rows == Snapshot(reg, usage)
  {
    rows := [HeaderRow];
    // Tree pass: bound entries in address order.
    rows := PrintTreePass(reg.rb, usage, rows);
    // Cursor pass: entries of the id map that have no GPU address, by id.
    rows := PrintCursorPass(reg.idr, usage, rows);
    RowsOfAppend(reg.rb, EntriesAt(reg.idr, UnboundIds(reg.idr)), usage);
  }

  /** The header comes first and only once; the rb-tree rows follow it in tree order. */
  lemma SnapshotShape(reg: Registry, usage: bv32 -> string)
    ensures |Snapshot(reg, usage)| == 1 + |reg.rb| + |UnboundIds(reg.idr)|
    ensures Snapshot(reg, usage)[0] == HeaderRow
    ensures forall i :: 1 <= i < |Snapshot(reg, usage)| ==> Snapshot(reg, usage)[i].EntryRow?
    ensures forall i :: 0 <= i < |reg.rb| ==> Snapshot(reg, usage)[1 + i] == RowOf(reg.rb[i], usage)
  {
  }

  /** An empty registry prints the header line alone. */
  lemma EmptyRegistrySnapshot(reg: Registry, usage: bv32 -> string)
    requires reg.rb == [] && reg.idr == map[]
    ensures Snapshot(reg, usage) == [HeaderRow]
  {
  }

  /** Every printed entry is the id map's entry for its own id. */
  lemma SnapshotEntriesFiled(reg: Registry)
    requires RegistryValid(reg)
    ensures forall i :: 0 <= i < |SnapshotEntries(reg)| ==>
      SnapshotEntries(reg)[i].id in reg.idr && reg.idr[SnapshotEntries(reg)[i].id] == SnapshotEntries(reg)[i]
  {
    var ids := UnboundIds(reg.idr);
    var es := SnapshotEntries(reg);
    forall i | 0 <= i < |es|
      ensures es[i].id in reg.idr && reg.idr[es[i].id] == es[i]
    {
      if i >= |reg.rb| {
        assert ids[i - |reg.rb|] in ids;
        assert es[i] == reg.idr[ids[i - |reg.rb|]];
      }
    }
  }

  /**
   * No id is printed twice: the rb-tree is address-ordered, the cursor pass
   * id-ordered, and the first pass prints bound entries, the second unbound ones.
   */
  lemma SnapshotEntriesDistinct(reg: Registry)
    requires RegistryValid(reg)
    ensures forall i, j :: 0 <= i < j < |SnapshotEntries(reg)| ==>
      SnapshotEntries(reg)[i].id != SnapshotEntries(reg)[j].id
  {
    var ids := UnboundIds(reg.idr);
    var es := SnapshotEntries(reg);
    var n := |reg.rb|;
    forall i, j | 0 <= i < j < |es|
      ensures es[i].id != es[j].id
    {
      if j < n {
        assert es[i] == reg.rb[i] && es[j] == reg.rb[j];
        assert reg.rb[i].gpuaddr < reg.rb[j].gpuaddr;
      } else {
        assert ids[j - n] in ids;
        assert es[j] == reg.idr[ids[j - n]];
        assert es[j].id == ids[j - n];
        if i < n {
          assert es[i] == reg.rb[i];
        } else {
          assert ids[i - n] in ids;
          assert es[i] == reg.idr[ids[i - n]];
          assert es[i].id == ids[i - n];
        }
      }
    }
  }

  /** No entry is missed: bound entries are in the rb-tree, unbound ones among the cursor's ids. */
  lemma SnapshotEntriesComplete(reg: Registry)
    requires RegistryValid(reg)
    ensures forall k :: k in reg.idr ==> reg.idr[k] in SnapshotEntries(reg)
  {
    var ids := UnboundIds(reg.idr);
    var es := SnapshotEntries(reg);
    forall k | k in reg.idr
      ensures reg.idr[k] in es
    {
      if reg.idr[k].gpuaddr != 0 {
        assert reg.idr[k] in reg.rb;
      } else {
        assert k in ids;
        var j :| 0 <= j < |ids| && ids[j] == k;
        assert es[|reg.rb| + j] == reg.idr[k];
      }
    }
  }

  /**
   * With the registry invariant, the report has one row per entry of the id
   * map: no id appears in two rows, not even once from each pass, and none is missed.
   */
  lemma SnapshotEveryEntryOnce(reg: Registry, usage: bv32 -> string)
    requires RegistryValid(reg)
    ensures forall i, j :: 1 <= i < j < |Snapshot(reg, usage)| ==>
      Snapshot(reg, usage)[i].id != Snapshot(reg, usage)[j].id
    ensures forall i :: 1 <= i < |Snapshot(reg, usage)| ==>
      var row := Snapshot(reg, usage)[i]; row.id in reg.idr && row == RowOf(reg.idr[row.id], usage)
    ensures forall k :: k in reg.idr ==> RowOf(reg.idr[k], usage) in Snapshot(reg, usage)
  {
    var es := SnapshotEntries(reg);
    var rows := Snapshot(reg, usage);
    SnapshotEntriesFiled(reg);
    SnapshotEntriesDistinct(reg);
    SnapshotEntriesComplete(reg);
    assert |rows| == 1 + |es|;
    forall i | 1 <= i < |rows|
      ensures rows[i] == RowOf(es[i - 1], usage) && rows[i].id == es[i - 1].id
    {
    }
    forall i, j | 1 <= i < j < |rows|
      ensures rows[i].id != rows[j].id
    {
      assert es[i - 1].id != es[j - 1].id;
    }
    forall i | 1 <= i < |rows|
      ensures rows[i].id in reg.idr && rows[i] == RowOf(reg.idr[rows[i].id], usage)
    {
      assert reg.idr[es[i - 1].id] == es[i - 1];
    }
    forall k | k in reg.idr
      ensures RowOf(reg.idr[k], usage) in rows
    {
      var i :| 0 <= i < |es| && es[i] == reg.idr[k];
      assert rows[i + 1] == RowOf(reg.idr[k], usage);
    }
  }

  /**
   * A bound entry with id 1 and an unbound one with id 2: the report is the
   * header, the id 1 row from the tree pass, then the id 2 row from the cursor pass.
   */
  lemma SnapshotTwoEntries(bound: MemEntry, unbound: MemEntry, usage: bv32 -> string)
    requires bound.id == 1 && bound.gpuaddr == 0x1000
    requires unbound.id == 2 && unbound.gpuaddr == 0
    ensures Snapshot(Registry([bound], map[1 := bound, 2 := unbound]), usage)
      == [HeaderRow, RowOf(bound, usage), RowOf(unbound, usage)]
  {
    var idr := map[1 := bound, 2 := unbound];
    assert 2 in idr.Keys;
    UnboundIdsGap(idr, 3, KeyBound(idr.Keys));
    assert UnboundIdsBelow(idr, 3) == [2];
  }
}
