/**
 * One tracked GPU memory allocation and the way a row of the per-process
 * `mem` report is derived from it: the memory-type label, the alignment and
 * cache-mode characters and the five-character flag string.
 */
module MemEntryRender {
  import opened MachineTypes

  /** KGSL_MEMFLAGS_GPUREADONLY, the read-only bit of the memdesc flags. */
  const GPUREADONLY: bv32 := 0x0100_0000

  /** ilog2(SZ_1M) and ilog2(SZ_64K): the alignment thresholds of the align flag. */
  const ALIGN_1M: int := 20
  const ALIGN_64K: int := 16

  /** The KGSL_CACHEMODE_* codes, which index the cache-flag table. */
  const WRITECOMBINE: nat := 0
  const UNCACHED: nat := 1
  const WRITEBACK: nat := 2
  const WRITETHROUGH: nat := 3

  /** A cache-mode code as the memdesc accessor yields it: a two-bit field. */
  type CacheModeCode = m: nat | m < 4

  /**
   * A memory entry with the fields the report reads. The accessors
   * kgsl_memdesc_is_global, kgsl_memdesc_get_align, kgsl_memdesc_get_cachemode
   * and kgsl_memdesc_use_cpu_map are represented by their results.
   */
  datatype MemEntry = MemEntry(
    id: nat,
    gpuaddr: nat,
    useraddr: nat,
    size: int,
    memtype: i32,
    sglen: int,
    flags: bv32,
    isGlobal: bool,
    align: int,
    cacheMode: CacheModeCode,
    useCpuMap: bool)

  /** memtype_strings: the labels of the known memory-type codes. */
  const MEMTYPE_STRINGS: seq<string> := ["gpumem", "pmem", "ashmem", "usermap", "ion"]

  /**
   * memtype_str: the signed code is compared with the unsigned table size, so
   * a negative code converts to a huge unsigned value and falls back to
   * "unknown" like any code past the table.
   */
  function MemtypeLabel(memtype: i32): (name: string)
    ensures 0 <= memtype < |MEMTYPE_STRINGS| ==> name == MEMTYPE_STRINGS[memtype]
    ensures (memtype < 0 || memtype >= |MEMTYPE_STRINGS|) ==> name == "unknown"
  {
    var asUnsigned := ToU32(memtype);
    if asUnsigned < |MEMTYPE_STRINGS| then MEMTYPE_STRINGS[asUnsigned] else "unknown"
  }

  /** Distinct known codes get distinct labels, none of them the fallback. */
  lemma MemtypeLabelInjective(a: i32, b: i32)
    ensures MemtypeLabel(a) == MemtypeLabel(b) && MemtypeLabel(a) != "unknown" ==> a == b
    ensures MemtypeLabel(a) != "unknown" <==> 0 <= a < |MEMTYPE_STRINGS|
  {
  }

  /** get_alignflag: 'L' from 1M alignment up, 'l' from 64K, '-' below. */
  function AlignFlag(align: int): (c: char)
    ensures c == 'L' <==> align >= ALIGN_1M
    ensures c == 'l' <==> ALIGN_64K <= align < ALIGN_1M
    ensures c == '-' <==> align < ALIGN_64K
  {
    if align >= ALIGN_1M then 'L'
    else if align >= ALIGN_64K then 'l'
    else '-'
  }

  /** The get_cacheflag table, indexed by cache-mode code. */
  const CACHE_FLAGS: seq<char> := ['-', 'u', 'b', 't']

  /** get_cacheflag: one character per cache mode, and no two modes share one. */
  function CacheFlag(mode: nat): (c: char)
    requires mode < 4
    ensures c == '-' <==> mode == WRITECOMBINE
    ensures c == 'u' <==> mode == UNCACHED
    ensures c == 'b' <==> mode == WRITEBACK
    ensures c == 't' <==> mode == WRITETHROUGH
  {
    CACHE_FLAGS[mode]
  }

  /** The five flag characters print_mem_entry builds (the terminating NUL is not part of the text). */
  function FlagString(e: MemEntry): (s: string)
    ensures |s| == 5
    ensures (s[0] == 'g' <==> e.isGlobal) && (s[0] == '-' <==> !e.isGlobal)
    ensures (s[1] == 'r' <==> e.flags & GPUREADONLY != 0) && (s[1] == '-' <==> e.flags & GPUREADONLY == 0)
    ensures s[2] == AlignFlag(e.align)
    ensures s[3] == CacheFlag(e.cacheMode)
    ensures (s[4] == 'p' <==> e.useCpuMap) && (s[4] == '-' <==> !e.useCpuMap)
  {
    [ if e.isGlobal then 'g' else '-',
      if e.flags & GPUREADONLY != 0 then 'r' else '-',
      AlignFlag(e.align),
      CacheFlag(e.cacheMode),
      if e.useCpuMap then 'p' else '-' ]
  }

  /*
   * An independent reading of the flag string: the attributes it encodes, as a
   * record of booleans and enumerations, and a parser back from the characters.
   */

  datatype AlignClass = Below64K | Align64K | Align1M
  datatype CacheMode = WriteCombine | Uncached | WriteBack | WriteThrough

  datatype FlagView = FlagView(
    global: bool,
    readOnly: bool,
    alignClass: AlignClass,
    cache: CacheMode,
    cpuMap: bool)

  /** The attributes of an entry that the flag string is meant to show. */
  function ViewOf(e: MemEntry): FlagView
  {
    FlagView(
      e.isGlobal,
      e.flags & GPUREADONLY != 0,
      if e.align >= ALIGN_1M then Align1M else if e.align >= ALIGN_64K then Align64K else Below64K,
      [WriteCombine, Uncached, WriteBack, WriteThrough][e.cacheMode],
      e.useCpuMap)
  }

  /** Reads a flag string back; None for text no entry renders to. */
  function ParseFlags(s: string): Option<FlagView>
  {
    if |s| != 5 then None
    else
      var align :=
        if s[2] == 'L' then Some(Align1M)
        else if s[2] == 'l' then Some(Align64K)
        else if s[2] == '-' then Some(Below64K)
        else None;
      var cache :=
        if s[3] == '-' then Some(WriteCombine)
        else if s[3] == 'u' then Some(Uncached)
        else if s[3] == 'b' then Some(WriteBack)
        else if s[3] == 't' then Some(WriteThrough)
        else None;
      if s[0] in "g-" && s[1] in "r-" && s[4] in "p-" && align.Some? && cache.Some? then
        Some(FlagView(s[0] == 'g', s[1] == 'r', align.value, cache.value, s[4] == 'p'))
      else None
  }

  /** Every position of the flag string can be read back: parsing inverts rendering. */
  lemma ParseFlagString(e: MemEntry)
    ensures ParseFlags(FlagString(e)) == Some(ViewOf(e))
  {
  }

  /** Two entries print the same flag string exactly when they agree on every flagged attribute. */
  lemma FlagStringDeterminesView(e1: MemEntry, e2: MemEntry)
    ensures FlagString(e1) == FlagString(e2) <==> ViewOf(e1) == ViewOf(e2)
  {
    ParseFlagString(e1);
    ParseFlagString(e2);
    if ViewOf(e1) == ViewOf(e2) {
      assert e1.cacheMode == e2.cacheMode;
    }
  }

  /** One line of the `mem` report, as a record rather than formatted text. */
  datatype Row =
    | HeaderRow
    | EntryRow(
        gpuaddr: nat,
        useraddr: nat,
        size: int,
        id: nat,
        flags: string,
        memtype: string,
        usage: string,
        sglen: int)

  /**
   * print_mem_entry. The usage label comes from kgsl_get_memory_usage, which
   * is not part of this model: `usage` stands for it as a function of the flags.
   */
  function RowOf(e: MemEntry, usage: bv32 -> string): (r: Row)
    ensures r.EntryRow? && r.id == e.id && r.gpuaddr == e.gpuaddr
    ensures r.useraddr == e.useraddr && r.size == e.size && r.sglen == e.sglen
    ensures r.flags == FlagString(e) && ParseFlags(r.flags) == Some(ViewOf(e))
    ensures r.memtype == MemtypeLabel(e.memtype)
    ensures r.memtype == "unknown" <==> (e.memtype < 0 || e.memtype >= |MEMTYPE_STRINGS|)
    ensures r.usage == usage(e.flags)
  {
    ParseFlagString(e);
    EntryRow(e.gpuaddr, e.useraddr, e.size, e.id, FlagString(e),
             MemtypeLabel(e.memtype), usage(e.flags), e.sglen)
  }
}
