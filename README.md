# KGSL debugfs core, modelled in Dafny

This project models the behavioural core of the Adreno GPU driver's (KGSL)
debugfs layer, `drivers/gpu/msm/kgsl_debugfs.c`:

- **Control attributes** (`control.dfy`, module `DebugfsControl`): the log-level
  files generated by `KGSL_DEBUGFS_LOG`, the postmortem sub-toggles and the
  postmortem dump trigger, as a `Device` class whose fields the setters assign.
  A log-level write is truncated to `unsigned int` and capped at 7; the
  `regs_enabled` and `ib_enabled` toggles store 0 or 1; `enable` stores the
  value as written; a nonzero write to `dump` performs exactly one dump.
- **Row rendering** (`mem_entry.dfy`, module `MemEntryRender`): the memory-type
  label with its "unknown" fallback (negative codes included, because the
  signed code is compared with an unsigned table size), the alignment and
  cache-mode characters, and the five-character flag string of
  `print_mem_entry`. A parser from flag strings back to a record of the
  flagged attributes shows that every position can be read back independently.
- **The report** (`registry.dfy`, module `ProcessMem`): `process_mem_print`
  prints a header, then walks the rb-tree of entries with a GPU address in
  order, then walks the id map with a cursor (`idr_get_next` returns the entry
  with the smallest id at or above the cursor, which then moves one past it)
  and prints only entries without a GPU address. The registry is a sequence
  (the rb-tree in order) plus a map from id to entry; rows are records, not
  text. The report is proved equal to a specification function, and lemmas
  prove that the header comes once and first, the id pass is strictly
  ascending and prints exactly the unbound entries, an empty registry prints
  only the header, and, under the registry invariant, every entry is printed
  exactly once.
- **Open and release** (`process_ref.dfy`, module `ProcessHandle`): the open
  takes a reference on the process (try-get succeeds only while the count is
  nonzero) or fails with `-ENODEV`; the release drops it when there is a process.
- `machine_types.dfy` (module `MachineTypes`): the C integer widths, `Option`
  and the error numbers.

## Model

| member | source | states |
|---|---|---|
| MachineTypes.ToU32 | drivers/gpu/msm/kgsl_debugfs.c:100 | the C conversion to `unsigned int` keeps values below 2^32 and otherwise reduces modulo 2^32 |
| DebugfsControl.ClampLevel | drivers/gpu/msm/kgsl_debugfs.c:98-102 | the stored level is at most 7; a value whose low 32 bits are at most 7 is stored as those bits, any other is stored as 7 |
| DebugfsControl.ClampLevelIdempotent | drivers/gpu/msm/kgsl_debugfs.c:98-102 | levels 0..7 are stored unchanged, so writing back a level that was read changes nothing |
| DebugfsControl.ClampLevelExamples | drivers/gpu/msm/kgsl_debugfs.c:98-102 | writing -1 (u64 max) or 9 stores 7; writing 3 or 2^32+3 stores 3 |
| DebugfsControl.Normalize | drivers/gpu/msm/kgsl_debugfs.c:46 | the normalised toggle is 0 or 1, and 1 exactly when the written value is nonzero |
| DebugfsControl.Device.LogSet | drivers/gpu/msm/kgsl_debugfs.c:104-109 | returns 0, stores the clamped level in the named field, leaves the other five levels and all other device fields unchanged, and keeps every level at most 7 |
| DebugfsControl.Device.LogGet | drivers/gpu/msm/kgsl_debugfs.c:110-115 | returns 0 and the stored level, which is at most 7 when the levels are in range |
| DebugfsControl.Device.PmDumpSet | drivers/gpu/msm/kgsl_debugfs.c:27-38 | returns 0 and performs exactly one postmortem dump for a nonzero write, none for 0; nothing else changes |
| DebugfsControl.Device.PmRegsEnabledSet | drivers/gpu/msm/kgsl_debugfs.c:43-48 | returns 0 and stores 1 when the value is nonzero, else 0; only `pm_regs_enabled` changes |
| DebugfsControl.Device.PmRegsEnabledGet | drivers/gpu/msm/kgsl_debugfs.c:50-55 | returns 0 and the stored toggle |
| DebugfsControl.Device.PmIbEnabledSet | drivers/gpu/msm/kgsl_debugfs.c:57-62 | returns 0 and stores 1 when the value is nonzero, else 0; only `pm_ib_enabled` changes |
| DebugfsControl.Device.PmIbEnabledGet | drivers/gpu/msm/kgsl_debugfs.c:64-69 | returns 0 and the stored toggle |
| DebugfsControl.Device.PmEnabledSet | drivers/gpu/msm/kgsl_debugfs.c:71-76 | returns 0 and stores the value unnormalised; only `pm_dump_enable` changes |
| DebugfsControl.Device.PmEnabledGet | drivers/gpu/msm/kgsl_debugfs.c:78-83 | returns 0 and the stored value |
| DebugfsControl.WriteThenRead | drivers/gpu/msm/kgsl_debugfs.c:98-117 | a log-level write followed by a read yields the clamped value (at most 7); a toggle write followed by a read yields 0 or 1, 1 exactly for a nonzero write; no dump happens |
| MemEntryRender.MemtypeLabel | drivers/gpu/msm/kgsl_debugfs.c:164-177 | codes 0..4 give "gpumem", "pmem", "ashmem", "usermap", "ion"; every other code, negative ones included, gives "unknown" |
| MemEntryRender.MemtypeLabelInjective | drivers/gpu/msm/kgsl_debugfs.c:164-177 | a label other than "unknown" comes from exactly one code, and only codes 0..4 avoid the fallback |
| MemEntryRender.AlignFlag | drivers/gpu/msm/kgsl_debugfs.c:179-187 | 'L' exactly when align is at least ilog2(1M) = 20, 'l' exactly when it is in 16..19, '-' exactly below 16 |
| MemEntryRender.CacheFlag | drivers/gpu/msm/kgsl_debugfs.c:189-198 | for the four cache modes, write-combine, uncached, write-back and write-through map to '-', 'u', 'b', 't', each character exactly for its mode |
| MemEntryRender.FlagString | drivers/gpu/msm/kgsl_debugfs.c:200-211 | five characters: 'g' exactly for global (else '-'), 'r' exactly when the GPU-read-only bit is set (else '-'), the align flag, the cache flag, 'p' exactly when the CPU map is used (else '-') |
| MemEntryRender.ParseFlagString | drivers/gpu/msm/kgsl_debugfs.c:206-211 | reading the flag string back recovers every flagged attribute of the entry |
| MemEntryRender.FlagStringDeterminesView | drivers/gpu/msm/kgsl_debugfs.c:206-211 | two entries print the same flag string if and only if they agree on all five flagged attributes |
| MemEntryRender.RowOf | drivers/gpu/msm/kgsl_debugfs.c:213-219 | a printed row carries every column of its entry: GPU and user address, size, id and sglen as stored; the flag string, which reads back as the entry's attributes; the memory-type label, which is "unknown" exactly for codes outside the table; and the usage label of the entry's flags |
| ProcessMem.UnboundIdsBelow | drivers/gpu/msm/kgsl_debugfs.c:244-254 | the ids the cursor pass has printed before reaching `n` are strictly ascending and are exactly the ids below `n` whose entry has no GPU address |
| ProcessMem.UnboundIds | drivers/gpu/msm/kgsl_debugfs.c:244-254 | the ids the whole cursor pass prints are strictly ascending and are exactly the ids whose entry has no GPU address |
| ProcessMem.UnboundIdsGap | drivers/gpu/msm/kgsl_debugfs.c:246 | moving the cursor over a stretch with no ids prints nothing |
| ProcessMem.UnboundIdsStep | drivers/gpu/msm/kgsl_debugfs.c:246-253 | one cursor step prints the found id exactly when its entry has no GPU address |
| ProcessMem.IdrGetNext | drivers/gpu/msm/kgsl_debugfs.c:246 | yields the entry with the smallest id at or above the cursor and that id, or nothing (cursor unchanged) when every id is below the cursor |
| ProcessMem.PrintTreePass | drivers/gpu/msm/kgsl_debugfs.c:233-241 | appends one row per rb-tree entry, in tree order |
| ProcessMem.PrintCursorPass | drivers/gpu/msm/kgsl_debugfs.c:243-254 | terminates, and appends the rows of exactly the id-map entries without a GPU address, in strictly ascending id order, each once |
| ProcessMem.ProcessMemPrint | drivers/gpu/msm/kgsl_debugfs.c:222-257 | the report equals the specification: header, rb-tree rows in order, then the unbound entries' rows by ascending id |
| ProcessMem.SnapshotShape | drivers/gpu/msm/kgsl_debugfs.c:229-241 | the header is the first row and the only one; the rb-tree rows follow it in tree order |
| ProcessMem.EmptyRegistrySnapshot | drivers/gpu/msm/kgsl_debugfs.c:222-257 | an empty registry prints the header alone |
| ProcessMem.SnapshotEntriesFiled | drivers/gpu/msm/kgsl_debugfs.c:233-254 | under the registry invariant, every printed entry is the id map's entry for its id |
| ProcessMem.SnapshotEntriesDistinct | drivers/gpu/msm/kgsl_debugfs.c:233-254 | under the registry invariant, no id is printed twice, not even once by each pass |
| ProcessMem.SnapshotEntriesComplete | drivers/gpu/msm/kgsl_debugfs.c:233-254 | under the registry invariant, every entry of the id map is printed |
| ProcessMem.SnapshotEveryEntryOnce | drivers/gpu/msm/kgsl_debugfs.c:222-257 | under the registry invariant, the report has exactly one row per entry of the id map |
| ProcessMem.SnapshotTwoEntries | drivers/gpu/msm/kgsl_debugfs.c:222-257 | a bound entry with id 1 and an unbound one with id 2 print as header, id 1, id 2 |
| ProcessHandle.ProcessPrivate.TryGet | drivers/gpu/msm/kgsl_debugfs.c:270 | a reference is taken exactly when the count is nonzero |
| ProcessHandle.ProcessPrivate.Put | drivers/gpu/msm/kgsl_debugfs.c:281 | drops exactly one reference |
| ProcessHandle.ProcessMemOpenAsWritten | drivers/gpu/msm/kgsl_debugfs.c:259-274 | `-ENODEV` without taking a reference when there is no process or its count is zero; otherwise single_open's result, with the reference kept even when that result is an error |
| ProcessHandle.OpenLeakExample | drivers/gpu/msm/kgsl_debugfs.c:270-273 | with one reference and single_open failing with -ENOMEM, the as-written open fails and leaves two references |
| ProcessHandle.ProcessMemOpen | drivers/gpu/msm/kgsl_debugfs.c:259-274 | `-ENODEV` without taking a reference when there is no process or its count is zero (no revival); otherwise holds one reference if and only if it returns 0 |
| ProcessHandle.ProcessMemRelease | drivers/gpu/msm/kgsl_debugfs.c:276-284 | returns 0 and drops exactly one reference when there is a process, none otherwise |
| ProcessHandle.ProcessMemSession | drivers/gpu/msm/kgsl_debugfs.c:259-284 | an open followed, when it succeeded, by a release leaves the process's count where it was |

## Left out

- Debugfs tree construction (`kgsl_device_debugfs_init`, `kgsl_process_init_debugfs`, `kgsl_core_debugfs_init`, `kgsl_core_debugfs_close`, lines 126-162 and 293-323): directory and file creation, modes and the uid/gid copying are file-system plumbing. The `ft_log` pair is modelled with the other levels although no file is created for it.
- Output formatting: `seq_file`, `single_open`/`single_release` internals, `%pK` pointer hiding and column widths. Rows are records; `single_open`'s result is a parameter of the open.
- Locking and RCU (lines 32-34, 234-247): the registry is a value that does not change during the report, so the weak consistency of the cursor pass under concurrent insertion and removal is not modelled.
- `kgsl_postmortem_dump` is represented by a counter of dumps; `kgsl_get_memory_usage` by a function parameter `usage` of the flags; `kgsl_memdesc_is_global`, `kgsl_memdesc_get_align`, `kgsl_memdesc_get_cachemode` and `kgsl_memdesc_use_cpu_map` by entry fields holding their results (the cache mode as a two-bit code).
- The rb-tree and the idr are a sequence and a map; `idr_get_next` is `ProcessMem.IdrGetNext`, specified by its contract (smallest id at or above the cursor).
- Process teardown when the count reaches zero is in `kgsl_process_private_put`, which is not part of this model beyond decrementing the count.
- DebugfsControl.Device.PmEnabledSet: the declared width of `pm_dump_enable` is in `kgsl_device.h`, which is not part of this model; the field is taken to hold the written 64-bit value, so any truncation or sign extension by a narrower field is not captured.
- MemEntryRender.MemtypeLabel: `ARRAY_SIZE` is taken as a 32-bit `size_t` (the driver's ARM target); on a 64-bit `size_t` the comparison gives the same labels.
- Ids and the cursor of the second pass are unbounded `nat`s, whereas the source's cursor is an `int` incremented past each id found (lines 227 and 253); an overflow of that increment at INT_MAX is not modelled, and the proof that the cursor pass ends relies on there being none.
- The model follows the code where it is narrower than the attributes' plain description: a log-level write is truncated to 32 bits before the cap (so 2^32+3 stores 3), and the postmortem `enable` toggle is not normalised to 0 or 1.

## Findings

| source | as written | input that shows it | evidently intended | confidence | as-written member | corrected member |
|---|---|---|---|---|---|---|
| drivers/gpu/msm/kgsl_debugfs.c:270-273 | the reference is taken before `single_open`, and `single_open`'s error is returned without dropping it; the file system calls release only after a successful open | a live process with one reference, `single_open` returning -ENOMEM: the open fails and the count stays at 2 for good | put the reference when `single_open` fails, so the open holds a reference exactly when it succeeds | medium, not executed | ProcessHandle.ProcessMemOpenAsWritten, ProcessHandle.OpenLeakExample | ProcessHandle.ProcessMemOpen |
