/**
 * The device's debugfs control attributes: the per-subsystem log levels, the
 * postmortem sub-toggles and the write-only postmortem dump trigger.
 *
 * Every setter receives the 64-bit value written to the file and returns 0;
 * every getter hands back the stored field widened to 64 bits.
 */
module DebugfsControl {
  import opened MachineTypes

  /** KGSL_LOG_LEVEL_MAX: the most verbose log level. */
  const LOG_LEVEL_MAX: u32 := 7

  /** The six log-level fields generated by KGSL_DEBUGFS_LOG. */
  datatype LogKind = Drv | Cmd | Ctxt | Mem | Pwr | Ft

  /**
   * kgsl_log_set: the written value is truncated to `unsigned int` and then
   * capped at LOG_LEVEL_MAX; nothing is rejected.
   */
  function ClampLevel(val: u64): (level: u32)
    ensures level <= LOG_LEVEL_MAX
    ensures ToU32(val) <= LOG_LEVEL_MAX ==> level == ToU32(val)
    ensures ToU32(val) > LOG_LEVEL_MAX ==> level == LOG_LEVEL_MAX
  {
    var truncated := ToU32(val);
    if truncated < LOG_LEVEL_MAX then truncated else LOG_LEVEL_MAX
  }

  /** A level that is already in range is stored unchanged, so clamping is idempotent. */
  lemma ClampLevelIdempotent(val: u64)
    ensures ClampLevel(ClampLevel(val)) == ClampLevel(val)
    ensures val <= LOG_LEVEL_MAX ==> ClampLevel(val) == val
  {
  }

  /** The boundary writes: -1 (u64 max), 9, 3 and 2^32 + 3. */
  lemma ClampLevelExamples()
    ensures ClampLevel(U64_MAX) == 7
    ensures ClampLevel(9) == 7
    ensures ClampLevel(3) == 3
    ensures ClampLevel(U32_MODULUS + 3) == 3
  {
  }

  /** The postmortem toggles `regs_enabled` and `ib_enabled` store 1 for any nonzero write. */
  function Normalize(val: u64): (flag: u64)
    ensures flag == 0 || flag == 1
    ensures flag == 1 <==> val != 0
  {
    if val != 0 then 1 else 0
  }

  /** The part of struct kgsl_device that the debugfs attributes read and write. */
  class Device {
    var drvLog: u32
    var cmdLog: u32
    var ctxtLog: u32
    var memLog: u32
    var pwrLog: u32
    var ftLog: u32

    var pmRegsEnabled: u64
    var pmIbEnabled: u64
    var pmDumpEnable: u64

    /** How many times kgsl_postmortem_dump has been called on this device. */
    var postmortemDumps: nat

    constructor ()
      ensures forall k :: Level(k) == 0
      ensures LevelsInRange()
      ensures pmRegsEnabled == 0 && pmIbEnabled == 0 && pmDumpEnable == 0
      ensures postmortemDumps == 0
    {
      drvLog, cmdLog, ctxtLog, memLog, pwrLog, ftLog := 0, 0, 0, 0, 0, 0;
      pmRegsEnabled, pmIbEnabled, pmDumpEnable := 0, 0, 0;
      postmortemDumps := 0;
    }

    /** The log-level field named by `kind`. */
    function Level(kind: LogKind): u32
      reads this
    {
      match kind
      case Drv => drvLog
      case Cmd => cmdLog
      case Ctxt => ctxtLog
      case Mem => memLog
      case Pwr => pwrLog
      case Ft => ftLog
    }

    /** Every log level is at most LOG_LEVEL_MAX: the invariant the setters keep. */
    predicate LevelsInRange()
      reads this
    {
      forall k :: Level(k) <= LOG_LEVEL_MAX
    }

    /**
     * The `<kind>_log_set` attribute callback: stores the clamped level in the
     * named field and leaves the other five levels as they were.
     */
    method LogSet(kind: LogKind, val: u64) returns (status: int)
      modifies this`drvLog, this`cmdLog, this`ctxtLog, this`memLog, this`pwrLog, this`ftLog
      ensures status == 0
      ensures Level(kind) == ClampLevel(val)
      ensures forall other :: other != kind ==> Level(other) == old(Level(other))
      ensures old(LevelsInRange()) ==> LevelsInRange()
    {
      var level := ClampLevel(val);
      status := 0;
      match kind
      case Drv => drvLog := level;
      case Cmd => cmdLog := level;
      case Ctxt => ctxtLog := level;
      case Mem => memLog := level;
      case Pwr => pwrLog := level;
      case Ft => ftLog := level;
    }

    /** The `<kind>_log_get` attribute callback. */
    method LogGet(kind: LogKind) returns (status: int, val: u64)
      ensures status == 0
      ensures val == Level(kind)
      ensures LevelsInRange() ==> val <= LOG_LEVEL_MAX
    {
      status := 0;
      match kind
      case Drv => val := drvLog;
      case Cmd => val := cmdLog;
      case Ctxt => val := ctxtLog;
      case Mem => val := memLog;
      case Pwr => val := pwrLog;
      case Ft => val := ftLog;
    }

    /** pm_dump_set: a nonzero write performs exactly one postmortem dump. */
    method PmDumpSet(val: u64) returns (status: int)
      modifies this`postmortemDumps
      ensures status == 0
      ensures postmortemDumps == old(postmortemDumps) + (if val != 0 then 1 else 0)
    {
      if val != 0 {
        postmortemDumps := postmortemDumps + 1;
      }
      status := 0;
    }

    /** pm_regs_enabled_set: stores the written value normalised to 0 or 1. */
    method PmRegsEnabledSet(val: u64) returns (status: int)
      modifies this`pmRegsEnabled
      ensures status == 0
      ensures pmRegsEnabled == Normalize(val)
    {
      pmRegsEnabled := Normalize(val);
      status := 0;
    }

    method PmRegsEnabledGet() returns (status: int, val: u64)
      ensures status == 0 && val == pmRegsEnabled
    {
      val := pmRegsEnabled;
      status := 0;
    }

    /** pm_ib_enabled_set: stores the written value normalised to 0 or 1. */
    method PmIbEnabledSet(val: u64) returns (status: int)
      modifies this`pmIbEnabled
      ensures status == 0
      ensures pmIbEnabled == Normalize(val)
    {
      pmIbEnabled := Normalize(val);
      status := 0;
    }

    method PmIbEnabledGet() returns (status: int, val: u64)
      ensures status == 0 && val == pmIbEnabled
    {
      val := pmIbEnabled;
      status := 0;
    }

    /** pm_enabled_set: unlike the other toggles, the value is stored as written. */
    method PmEnabledSet(val: u64) returns (status: int)
      modifies this`pmDumpEnable
      ensures status == 0
      ensures pmDumpEnable == val
    {
      pmDumpEnable := val;
      status := 0;
    }

    method PmEnabledGet() returns (status: int, val: u64)
      ensures status == 0 && val == pmDumpEnable
    {
      val := pmDumpEnable;
      status := 0;
    }
  }

  /**
   * A write followed by a read of the same attribute: the log-level files
   * read back the clamped value, the normalised toggles 0 or 1.
   */
  method WriteThenRead(d: Device, kind: LogKind, val: u64) returns (level: u64, regs: u64)
    modifies d
    ensures level == ClampLevel(val) && level <= LOG_LEVEL_MAX
    ensures regs == Normalize(val) && (regs == 1 <==> val != 0)
    ensures d.postmortemDumps == old(d.postmortemDumps)
  {
    var _ := d.LogSet(kind, val);
    var _ := d.PmRegsEnabledSet(val);
    var _, l := d.LogGet(kind);
    var _, r := d.PmRegsEnabledGet();
    level, regs := l, r;
  }
}
