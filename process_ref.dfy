/**
 * Opening and closing a process's `mem` report: the open takes a reference on
 * the process so that it cannot be torn down while the report is open, and the
 * release drops it again.
 */
module ProcessHandle {
  import opened MachineTypes

  /**
   * The reference count of struct kgsl_process_private. What happens when the
   * count drops to zero (the process's teardown) is not part of this model.
   */
  class ProcessPrivate {
    var refcount: nat

    constructor (count: nat)
      ensures refcount == count
    {
      refcount := count;
    }

    /**
     * kgsl_process_private_get: takes a reference unless the count has
     * already reached zero, so a dying process is never revived.
     */
    method TryGet() returns (ok: bool)
      modifies this
      ensures ok == (old(refcount) > 0)
      ensures refcount == if ok then old(refcount) + 1 else old(refcount)
    {
      ok := refcount > 0;
      if ok {
        refcount := refcount + 1;
      }
    }

    /** kgsl_process_private_put: drops one reference the caller holds. */
    method Put()
      requires refcount > 0
      modifies this
      ensures refcount == old(refcount) - 1
    {
      refcount := refcount - 1;
    }
  }

  /**
   * process_mem_open as the source has it. `p` is the inode's private pointer
   * and `singleOpenStatus` the result of single_open, which is not part of
   * this model (0, or a negative errno such as -ENOMEM). When single_open
   * fails the reference taken before it is kept, although the open fails.
   */
  method ProcessMemOpenAsWritten(p: ProcessPrivate?, singleOpenStatus: int) returns (status: int)
    requires singleOpenStatus <= 0
    modifies p
    ensures p == null ==> status == -ENODEV
    ensures p != null && old(p.refcount) == 0 ==> status == -ENODEV && p.refcount == 0
    ensures p != null && old(p.refcount) > 0 ==>
      status == singleOpenStatus && p.refcount == old(p.refcount) + 1
  {
    if p == null {
      return -ENODEV;
    }
    var ok := p.TryGet();
    if !ok {
      return -ENODEV;
    }
    status := singleOpenStatus;
  }

  /**
   * A live process with one reference and a single_open that runs out of
   * memory: the as-written open reports the failure and still leaves the
   * count at 2. Since the file was never opened, no release will follow.
   */
  method OpenLeakExample() returns (status: int, count: nat)
    ensures status == -ENOMEM && status != 0
    ensures count == 2
  {
    var p := new ProcessPrivate(1);
    status := ProcessMemOpenAsWritten(p, -ENOMEM);
    count := p.refcount;
  }

  /**
   * process_mem_open, with the reference dropped again when single_open
   * fails: the open fails with -ENODEV (and takes nothing) when there is no
   * process or it is already dying, and it holds a reference exactly when it
   * succeeds.
   */
  method ProcessMemOpen(p: ProcessPrivate?, singleOpenStatus: int) returns (status: int)
    requires singleOpenStatus <= 0
    modifies p
    ensures p == null ==> status == -ENODEV
    ensures p != null && old(p.refcount) == 0 ==> status == -ENODEV && p.refcount == 0
    ensures p != null ==> (status == 0 <==> old(p.refcount) > 0 && singleOpenStatus == 0)
    ensures p != null ==> p.refcount == old(p.refcount) + (if status == 0 then 1 else 0)
  {
    if p == null {
      return -ENODEV;
    }
    var ok := p.TryGet();
    if !ok {
      return -ENODEV;
    }
    status := singleOpenStatus;
    if status != 0 {
      p.Put();
    }
  }

  /**
   * process_mem_release: drops the reference the open took, when there is a
   * process; single_release's result (always 0) is returned.
   */
  method ProcessMemRelease(p: ProcessPrivate?) returns (status: int)
    requires p != null ==> p.refcount > 0
    modifies p
    ensures status == 0
    ensures p != null ==> p.refcount == old(p.refcount) - 1
  {
    if p != null {
      p.Put();
    }
    status := 0;
  }

  /**
   * One report session: the open, and the release the file system calls only
   * after a successful open. Whatever single_open does, the process's count
   * ends where it started.
   */
  method ProcessMemSession(p: ProcessPrivate?, singleOpenStatus: int) returns (status: int)
    requires singleOpenStatus <= 0
    modifies p
    ensures p != null ==> p.refcount == old(p.refcount)
    ensures p != null && status == 0 ==> old(p.refcount) > 0
  {
    status := ProcessMemOpen(p, singleOpenStatus);
    if status == 0 {
      var _ := ProcessMemRelease(p);
    }
  }
}
