/** The process-wide set of locked logical ports (internal/listenerlock/lock.go). */
module ListenerLock {
  import opened Bytes
  import opened Supervisor

  class PortLocks {
    var paths: set<nat>

    constructor ()
      ensures paths == {}
    {
      paths := {};
    }

    /** `outcome` is what the file system and the lock file answer. */
    method Acquire(port: nat, outcome: Outcome) returns (err: Option<StartError>)
      modifies this
      ensures err.None? <==> port != 0 && port !in old(paths) &&
                             !outcome.NoLockDirectory? && !outcome.NoLockFile? && !outcome.HeldElsewhere?
      ensures paths == if err.None? then old(paths) + {port} else old(paths)
      ensures err == Some(PortZero) <==> port == 0
      ensures err == Some(InUse(port)) <==> port != 0 && !outcome.NoLockDirectory? && port in old(paths)
      ensures err == Some(OtherProcess(port)) <==> port != 0 && port !in old(paths) && outcome.HeldElsewhere?
      ensures err.Some? ==> err.value in {PortZero, LockIoError, InUse(port), OtherProcess(port)}
    {
      if port == 0 {
        return Some(PortZero);
      }
      if outcome.NoLockDirectory? {
        return Some(LockIoError);
      }
      if port in paths {
        return Some(InUse(port));
      }
      if outcome.NoLockFile? {
        return Some(LockIoError);
      }
      if outcome.HeldElsewhere? {
        return Some(OtherProcess(port));
      }
      paths := paths + {port};
      return None;
    }

    method Release(port: nat)
      modifies this
      ensures paths == old(paths) - {port}
    {
      paths := paths - {port};
    }
  }

  /** A lock object releases its port once: closing it again cannot free the port
      under a later owner. */
  class Lock {
    const port: nat
    const registry: PortLocks
    var released: bool

    constructor (registry: PortLocks, port: nat)
      ensures this.registry == registry && this.port == port && !released
    {
      this.registry, this.port := registry, port;
      released := false;
    }

    method Close()
      modifies this, registry
      ensures released
      ensures registry.paths == if old(released) then old(registry.paths) else old(registry.paths) - {port}
    {
      if !released {
        released := true;
        registry.Release(port);
      }
    }
  }
}
