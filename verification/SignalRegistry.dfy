/** The signal registry (src/devices/common/signal_registry.cpp): published simulation values in front of devices. */
module SignalRegistry {
  import opened Basics

  /** Outcome of the locked section of read_signal: a published value, if there is one yet, or the device is asked. */
  datatype Lookup = Published(value: Option<real>) | AskDevice

  class Registry {
    var cache: map<string, real>
    var driven: set<string>

    /** A cached value belongs to a driven path. */
    ghost predicate Valid()
      reads this
    {
      cache.Keys <= driven
    }

    /** What the simulation publishes for a path. */
    function PublishedValue(path: string): Option<real>
      reads this
    {
      if path in driven && path in cache then Some(cache[path]) else None
    }

    constructor ()
      ensures Valid() && cache == map[] && driven == {}
    {
      cache, driven := map[], {};
    }

    /** A driven path never asks the device, written or not; any other path always does. */
    method ReadSection(path: string) returns (l: Lookup)
      requires Valid()
      ensures l == if path in driven then Published(PublishedValue(path)) else AskDevice
    {
      if path in driven {
        if path in cache {
          return Published(Some(cache[path]));
        }
        return Published(None);
      }
      return AskDevice;
    }

    method WriteSignal(path: string, value: real)
      requires Valid()
      modifies this
      ensures Valid() && driven == old(driven) + {path} && cache == old(cache)[path := value]
    {
      driven := driven + {path};
      cache := cache[path := value];
    }

    method IsPhysicsDriven(path: string) returns (yes: bool)
      ensures yes <==> path in driven
    {
      return path in driven;
    }

    method MarkPhysicsDriven(path: string)
      requires Valid()
      modifies this`driven
      ensures Valid() && driven == old(driven) + {path}
    {
      driven := driven + {path};
    }
  }
}
