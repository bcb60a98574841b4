// The table of running services, by name.

module Registries {
  import opened Common

  // Each service is known by a number of its own.
  type Handle = nat

  class Registry {
    var m: map<string, Handle>
    var closed: set<Handle>

    constructor ()
      ensures m == map[] && closed == {}
    {
      m, closed := map[], {};
    }

    // An empty name is accepted and ignored, a name that is taken is refused.
    method Register(name: string, v: Handle) returns (ok: bool)
      modifies this
      ensures ok == (name == "" || name !in old(m))
      ensures m == if ok && name != "" then old(m)[name := v] else old(m)
      ensures closed == old(closed)
    {
      ok := true;
      if name != "" {
        if name in m {
          ok := false;
        } else {
          m := m[name := v];
        }
      }
    }

    // A service that leaves the table is closed.
    method Unregister(name: string)
      modifies this
      ensures m == old(m) - {name}
      ensures closed == old(closed) + (if name in old(m) then {old(m)[name]} else {})
    {
      if name in m {
        Close(m[name]);
        m := m - {name};
      }
    }

    method Close(v: Handle)
      modifies this`closed
      ensures closed == old(closed) + {v}
    {
      closed := closed + {v};
    }

    method IsRegistered(name: string) returns (r: bool)
      ensures r == (name in m)
    {
      r := name in m;
    }

    method Get(name: string) returns (r: Option<Handle>)
      ensures r == if name != "" && name in m then Some(m[name]) else None
    {
      r := None;
      if name != "" && name in m {
        r := Some(m[name]);
      }
    }
  }
}
