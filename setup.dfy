/**
 * Startup: every tool of the upstream catalogue is copied, wrapped with the
 * output transform for its resolved program, registered on the proxy, and
 * the copy it was built from is disabled.
 */
module Setup {
  import opened Wrappers
  import opened Filters
  import opened Config

  /** A tool as the proxy knows it: the upstream's own, or a transformed tool closing over a program. */
  datatype Tool = Upstream(name: string) | Transformed(name: string, program: Option<Filter>)

  /** A registration under a name: the tool and whether it is enabled. */
  datatype Entry = Entry(tool: Tool, enabled: bool)

  /** The registry calls setup makes, in the order it makes them. */
  datatype Event = Added(tool: Tool) | CopyDisabled(name: string)

  /** The tool built from a copy of `t`, its output piped through the program its name resolves to. */
  function Wrapped(t: Tool): (w: Tool)
    ensures w.Transformed? && w.name == t.name && w.program.Some?
    ensures t.name in Compiled ==> w.program == Some(Compiled[t.name])
    ensures t.name !in Compiled ==> w.program == Some(Walk(WildcardRule))
  {
    Transformed(t.name, Resolve(Compiled, t.name))
  }

  /** The names of a catalogue. */
  function Names(ts: seq<Tool>): (ns: set<string>)
  {
    set i | 0 <= i < |ts| :: ts[i].name
  }

  /** The registrations setup makes for `ts`; a later registration under a name overrides an earlier one. */
  function Installed(ts: seq<Tool>): (m: map<string, Entry>)
  {
    if ts == [] then map[]
    else Installed(ts[..|ts| - 1])[ts[|ts| - 1].name := Entry(Wrapped(ts[|ts| - 1]), true)]
  }

  /** The calls setup makes for `ts`: for each tool, add its wrapped tool, then disable its copy. */
  function SetupLog(ts: seq<Tool>): (log: seq<Event>)
  {
    if ts == [] then []
    else SetupLog(ts[..|ts| - 1]) + [Added(Wrapped(ts[|ts| - 1])), CopyDisabled(ts[|ts| - 1].name)]
  }

  /** Setup registers exactly the catalogue's names. */
  lemma {:induction false} InstalledKeys(ts: seq<Tool>)
    ensures Installed(ts).Keys == Names(ts)
  {
    if ts != [] {
      var init := ts[..|ts| - 1];
      InstalledKeys(init);
      assert Names(ts) == Names(init) + {ts[|ts| - 1].name} by {
        forall n | n in Names(ts) ensures n in Names(init) + {ts[|ts| - 1].name} {
          var i :| 0 <= i < |ts| && ts[i].name == n;
          if i < |ts| - 1 { assert init[i] == ts[i]; }
        }
        forall n | n in Names(init) ensures n in Names(ts) {
          var i :| 0 <= i < |init| && init[i].name == n;
          assert ts[i] == init[i];
        }
      }
    }
  }

  /** Each catalogue name is bound to an enabled wrapped tool carrying the program resolved for it. */
  lemma {:induction false} InstalledBinding(ts: seq<Tool>, t: Tool)
    requires t in ts
    ensures t.name in Installed(ts)
    ensures Installed(ts)[t.name] == Entry(Transformed(t.name, Resolve(Compiled, t.name)), true)
  {
    var last := ts[|ts| - 1];
    if t != last {
      var init := ts[..|ts| - 1];
      assert t in init by {
        var i :| 0 <= i < |ts| && ts[i] == t;
        assert init[i] == t;
      }
      InstalledBinding(init, t);
    }
  }

  /** In the call log, every tool's wrapped tool is added immediately before its copy is disabled. */
  lemma {:induction false} SetupLogOrder(ts: seq<Tool>, i: nat)
    requires i < |ts|
    ensures |SetupLog(ts)| == 2 * |ts|
    ensures SetupLog(ts)[2 * i] == Added(Transformed(ts[i].name, Resolve(Compiled, ts[i].name)))
    ensures SetupLog(ts)[2 * i + 1] == CopyDisabled(ts[i].name)
  {
    SetupLogLength(ts);
    var init := ts[..|ts| - 1];
    if i < |ts| - 1 {
      SetupLogOrder(init, i);
      assert init[i] == ts[i];
    }
  }

  lemma {:induction false} SetupLogLength(ts: seq<Tool>)
    ensures |SetupLog(ts)| == 2 * |ts|
  {
    if ts != [] {
      SetupLogLength(ts[..|ts| - 1]);
    }
  }

  /** The proxy's tool registry: one registration per name. */
  class Proxy {
    var registry: map<string, Entry>
    var log: seq<Event>

    constructor (initial: map<string, Entry>)
      ensures registry == initial && log == []
    {
      registry := initial;
      log := [];
    }

    /** The tool a call to `name` reaches: the registration under it, when enabled. */
    function Lookup(name: string): (r: Option<Tool>)
      reads this
      ensures r.Some? <==> name in registry && registry[name].enabled
      ensures r.Some? ==> r.value == registry[name].tool
    {
      if name in registry && registry[name].enabled then Some(registry[name].tool) else None
    }

    /** add_tool: registers an enabled tool, replacing whatever was registered under its name. */
    method AddTool(t: Tool)
      modifies this
      ensures registry == old(registry)[t.name := Entry(t, true)]
      ensures log == old(log) + [Added(t)]
    {
      registry := registry[t.name := Entry(t, true)];
      log := log + [Added(t)];
    }

    /** Disabling the copy the wrapped tool was built from; that copy is not itself registered. */
    method DisableCopy(name: string)
      modifies this
      ensures registry == old(registry)
      ensures log == old(log) + [CopyDisabled(name)]
    {
      log := log + [CopyDisabled(name)];
    }

    /** The replacement loop over the catalogue `available`, in its iteration order. */
    method Setup(available: seq<Tool>)
      modifies this
      ensures registry == old(registry) + Installed(available)
      ensures log == old(log) + SetupLog(available)
      ensures old(registry).Keys <= Names(available) ==> registry.Keys == Names(available)
      ensures forall t :: t in available ==> Lookup(t.name) == Some(Transformed(t.name, Resolve(Compiled, t.name)))
      ensures forall n :: n !in Names(available) ==> Lookup(n) == old(Lookup(n))
    {
      var i := 0;
      while i < |available|
        invariant 0 <= i <= |available|
        invariant registry == old(registry) + Installed(available[..i])
        invariant log == old(log) + SetupLog(available[..i])
      {
        var tool := available[i];
        var program := Resolve(Compiled, tool.name);
        var copied := tool;
        var modified := Transformed(copied.name, program);
        AddTool(modified);
        DisableCopy(copied.name);
        assert available[..i + 1][..i] == available[..i];
        i := i + 1;
      }
      assert available[..i] == available;
      InstalledKeys(available);
      forall t | t in available
        ensures Lookup(t.name) == Some(Transformed(t.name, Resolve(Compiled, t.name)))
      {
        InstalledBinding(available, t);
      }
    }
  }
}
