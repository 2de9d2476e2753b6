/**
 * The driver as the program keeps it: a state machine, a port allocator, and a
 * table of runtimes edited in place as actions are carried out.  Each method is
 * proved against the functions of module AppFleet.
 */
module AppDriver {
  import opened Wrappers
  import opened AppModel
  import opened PortRange
  import opened AppFleet
  import Machine = AppState

  // ------------------------------------------------------------ the proxy slot

  const SLOT_WIDTH: nat := 0x1_0000_0000_0000_0000
  const GEN_LIMIT: nat := 0x1_0000_0000_0000

  /** A proxy slot packs generation and port into one 64-bit word. */
  function PackedSlot(port: Port, g: Gen): nat {
    (g * 65536) % SLOT_WIDTH + port
  }

  function ReadSlot(word: nat): Option<(Port, Gen)> {
    if word % 65536 == 0 then None else Some((word % 65536, word / 65536))
  }

  lemma ShiftedWord(g: Gen)
    ensures (g * 65536) % SLOT_WIDTH == (g % GEN_LIMIT) * 65536
  {
    var q, r := g / GEN_LIMIT, g % GEN_LIMIT;
    assert g == q * GEN_LIMIT + r;
    assert g * 65536 == q * SLOT_WIDTH + r * 65536;
    assert 0 <= r * 65536 < SLOT_WIDTH;
    RemainderIs(g * 65536, q, r * 65536);
  }

  lemma RemainderIs(x: nat, q: nat, r: nat)
    requires x == q * SLOT_WIDTH + r && r < SLOT_WIDTH
    ensures x % SLOT_WIDTH == r
  {
    assert (x % SLOT_WIDTH - r) % SLOT_WIDTH == 0;
  }

  /** A slot reads back as what was set exactly for a non-zero port and a
      generation of at most 48 bits. */
  lemma SlotReadsBackIff(port: Port, g: Gen)
    ensures ReadSlot(PackedSlot(port, g)) == Some((port, g)) <==> port != 0 && g < GEN_LIMIT
  {
    ShiftedWord(g);
    var h := g % GEN_LIMIT;
    assert (h * 65536 + port) % 65536 == port;
    assert (h * 65536 + port) / 65536 == h;
  }

  // ------------------------------------------------------------ the driver

  ghost function ChildrenOf(p: Plant, n: Name): set<Gen> {
    if n in p.runtimes then p.runtimes[n].children.Keys else {}
  }

  lemma StopFirst(p: Plant, n: Name, g: Gen)
    requires IsFirst(ChildrenOf(p, n), g)
    ensures AllStopped(p, n) == AllStopped(StoppedChild(p, n, g, false), n)
    ensures ChildrenOf(StoppedChild(p, n, g, false), n) == ChildrenOf(p, n) - {g}
  {
    assert First(p.runtimes[n].children.Keys) == g;
  }

  lemma StopNone(p: Plant, n: Name)
    requires ChildrenOf(p, n) == {}
    ensures AllStopped(p, n) == p
  {
  }

  class Driver {
    const state: Machine.AppState
    const ports: PortAllocator
    var runtimes: map<Name, Runtime>
    var effects: seq<Effect>

    ghost function Machinery(): Plant
      reads this, ports
    {
      Plant(runtimes, ports.Model(), effects)
    }

    ghost function Model(): Fleet
      reads this, state, ports
    {
      Fleet(state.Model(), Machinery())
    }

    constructor (names: set<Name>, maxConcurrent: nat, ports: PortAllocator)
      ensures fresh(state) && this.ports == ports && state.Valid()
      ensures Model() == Fleet(New(names, maxConcurrent), Plant(map n | n in names :: Empty, ports.Model(), []))
    {
      state := new Machine.AppState.WithMaxConcurrent(names, maxConcurrent);
      this.ports := ports;
      runtimes := map n | n in names :: Empty;
      effects := [];
    }

    /** Feed one observed event in and carry out every action it asks for. */
    method Drive(name: Name, event: Event, boots: Boots)
      requires state.Valid()
      modifies this, state, ports
      ensures state.Valid() && Model() == Driven(old(Model()), name, event, boots)
    {
      hide Executed, Step;
      var actions := state.Step(name, event);
      var k := 0;
      ghost var p := Machinery();
      while k < |actions|
        invariant 0 <= k <= |actions|
        invariant state.Valid() && state.Model() == Step(old(state.Model()), name, event).0
        invariant Machinery() == ExecutedAll(p, actions[..k], boots)
      {
        assert actions[..k + 1][..k] == actions[..k];
        Execute(actions[k], boots);
        k := k + 1;
      }
      assert actions[..k] == actions;
    }

    method Execute(action: Action, boots: Boots)
      modifies this, ports
      ensures Machinery() == Executed(old(Machinery()), action, boots)
    {
      match action
      case StartBuild(name, sha, g) =>
        if name in runtimes { effects := effects + [BuildStarted(name, sha, g)]; }
      case SpawnAndProbe(name, sha, g) => SpawnAndProbe(name, sha, g, boots);
      case Respawn(name, sha, g) => SpawnAndProbe(name, sha, g, boots);
      case Promote(name, _, g) => Promote(name, g);
      case StartDrain(name, g) => StopChild(name, g, true);
      case KillStandby(name, g) => StopChild(name, g, false);
      case RecordRed(_, _, _) =>
    }

    method SpawnAndProbe(name: Name, sha: Sha, g: Gen, boots: Boots)
      modifies this, ports
      ensures Machinery() == SpawnedAndProbed(old(Machinery()), name, sha, g, boots)
    {
      if name !in runtimes { return; }
      var port := ports.Alloc();
      if port.None? {
        effects := effects + [Posted(name, NoPort(g))];
        return;
      }
      match boots(g)
      case Ok(token) =>
        var rt := runtimes[name];
        runtimes := runtimes[name := rt.(children := rt.children[g := Child(port.value, token, sha)])];
        effects := effects + [ChildSpawned(name, sha, g, port.value, token)];
        effects := effects + [ProbeStarted(name, g, port.value)];
      case Err(e) =>
        ports.Release(port.value);
        effects := effects + [Posted(name, SpawnFailed(g, e))];
    }

    /** The single promote site. */
    method Promote(name: Name, g: Gen)
      modifies this
      ensures Machinery() == Promoted(old(Machinery()), name, g)
    {
      if name !in runtimes { return; }
      var rt := runtimes[name];
      if g in rt.children {
        runtimes := runtimes[name := rt.(slot := Some((rt.children[g].port, g)))];
      }
    }

    method StopChild(name: Name, g: Gen, drain: bool)
      modifies this, ports
      ensures Machinery() == StoppedChild(old(Machinery()), name, g, drain)
    {
      if name !in runtimes || g !in runtimes[name].children { return; }
      var rt := runtimes[name];
      var child := rt.children[g];
      if !drain {
        runtimes := runtimes[name := rt.(children := rt.children - {g})];
      }
      effects := effects + [ChildStopped(name, g, child.token, drain)];
      if !drain {
        ports.Release(child.port);
      }
    }

    method OnDrainReclaimed(name: Name, g: Gen)
      modifies this, ports
      ensures Machinery() == Reclaimed(old(Machinery()), name, g)
    {
      if name !in runtimes || g !in runtimes[name].children { return; }
      var rt := runtimes[name];
      runtimes := runtimes[name := rt.(children := rt.children - {g})];
      ports.Release(rt.children[g].port);
    }

    method AddInstance(name: Name)
      requires state.Valid()
      modifies this, state
      ensures state.Valid() && Model() == Joined(old(Model()), name)
    {
      state.AddInstance(name);
      runtimes := runtimes[name := Empty];
    }

    /** Stop every child of an instance, oldest first, without drain. */
    method StopAll(name: Name)
      modifies this, ports
      ensures Machinery() == AllStopped(old(Machinery()), name)
    {
      hide AllStopped, StoppedChild;
      ghost var p := Machinery();
      var rest := if name in runtimes then runtimes[name].children.Keys else {};
      while rest != {}
        invariant ChildrenOf(Machinery(), name) == rest
        invariant AllStopped(Machinery(), name) == AllStopped(p, name)
        decreases |rest|
      {
        HasFirst(rest);
        var g: Gen :| g in rest && IsFirst(rest, g);
        StopFirst(Machinery(), name, g);
        StopChild(name, g, false);
        rest := rest - {g};
      }
      StopNone(Machinery(), name);
    }

    method RemoveInstance(name: Name)
      requires state.Valid()
      modifies this, state, ports
      ensures state.Valid() && Model() == Left(old(Model()), name)
    {
      hide AllStopped, Removed;
      StopAll(name);
      runtimes := runtimes - {name};
      state.RemoveInstance(name);
    }
  }
}
