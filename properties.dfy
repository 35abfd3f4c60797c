/**
 * What the upgrade engine promises, stated about the functions that
 * describe it: dispatch skips handled modules, automatic upgrade is
 * all-or-nothing, the remap tables copy, rename, drop or splice each item,
 * the op list has a fixed order in one action, rebuilt connections attach
 * to the new module with fresh ids, and the new module keeps the old
 * module's place in the layout.
 */
module Properties {
  import opened Wrappers
  import opened Pipelines
  import opened Actions
  import opened Registry
  import opened Packages
  import opened IdScopes
  import opened Remap
  import opened Validation
  import opened Reconnection
  import opened Replacement
  import opened Upgrade

  /** A request for a module that is no longer in the pipeline yields no
      actions, draws no ids and consults neither the package nor the
      registry. */
  lemma DispatchSkipsMissingModule(pm: PackageManager, reg: Registry, p: Pipeline, moduleId: nat,
                                   deleteOps: seq<Op>, create: (string, seq<string>) -> ModuleFunction,
                                   c0: Counters)
    requires WellFormed(p) && moduleId !in p.modules
    ensures DispatchSpec(pm, reg, p, moduleId, deleteOps, create, c0) == Upgraded(Success([]), c0, reg)
  {
  }

  /** A module still in the pipeline goes to its package: a missing package
      raises, a package's own upgrade handler answers for the module, and
      otherwise automatic upgrade runs. */
  lemma DispatchRoutes(pm: PackageManager, reg: Registry, p: Pipeline, moduleId: nat,
                       deleteOps: seq<Op>, create: (string, seq<string>) -> ModuleFunction, c0: Counters)
    requires WellFormed(p) && moduleId in p.modules
    ensures var pkgId := p.modules[moduleId].package;
            var r := DispatchSpec(pm, reg, p, moduleId, deleteOps, create, c0);
            && (pkgId !in pm ==> r == Upgraded(Failure(MissingPackage(pkgId)), c0, reg))
            && (pkgId in pm && pm[pkgId].upgradeHandler.Some? ==>
                  r == Upgraded(pm[pkgId].upgradeHandler.value(moduleId, p), c0, reg))
            && (pkgId in pm && pm[pkgId].upgradeHandler.None? ==>
                  r == AutomaticUpgradeSpec(pm, reg, p, moduleId, deleteOps, create, c0))
  {
  }

  /** A module that is not registered, of a package that cannot handle
      missing modules or whose handler answers false, cannot be upgraded
      automatically; no ids are drawn. */
  lemma AutomaticUpgradeNeedsDescriptor(pm: PackageManager, reg: Registry, p: Pipeline, moduleId: nat,
                                        deleteOps: seq<Op>, create: (string, seq<string>) -> ModuleFunction,
                                        c0: Counters)
    requires WellFormed(p) && moduleId in p.modules
    requires p.modules[moduleId].package in pm && KeyOf(p.modules[moduleId]) !in reg
    requires var pkg := pm[p.modules[moduleId].package];
             !pkg.canHandleMissingModules || !pkg.handleMissingModule(moduleId, p, reg).0
    ensures var m := p.modules[moduleId];
            var r := AutomaticUpgradeSpec(pm, reg, p, moduleId, deleteOps, create, c0);
            r.result == Failure(UpgradeWorkflowError(CouldNotUpgrade(m.name, m.package))) && r.counters == c0
  {
  }

  /** Automatic upgrade returns actions only when the package is installed,
      the descriptor resolves, and the source port of every outgoing
      connection, the destination port of every incoming connection and
      every function pass check_port_spec against it. */
  lemma AutomaticUpgradeChecksEveryPort(pm: PackageManager, reg: Registry, p: Pipeline, moduleId: nat,
                                        deleteOps: seq<Op>, create: (string, seq<string>) -> ModuleFunction,
                                        c0: Counters)
    requires WellFormed(p) && moduleId in p.modules
    requires AutomaticUpgradeSpec(pm, reg, p, moduleId, deleteOps, create, c0).result.Success?
    ensures var m := p.modules[moduleId];
            && m.package in pm
            && var res := ResolveDescriptor(pm[m.package], reg, p, moduleId, m);
               && res.result.Success?
               && (forall conn :: conn in OutgoingOf(p, moduleId) ==>
                     Check(m, res.result.value, UseOfPort(conn.source)).Pass?)
               && (forall conn :: conn in IncomingOf(p, moduleId) ==>
                     Check(m, res.result.value, UseOfPort(conn.destination)).Pass?)
               && (forall f :: f in m.functions ==> Check(m, res.result.value, UseOfFunction(f)).Pass?)
  {
    var m := p.modules[moduleId];
    var d := ResolveDescriptor(pm[m.package], reg, p, moduleId, m).result.value;
    assert FirstFailure(m, d, PortUses(p, moduleId, m)).Pass?;
    EveryUsePassed(p, moduleId, m, d);
  }

  /** A single failing check stops automatic upgrade with the first failing
      check's error, before any id is drawn. */
  lemma AutomaticUpgradeStopsAtFirstFailure(pm: PackageManager, reg: Registry, p: Pipeline, moduleId: nat,
                                            deleteOps: seq<Op>, create: (string, seq<string>) -> ModuleFunction,
                                            c0: Counters, k: nat)
    requires WellFormed(p) && moduleId in p.modules
    requires var m := p.modules[moduleId];
             && m.package in pm
             && ResolveDescriptor(pm[m.package], reg, p, moduleId, m).result.Success?
             && k < |PortUses(p, moduleId, m)|
             && Check(m, ResolveDescriptor(pm[m.package], reg, p, moduleId, m).result.value,
                      PortUses(p, moduleId, m)[k]).Fail?
             && forall j :: 0 <= j < k ==>
                  Check(m, ResolveDescriptor(pm[m.package], reg, p, moduleId, m).result.value,
                        PortUses(p, moduleId, m)[j]).Pass?
    ensures var m := p.modules[moduleId];
            var res := ResolveDescriptor(pm[m.package], reg, p, moduleId, m);
            var r := AutomaticUpgradeSpec(pm, reg, p, moduleId, deleteOps, create, c0);
            && r.result == Failure(Check(m, res.result.value, PortUses(p, moduleId, m)[k]).error)
            && r.counters == c0
  {
    var m := p.modules[moduleId];
    var res := ResolveDescriptor(pm[m.package], reg, p, moduleId, m);
    FirstFailureAt(m, res.result.value, PortUses(p, moduleId, m), k);
  }

  /** With no remap tables every outgoing and every incoming connection is
      kept, in edge order, under its own port name. */
  lemma NoRemapsKeepConnections(p: Pipeline, oldModule: Module)
    ensures var out := OutgoingOf(p, oldModule.id);
            && |KeptOutgoing(p, oldModule, NoRemaps())| == |out|
            && forall j :: 0 <= j < |out| ==>
                 KeptOutgoing(p, oldModule, NoRemaps())[j] == (out[j].source.name, out[j])
    ensures var inc := IncomingOf(p, oldModule.id);
            && |KeptIncoming(p, oldModule, NoRemaps())| == |inc|
            && forall j :: 0 <= j < |inc| ==>
                 KeptIncoming(p, oldModule, NoRemaps())[j] == (inc[j].destination.name, inc[j])
  {
    KeptEvery(OutgoingOf(p, oldModule.id), OutgoingDecider(NoRemaps().sourcePorts));
    KeptEvery(IncomingOf(p, oldModule.id), IncomingDecider(NoRemaps().destinationPorts));
  }

  /** A port use that passed check_port_spec against the module's registered
      descriptor is found by get_port_spec on the module replace_module
      builds from that descriptor with no remaps: on the descriptor itself,
      or, when only the old module declared it, on the copy of the old
      module's spec. */
  lemma CheckedPortResolves(m: Module, reg: Registry, at: Location, id: nat,
                            create: (string, seq<string>) -> ModuleFunction, c: Counters, u: PortUse)
    requires KeyOf(m) in reg && Consistent(reg) && CopiesPortSpecs(m)
    requires Check(m, reg[KeyOf(m)], u).Pass?
    ensures GetPortSpec(Rebuilt(m, ModuleFromDescriptor(reg[KeyOf(m)], at, id), NoRemaps(), create, c),
                        reg, u.name, u.ptype).Success?
  {
    var d := reg[KeyOf(m)];
    var nm := Rebuilt(m, ModuleFromDescriptor(d, at, id), NoRemaps(), create, c);
    if Declares(d.portSpecs, u.name, u.ptype) {
      assert GetDescriptorByName(reg, nm.package, nm.name, nm.namespace) == Success(d);
      assert GetPortSpecFromDescriptor(d, u.name, u.ptype).Success?;
    } else {
      OwnSpecCopied(m, ModuleFromDescriptor(d, at, id), create, c, u.name, u.ptype);
      GetPortSpecCases(nm, reg, u.name, u.ptype);
    }
  }

  /** With no remaps, a port the old module declares itself is declared by
      the new module too, through the copy of its spec. */
  lemma OwnSpecCopied(m: Module, newModule: Module, create: (string, seq<string>) -> ModuleFunction,
                      c: Counters, name: string, ptype: PortType)
    requires CopiesPortSpecs(m) && newModule.portSpecs == [] && Declares(m.portSpecs, name, ptype)
    ensures HasPortSpecWithName(Rebuilt(m, newModule, NoRemaps(), create, c), name, ptype)
  {
    var s :| s in m.portSpecs && s.name == name && s.ptype == ptype;
    assert PortSpecDecider(NoRemaps())(s) == Copy(name);
    var copies := NewPortSpecs(KeptPortSpecs(m, NoRemaps()), c.portSpecs);
    PortSpecsCopied(m, NoRemaps(), c.portSpecs, name, ptype, s.sigstring);
    var sid :| PortSpec(sid, name, ptype, s.sigstring) in copies;
    assert Rebuilt(m, newModule, NoRemaps(), create, c).portSpecs == copies;
  }

  /** Every spec the old module declares itself under the use's name and
      direction carries the use's signature. */
  ghost predicate OwnSpecsAgree(m: Module, u: PortUse)
  {
    forall s :: s in m.portSpecs && s.name == u.name && s.ptype == u.ptype ==> s.sigstring == u.sigstring
  }

  /** A checked port keeps its signature on the module replace_module builds,
      provided the old module's own specs of that name and direction agree
      with it: get_port_spec finds either the copy of such an own spec or
      the descriptor's spec, whose signature the check compared. */
  lemma CheckedPortKeepsSignature(m: Module, reg: Registry, at: Location, id: nat,
                                  create: (string, seq<string>) -> ModuleFunction, c: Counters, u: PortUse)
    requires KeyOf(m) in reg && Consistent(reg) && CopiesPortSpecs(m)
    requires Check(m, reg[KeyOf(m)], u).Pass? && OwnSpecsAgree(m, u)
    ensures var nm := Rebuilt(m, ModuleFromDescriptor(reg[KeyOf(m)], at, id), NoRemaps(), create, c);
            && GetPortSpec(nm, reg, u.name, u.ptype).Success?
            && GetPortSpec(nm, reg, u.name, u.ptype).value.sigstring == u.sigstring
  {
    var d := reg[KeyOf(m)];
    var nm := Rebuilt(m, ModuleFromDescriptor(d, at, id), NoRemaps(), create, c);
    CheckedPortResolves(m, reg, at, id, create, c, u);
    match LookupSpec(nm.portSpecs, u.name, u.ptype)
    case Some(found) =>
      PortSpecsCopied(m, NoRemaps(), c.portSpecs, u.name, u.ptype, found.sigstring);
      assert PortSpec(found.id, u.name, u.ptype, found.sigstring) in
               NewPortSpecs(KeptPortSpecs(m, NoRemaps()), c.portSpecs);
      var s :| s in m.portSpecs && s.ptype == u.ptype && s.sigstring == found.sigstring &&
               PortSpecDecider(NoRemaps())(s) == Copy(u.name);
      assert s.name == u.name;
    case None =>
      if !Declares(d.portSpecs, u.name, u.ptype) {
        OwnSpecCopied(m, ModuleFromDescriptor(d, at, id), create, c, u.name, u.ptype);
        assert false;
      }
      assert GetDescriptorByName(reg, nm.package, nm.name, nm.namespace) == Success(d);
  }

  /** Without that proviso the signature can change: an old module whose own
      spec x has signature "B", while its descriptor declares x with "A",
      passes the check for a use of x with "A", yet the rebuilt module's
      copy of its own spec is what get_port_spec finds, so the rebuilt port
      carries "B". */
  lemma OwnSpecShadowsDescriptor()
    ensures var own := PortSpec(0, "x", Output, "B");
            var m := Module(7, "P", "N", "", Location(0.0, 0.0), Plain, [], [own], [], NoSubpipeline);
            var d := Descriptor("P", "N", "", [PortSpec(1, "x", Output, "A")]);
            var reg: Registry := map[ModuleKey("P", "N", "") := d];
            var u := PortUse("x", Output, "A");
            var nm := Rebuilt(m, ModuleFromDescriptor(d, m.location, 8), NoRemaps(),
                              (n: string, v: seq<string>) => ModuleFunction(n, "", v), Counters(0, 0, 0, 0, 0));
            && Consistent(reg) && CopiesPortSpecs(m) && Check(m, d, u).Pass?
            && GetPortSpec(nm, reg, "x", Output) == Success(PortSpec(0, "x", Output, "B"))
  {
    var own := PortSpec(0, "x", Output, "B");
    var m := Module(7, "P", "N", "", Location(0.0, 0.0), Plain, [], [own], [], NoSubpipeline);
    var d := Descriptor("P", "N", "", [PortSpec(1, "x", Output, "A")]);
    var reg: Registry := map[ModuleKey("P", "N", "") := d];
    var nm := Rebuilt(m, ModuleFromDescriptor(d, m.location, 8), NoRemaps(),
                      (n: string, v: seq<string>) => ModuleFunction(n, "", v), Counters(0, 0, 0, 0, 0));
    assert Consistent(reg);
    assert Check(m, d, PortUse("x", Output, "A")).Pass?;
    assert SpecsToCopy(m) == [own];
    assert [own][..0] == [];
    assert PortSpecDecider(NoRemaps())(own) == Copy("x");
    assert Kept([own], PortSpecDecider(NoRemaps())) == [("x", own)];
    assert NewPortSpecs([("x", own)], 0) == [own];
    assert KeptPortSpecs(m, NoRemaps()) == [("x", own)];
    assert nm.portSpecs == [own];
  }

  /** Automatic upgrade succeeds when the module's package is installed,
      its descriptor is registered, and every port and function it uses
      passes check_port_spec: the result is replace_module with the
      registered descriptor and no remaps, and that replacement succeeds.
      The old module must be neither a group nor an abstraction: their port
      specs are not copied, so a port only the old module declared would
      not be found on the new one. */
  lemma AutomaticUpgradeSucceeds(pm: PackageManager, reg: Registry, p: Pipeline, moduleId: nat,
                                 deleteOps: seq<Op>, create: (string, seq<string>) -> ModuleFunction,
                                 c0: Counters)
    requires WellFormed(p) && moduleId in p.modules
    requires var m := p.modules[moduleId];
             && m.package in pm && KeyOf(m) in reg && Consistent(reg) && CopiesPortSpecs(m)
             && FirstFailure(m, reg[KeyOf(m)], PortUses(p, moduleId, m)).Pass?
    ensures var m := p.modules[moduleId];
            var done := ReplaceModuleSpec(p, reg, moduleId, reg[KeyOf(m)], NoRemaps(), deleteOps, create, c0);
            && AutomaticUpgradeSpec(pm, reg, p, moduleId, deleteOps, create, c0) ==
                 Upgraded(done.result, done.counters, reg)
            && done.result.Success?
  {
    var m := p.modules[moduleId];
    var d := reg[KeyOf(m)];
    var c := c0.Bump(ModuleId);
    var nm := Rebuilt(m, ModuleFromDescriptor(d, m.location, c0.modules), NoRemaps(), create, c);
    assert m.id == moduleId;
    EveryUsePassed(p, moduleId, m, d);
    NoRemapsKeepConnections(p, m);
    var out := OutgoingOf(p, moduleId);
    var inc := IncomingOf(p, moduleId);
    var ko := KeptOutgoing(p, m, NoRemaps());
    var ki := KeptIncoming(p, m, NoRemaps());
    forall j | 0 <= j < |ko| ensures GetPortSpec(nm, reg, ko[j].0, Output).Success? {
      assert out[j] in out;
      CheckedPortResolves(m, reg, m.location, c0.modules, create, c, UseOfPort(out[j].source));
    }
    forall j | 0 <= j < |ki| ensures GetPortSpec(nm, reg, ki[j].0, Input).Success? {
      assert inc[j] in inc;
      CheckedPortResolves(m, reg, m.location, c0.modules, create, c, UseOfPort(inc[j].destination));
    }
    ReplaceSucceedsIff(p, reg, m, ModuleFromDescriptor(d, m.location, c0.modules), NoRemaps(), deleteOps,
                       create, c);
  }

  /** Under the same conditions every connection of the old module is
      re-pointed to the new one: after the add of the new module, the
      single action rebuilds the j-th outgoing connection from the new
      module's output port of the same name, and the j-th incoming one to
      its input port of the same name, with the j-th ids of each loop. */
  lemma AutomaticUpgradeReconnectsAll(pm: PackageManager, reg: Registry, p: Pipeline, moduleId: nat,
                                      deleteOps: seq<Op>, create: (string, seq<string>) -> ModuleFunction,
                                      c0: Counters)
    requires WellFormed(p) && moduleId in p.modules
    requires var m := p.modules[moduleId];
             && m.package in pm && KeyOf(m) in reg && Consistent(reg) && CopiesPortSpecs(m)
             && FirstFailure(m, reg[KeyOf(m)], PortUses(p, moduleId, m)).Pass?
    ensures var m := p.modules[moduleId];
            var r := AutomaticUpgradeSpec(pm, reg, p, moduleId, deleteOps, create, c0);
            var c := c0.Bump(ModuleId);
            var nm := Rebuilt(m, ModuleFromDescriptor(reg[KeyOf(m)], m.location, c0.modules), NoRemaps(),
                              create, c);
            var before := OpsBeforeAdd(deleteOps, m, NoRemaps());
            var c1 := AfterCopies(m, NoRemaps(), c);
            var out := OutgoingOf(p, moduleId);
            var inc := IncomingOf(p, moduleId);
            var c2 := AfterConnections(c1, |out|);
            && r.result.Success? && |r.result.value| == 1 && |before| < |r.result.value[0].ops|
            && var tail := r.result.value[0].ops[|before| + 1..];
               && (forall j :: 0 <= j < |out| ==>
                     HasRebuild(tail, nm, PortsOf(nm, reg, Output), (out[j].source.name, out[j]), Output, c1, j))
               && (forall j :: 0 <= j < |inc| ==>
                     HasRebuild(tail, nm, PortsOf(nm, reg, Input), (inc[j].destination.name, inc[j]), Input, c2, j))
  {
    var m := p.modules[moduleId];
    var c := c0.Bump(ModuleId);
    var newModule := ModuleFromDescriptor(reg[KeyOf(m)], m.location, c0.modules);
    assert m.id == moduleId;
    AutomaticUpgradeSucceeds(pm, reg, p, moduleId, deleteOps, create, c0);
    NoRemapsKeepConnections(p, m);
    ReplaceReconnectsAll(p, reg, m, newModule, NoRemaps(), deleteOps, create, c);
  }

  /** When, moreover, the old module's own specs agree with the signatures
      its connections use, every rebuilt port keeps the signature of the
      port it replaces: the rebuild of the j-th outgoing connection has a
      source port signed as out[j]'s source, and that of the j-th incoming
      one a destination port signed as inc[j]'s destination. */
  lemma AutomaticUpgradeKeepsSignatures(pm: PackageManager, reg: Registry, p: Pipeline, moduleId: nat,
                                        deleteOps: seq<Op>, create: (string, seq<string>) -> ModuleFunction,
                                        c0: Counters)
    requires WellFormed(p) && moduleId in p.modules
    requires var m := p.modules[moduleId];
             && m.package in pm && KeyOf(m) in reg && Consistent(reg) && CopiesPortSpecs(m)
             && FirstFailure(m, reg[KeyOf(m)], PortUses(p, moduleId, m)).Pass?
    requires var m := p.modules[moduleId];
             && (forall conn :: conn in OutgoingOf(p, moduleId) ==> OwnSpecsAgree(m, UseOfPort(conn.source)))
             && (forall conn :: conn in IncomingOf(p, moduleId) ==> OwnSpecsAgree(m, UseOfPort(conn.destination)))
    ensures var m := p.modules[moduleId];
            var r := AutomaticUpgradeSpec(pm, reg, p, moduleId, deleteOps, create, c0);
            var c := c0.Bump(ModuleId);
            var nm := Rebuilt(m, ModuleFromDescriptor(reg[KeyOf(m)], m.location, c0.modules), NoRemaps(),
                              create, c);
            var before := OpsBeforeAdd(deleteOps, m, NoRemaps());
            var c1 := AfterCopies(m, NoRemaps(), c);
            var out := OutgoingOf(p, moduleId);
            var inc := IncomingOf(p, moduleId);
            var c2 := AfterConnections(c1, |out|);
            && r.result.Success? && |r.result.value| == 1 && |before| < |r.result.value[0].ops|
            && var tail := r.result.value[0].ops[|before| + 1..];
               && (forall j :: 0 <= j < |out| ==>
                     HasSignedRebuild(tail, nm, PortsOf(nm, reg, Output), (out[j].source.name, out[j]), Output, c1, j))
               && (forall j :: 0 <= j < |inc| ==>
                     HasSignedRebuild(tail, nm, PortsOf(nm, reg, Input), (inc[j].destination.name, inc[j]), Input, c2, j))
  {
    var m := p.modules[moduleId];
    var c := c0.Bump(ModuleId);
    var nm := Rebuilt(m, ModuleFromDescriptor(reg[KeyOf(m)], m.location, c0.modules), NoRemaps(), create, c);
    var before := OpsBeforeAdd(deleteOps, m, NoRemaps());
    var c1 := AfterCopies(m, NoRemaps(), c);
    var out := OutgoingOf(p, moduleId);
    var inc := IncomingOf(p, moduleId);
    var c2 := AfterConnections(c1, |out|);
    assert m.id == moduleId;
    AutomaticUpgradeReconnectsAll(pm, reg, p, moduleId, deleteOps, create, c0);
    var tail := AutomaticUpgradeSpec(pm, reg, p, moduleId, deleteOps, create, c0).result.value[0].ops[|before| + 1..];
    CheckedConnectionsKeepSignatures(p, moduleId, reg, create, c0);
    SignedRebuilds(tail, nm, reg, out, inc, c1, c2);
  }

  /** Rebuilds of out and inc whose near ports look up to their own
      signatures keep those signatures. */
  lemma SignedRebuilds(tail: seq<Op>, nm: Module, reg: Registry, out: seq<Connection>, inc: seq<Connection>,
                       c1: Counters, c2: Counters)
    requires forall j :: 0 <= j < |out| ==>
               HasRebuild(tail, nm, PortsOf(nm, reg, Output), (out[j].source.name, out[j]), Output, c1, j)
    requires forall j :: 0 <= j < |inc| ==>
               HasRebuild(tail, nm, PortsOf(nm, reg, Input), (inc[j].destination.name, inc[j]), Input, c2, j)
    requires forall j :: 0 <= j < |out| ==>
               && PortsOf(nm, reg, Output)(out[j].source.name).Success?
               && PortsOf(nm, reg, Output)(out[j].source.name).value.sigstring == out[j].source.sigstring
    requires forall j :: 0 <= j < |inc| ==>
               && PortsOf(nm, reg, Input)(inc[j].destination.name).Success?
               && PortsOf(nm, reg, Input)(inc[j].destination.name).value.sigstring == inc[j].destination.sigstring
    ensures forall j :: 0 <= j < |out| ==>
              HasSignedRebuild(tail, nm, PortsOf(nm, reg, Output), (out[j].source.name, out[j]), Output, c1, j)
    ensures forall j :: 0 <= j < |inc| ==>
              HasSignedRebuild(tail, nm, PortsOf(nm, reg, Input), (inc[j].destination.name, inc[j]), Input, c2, j)
  {
    RebuildsKeepSignatures(tail, nm, PortsOf(nm, reg, Output), out, Output, c1);
    RebuildsKeepSignatures(tail, nm, PortsOf(nm, reg, Input), inc, Input, c2);
  }

  /** Each connection port that passed the check, and on which the old
      module's own specs agree, is found with its signature on the module
      automatic upgrade builds. */
  lemma CheckedConnectionsKeepSignatures(p: Pipeline, moduleId: nat, reg: Registry,
                                         create: (string, seq<string>) -> ModuleFunction, c0: Counters)
    requires WellFormed(p) && moduleId in p.modules
    requires var m := p.modules[moduleId];
             && KeyOf(m) in reg && Consistent(reg) && CopiesPortSpecs(m)
             && FirstFailure(m, reg[KeyOf(m)], PortUses(p, moduleId, m)).Pass?
             && (forall conn :: conn in OutgoingOf(p, moduleId) ==> OwnSpecsAgree(m, UseOfPort(conn.source)))
             && (forall conn :: conn in IncomingOf(p, moduleId) ==> OwnSpecsAgree(m, UseOfPort(conn.destination)))
    ensures var m := p.modules[moduleId];
            var nm := Rebuilt(m, ModuleFromDescriptor(reg[KeyOf(m)], m.location, c0.modules), NoRemaps(),
                              create, c0.Bump(ModuleId));
            var out := OutgoingOf(p, moduleId);
            var inc := IncomingOf(p, moduleId);
            && (forall j :: 0 <= j < |out| ==>
                  && PortsOf(nm, reg, Output)(out[j].source.name).Success?
                  && PortsOf(nm, reg, Output)(out[j].source.name).value.sigstring == out[j].source.sigstring)
            && (forall j :: 0 <= j < |inc| ==>
                  && PortsOf(nm, reg, Input)(inc[j].destination.name).Success?
                  && PortsOf(nm, reg, Input)(inc[j].destination.name).value.sigstring == inc[j].destination.sigstring)
  {
    var m := p.modules[moduleId];
    var c := c0.Bump(ModuleId);
    var out := OutgoingOf(p, moduleId);
    var inc := IncomingOf(p, moduleId);
    EveryUsePassed(p, moduleId, m, reg[KeyOf(m)]);
    forall j | 0 <= j < |out|
      ensures var nm := Rebuilt(m, ModuleFromDescriptor(reg[KeyOf(m)], m.location, c0.modules), NoRemaps(), create, c);
              PortsOf(nm, reg, Output)(out[j].source.name).Success? &&
              PortsOf(nm, reg, Output)(out[j].source.name).value.sigstring == out[j].source.sigstring
    {
      assert out[j] in out;
      CheckedPortKeepsSignature(m, reg, m.location, c0.modules, create, c, UseOfPort(out[j].source));
    }
    forall j | 0 <= j < |inc|
      ensures var nm := Rebuilt(m, ModuleFromDescriptor(reg[KeyOf(m)], m.location, c0.modules), NoRemaps(), create, c);
              PortsOf(nm, reg, Input)(inc[j].destination.name).Success? &&
              PortsOf(nm, reg, Input)(inc[j].destination.name).value.sigstring == inc[j].destination.sigstring
    {
      assert inc[j] in inc;
      CheckedPortKeepsSignature(m, reg, m.location, c0.modules, create, c, UseOfPort(inc[j].destination));
    }
  }

  /** replace_generic succeeds exactly when the new module has an output
      port for the (renamed) source port of every kept outgoing connection
      and an input port for the (renamed) destination port of every kept
      incoming connection. */
  lemma ReplaceSucceedsIff(p: Pipeline, reg: Registry, oldModule: Module, newModule: Module,
                           remaps: Remaps, deleteOps: seq<Op>,
                           create: (string, seq<string>) -> ModuleFunction, c0: Counters)
    requires WellFormed(p)
    ensures var m := Rebuilt(oldModule, newModule, remaps, create, c0);
            var ko := KeptOutgoing(p, oldModule, remaps);
            var ki := KeptIncoming(p, oldModule, remaps);
            ReplaceSpec(p, reg, oldModule, newModule, remaps, deleteOps, create, c0).result.Success? <==>
              (forall j :: 0 <= j < |ko| ==> GetPortSpec(m, reg, ko[j].0, Output).Success?) &&
              (forall j :: 0 <= j < |ki| ==> GetPortSpec(m, reg, ki[j].0, Input).Success?)
  {
    var m := Rebuilt(oldModule, newModule, remaps, create, c0);
    var c1 := AfterCopies(oldModule, remaps, c0);
    var out := OutgoingRebuild(p, reg, m, oldModule, remaps, c1);
    ReplaceSpecSucceeds(p, reg, oldModule, newModule, remaps, deleteOps, create, c0);
    OutgoingSucceeds(p, reg, m, oldModule, remaps, c1);
    IncomingSucceeds(p, reg, m, oldModule, remaps, out.counters);
  }

  /** replace_generic succeeds exactly when both connection loops do. */
  lemma ReplaceSpecSucceeds(p: Pipeline, reg: Registry, oldModule: Module, newModule: Module,
                            remaps: Remaps, deleteOps: seq<Op>,
                            create: (string, seq<string>) -> ModuleFunction, c0: Counters)
    requires WellFormed(p)
    ensures var m := Rebuilt(oldModule, newModule, remaps, create, c0);
            var out := OutgoingRebuild(p, reg, m, oldModule, remaps, AfterCopies(oldModule, remaps, c0));
            ReplaceSpec(p, reg, oldModule, newModule, remaps, deleteOps, create, c0).result.Success? <==>
              out.result.Success? && IncomingRebuild(p, reg, m, oldModule, remaps, out.counters).result.Success?
  {
  }

  /** The outgoing loop succeeds exactly when m has an output port for every
      kept outgoing connection. */
  lemma OutgoingSucceeds(p: Pipeline, reg: Registry, m: Module, oldModule: Module, remaps: Remaps,
                         c: Counters)
    requires WellFormed(p)
    ensures var ko := KeptOutgoing(p, oldModule, remaps);
            OutgoingRebuild(p, reg, m, oldModule, remaps, c).result.Success? <==>
              forall j :: 0 <= j < |ko| ==> GetPortSpec(m, reg, ko[j].0, Output).Success?
  {
    var ko := KeptOutgoing(p, oldModule, remaps);
    RebuildSucceeds(p, m, PortsOf(m, reg, Output), OutgoingOf(p, oldModule.id),
                    OutgoingDecider(remaps.sourcePorts), Output, c);
    forall j | 0 <= j < |ko|
      ensures PortsOf(m, reg, Output)(ko[j].0) == GetPortSpec(m, reg, ko[j].0, Output)
    {
    }
  }

  /** The incoming loop succeeds exactly when m has an input port for every
      kept incoming connection. */
  lemma IncomingSucceeds(p: Pipeline, reg: Registry, m: Module, oldModule: Module, remaps: Remaps,
                         c: Counters)
    requires WellFormed(p)
    ensures var ki := KeptIncoming(p, oldModule, remaps);
            IncomingRebuild(p, reg, m, oldModule, remaps, c).result.Success? <==>
              forall j :: 0 <= j < |ki| ==> GetPortSpec(m, reg, ki[j].0, Input).Success?
  {
    var ki := KeptIncoming(p, oldModule, remaps);
    RebuildSucceeds(p, m, PortsOf(m, reg, Input), IncomingOf(p, oldModule.id),
                    IncomingDecider(remaps.destinationPorts), Input, c);
    forall j | 0 <= j < |ki|
      ensures PortsOf(m, reg, Input)(ki[j].0) == GetPortSpec(m, reg, ki[j].0, Input)
    {
    }
  }

  /** The single action of a successful replace_generic: the deletes, then
      the callback ops of annotations, port specs and functions, then the
      add of the new module with its copies, then the ops of the outgoing
      connection loop, then those of the incoming one. The outgoing loop
      draws its ids after the copies, the incoming loop after the outgoing
      one: two port ids and one connection id per rebuilt connection. */
  lemma ReplaceOpOrder(p: Pipeline, reg: Registry, oldModule: Module, newModule: Module,
                       remaps: Remaps, deleteOps: seq<Op>,
                       create: (string, seq<string>) -> ModuleFunction, c0: Counters)
    requires WellFormed(p)
    requires ReplaceSpec(p, reg, oldModule, newModule, remaps, deleteOps, create, c0).result.Success?
    ensures var r := ReplaceSpec(p, reg, oldModule, newModule, remaps, deleteOps, create, c0);
            var m := Rebuilt(oldModule, newModule, remaps, create, c0);
            var before := OpsBeforeAdd(deleteOps, oldModule, remaps);
            var c1 := AfterCopies(oldModule, remaps, c0);
            var out := OutgoingRebuild(p, reg, m, oldModule, remaps, c1);
            var inc := IncomingRebuild(p, reg, m, oldModule, remaps, out.counters);
            && |r.result.value| == 1
            && var ops := r.result.value[0].ops;
               && |before| < |ops|
               && ops[..|deleteOps|] == deleteOps
               && ops[|deleteOps|..|before|] ==
                    Spliced(oldModule.annotations, AnnotationDecider(remaps.annotations))
                    + Spliced(SpecsToCopy(oldModule), PortSpecDecider(remaps))
                    + Spliced(oldModule.functions, FunctionDecider(remaps.functions))
               && ops[|before|] == Add(ModuleEntity(m))
               && out.result.Success? && inc.result.Success?
               && ops[|before| + 1..] == out.result.value + inc.result.value
               && out.counters == AfterConnections(c1, |KeptOutgoing(p, oldModule, remaps)|)
               && r.counters == AfterConnections(out.counters, |KeptIncoming(p, oldModule, remaps)|)
  {
    var m := Rebuilt(oldModule, newModule, remaps, create, c0);
    var before := OpsBeforeAdd(deleteOps, oldModule, remaps);
    var c1 := AfterCopies(oldModule, remaps, c0);
    var out := OutgoingRebuild(p, reg, m, oldModule, remaps, c1);
    var inc := IncomingRebuild(p, reg, m, oldModule, remaps, out.counters);
    RebuildCounters(p, m, PortsOf(m, reg, Output), OutgoingOf(p, oldModule.id),
                    OutgoingDecider(remaps.sourcePorts), Output, c1);
    RebuildCounters(p, m, PortsOf(m, reg, Input), IncomingOf(p, oldModule.id),
                    IncomingDecider(remaps.destinationPorts), Input, out.counters);
    assert ReplaceSpec(p, reg, oldModule, newModule, remaps, deleteOps, create, c0) ==
             Replacement(Success([Action(before + [Add(ModuleEntity(m))] + out.result.value + inc.result.value)]),
                         inc.counters);
    OpListShape(deleteOps, Spliced(oldModule.annotations, AnnotationDecider(remaps.annotations)),
                Spliced(SpecsToCopy(oldModule), PortSpecDecider(remaps)),
                Spliced(oldModule.functions, FunctionDecider(remaps.functions)),
                Add(ModuleEntity(m)), out.result.value, inc.result.value);
  }

  /** The connection ops of a successful replace_generic, those after the
      add of the new module, in both directions: each is a connection
      callback op or a connection rebuilt on the new module; and every kept
      connection is rebuilt there, the j-th of a loop with that loop's j-th
      ids, and every connection callback op is emitted. */
  lemma ReplaceReconnectsAll(p: Pipeline, reg: Registry, oldModule: Module, newModule: Module,
                             remaps: Remaps, deleteOps: seq<Op>,
                             create: (string, seq<string>) -> ModuleFunction, c0: Counters)
    requires WellFormed(p)
    requires ReplaceSpec(p, reg, oldModule, newModule, remaps, deleteOps, create, c0).result.Success?
    ensures var r := ReplaceSpec(p, reg, oldModule, newModule, remaps, deleteOps, create, c0);
            var m := Rebuilt(oldModule, newModule, remaps, create, c0);
            var before := OpsBeforeAdd(deleteOps, oldModule, remaps);
            var c1 := AfterCopies(oldModule, remaps, c0);
            var c2 := AfterConnections(c1, |KeptOutgoing(p, oldModule, remaps)|);
            var splicedOut := Spliced(OutgoingOf(p, oldModule.id), OutgoingDecider(remaps.sourcePorts));
            var splicedIn := Spliced(IncomingOf(p, oldModule.id), IncomingDecider(remaps.destinationPorts));
            && |r.result.value| == 1 && |before| < |r.result.value[0].ops|
            && var tail := r.result.value[0].ops[|before| + 1..];
               && (forall op :: op in tail ==>
                     || op in splicedOut || op in splicedIn
                     || RebuiltOp(op, m, PortsOf(m, reg, Output), KeptOutgoing(p, oldModule, remaps), Output, c1)
                     || RebuiltOp(op, m, PortsOf(m, reg, Input), KeptIncoming(p, oldModule, remaps), Input, c2))
               && RebuildsEvery(tail, m, PortsOf(m, reg, Output), KeptOutgoing(p, oldModule, remaps), Output, c1)
               && RebuildsEvery(tail, m, PortsOf(m, reg, Input), KeptIncoming(p, oldModule, remaps), Input, c2)
               && (forall op :: op in splicedOut ==> op in tail)
               && (forall op :: op in splicedIn ==> op in tail)
  {
    var m := Rebuilt(oldModule, newModule, remaps, create, c0);
    var c1 := AfterCopies(oldModule, remaps, c0);
    var out := OutgoingRebuild(p, reg, m, oldModule, remaps, c1);
    var inc := IncomingRebuild(p, reg, m, oldModule, remaps, out.counters);
    ReplaceOpOrder(p, reg, oldModule, newModule, remaps, deleteOps, create, c0);
    PortsOfFaithful(m, reg, Output);
    PortsOfFaithful(m, reg, Input);
    RebuiltConnections(p, m, PortsOf(m, reg, Output), OutgoingOf(p, oldModule.id),
                       OutgoingDecider(remaps.sourcePorts), Output, c1);
    RebuiltConnections(p, m, PortsOf(m, reg, Input), IncomingOf(p, oldModule.id),
                       IncomingDecider(remaps.destinationPorts), Input, out.counters);
    RebuildsEveryGrows(out.result.value, inc.result.value, m, PortsOf(m, reg, Output), KeptOutgoing(p, oldModule, remaps), Output, c1);
    RebuildsEveryGrows(inc.result.value, out.result.value, m, PortsOf(m, reg, Input), KeptIncoming(p, oldModule, remaps), Input,
                       out.counters);
  }

  /** Where each part of the op list sits. */
  lemma OpListShape(deleteOps: seq<Op>, a: seq<Op>, b: seq<Op>, c: seq<Op>, add: Op,
                    outgoing: seq<Op>, incoming: seq<Op>)
    ensures var before := deleteOps + a + b + c;
            var ops := before + [add] + outgoing + incoming;
            && |before| < |ops|
            && ops[..|deleteOps|] == deleteOps && ops[|deleteOps|..|before|] == a + b + c
            && ops[|before|] == add && ops[|before| + 1..] == outgoing + incoming
  {
    var before := deleteOps + a + b + c;
    var ops := before + [add] + outgoing + incoming;
    assert ops == deleteOps + (a + b + c) + ([add] + (outgoing + incoming));
  }

  /** replace_module adds a module of the new descriptor, under the next
      module id, at the old module's location. */
  lemma ReplaceModuleKeepsLayout(p: Pipeline, reg: Registry, moduleId: nat, d: Descriptor,
                                 remaps: Remaps, deleteOps: seq<Op>,
                                 create: (string, seq<string>) -> ModuleFunction, c0: Counters)
    requires WellFormed(p) && moduleId in p.modules
    requires ReplaceModuleSpec(p, reg, moduleId, d, remaps, deleteOps, create, c0).result.Success?
    ensures var oldModule := p.modules[moduleId];
            var ops := ReplaceModuleSpec(p, reg, moduleId, d, remaps, deleteOps, create, c0).result.value[0].ops;
            exists m :: Add(ModuleEntity(m)) in ops && m.id == c0.modules && m.location == oldModule.location
                        && m.package == d.identifier && m.name == d.name && m.namespace == d.namespace
  {
    var oldModule := p.modules[moduleId];
    var newModule := ModuleFromDescriptor(d, oldModule.location, c0.modules);
    ReplaceOpOrder(p, reg, oldModule, newModule, remaps, deleteOps, create, c0.Bump(ModuleId));
    var m := Rebuilt(oldModule, newModule, remaps, create, c0.Bump(ModuleId));
    var ops := ReplaceModuleSpec(p, reg, moduleId, d, remaps, deleteOps, create, c0).result.value[0].ops;
    assert ops[|OpsBeforeAdd(deleteOps, oldModule, remaps)|] == Add(ModuleEntity(m));
  }

  /** replace_group adds a Group module holding the new sub-pipeline, under
      the next module id, at the old group's location. */
  lemma ReplaceGroupKeepsLayout(p: Pipeline, reg: Registry, moduleId: nat, sub: Pipeline,
                                deleteOps: seq<Op>, create: (string, seq<string>) -> ModuleFunction,
                                c0: Counters)
    requires WellFormed(p) && moduleId in p.modules
    requires ReplaceGroupSpec(p, reg, moduleId, sub, deleteOps, create, c0).result.Success?
    ensures var oldGroup := p.modules[moduleId];
            var ops := ReplaceGroupSpec(p, reg, moduleId, sub, deleteOps, create, c0).result.value[0].ops;
            exists m :: Add(ModuleEntity(m)) in ops && m.id == c0.modules && m.location == oldGroup.location
                        && m.package == BasicPackage && m.name == "Group" && m.subpipeline == Subpipeline(sub)
  {
    var oldGroup := p.modules[moduleId];
    var newGroup := NewGroup(sub, oldGroup.location, c0.modules);
    ReplaceOpOrder(p, reg, oldGroup, newGroup, NoRemaps(), deleteOps, create, c0.Bump(ModuleId));
    var m := Rebuilt(oldGroup, newGroup, NoRemaps(), create, c0.Bump(ModuleId));
    var ops := ReplaceGroupSpec(p, reg, moduleId, sub, deleteOps, create, c0).result.value[0].ops;
    assert ops[|OpsBeforeAdd(deleteOps, oldGroup, NoRemaps())|] == Add(ModuleEntity(m));
  }

  /** The annotation loop copies an annotation under a key exactly when some
      old annotation with that value is copied under that key: kept under
      its own key when the table does not name it, under the new key when
      it is renamed, and never when it is dropped or transformed. Each copy
      takes an id from the annotation counter. */
  lemma AnnotationsCopied(oldModule: Module, remaps: Remaps, next: nat, key: string, value: string)
    ensures var copies := NewAnnotations(KeptAnnotations(oldModule, remaps), next);
            (exists id :: Annotation(id, key, value) in copies) <==>
              exists a :: a in oldModule.annotations && a.value == value &&
                          AnnotationDecider(remaps.annotations)(a) == Copy(key)
    ensures var kept := KeptAnnotations(oldModule, remaps);
            forall b :: b in NewAnnotations(kept, next) ==> next <= b.id < next + |kept|
  {
    var decide := AnnotationDecider(remaps.annotations);
    var kept := KeptAnnotations(oldModule, remaps);
    var copies := NewAnnotations(kept, next);
    KeptFromItems(oldModule.annotations, decide);
    forall b | b in copies ensures next <= b.id < next + |kept| {
      var j :| 0 <= j < |copies| && copies[j] == b;
      NewAnnotationsAt(kept, next, j);
    }
    if id :| Annotation(id, key, value) in copies {
      var j :| 0 <= j < |copies| && copies[j] == Annotation(id, key, value);
      NewAnnotationsAt(kept, next, j);
      assert kept[j].1 in oldModule.annotations && decide(kept[j].1) == Copy(key);
    }
    if a :| a in oldModule.annotations && a.value == value && decide(a) == Copy(key) {
      KeptMembership(oldModule.annotations, decide, key, a);
      var j :| 0 <= j < |kept| && kept[j] == (key, a);
      NewAnnotationsAt(kept, next, j);
      assert Annotation(next + j, key, value) in copies;
    }
  }

  /** The port-spec loop copies a spec under a name exactly when the old
      module is neither a group nor an abstraction and one of its specs of
      that direction and signature is copied under that name (input specs
      by the destination-port table, output specs by the source-port
      table). Each copy takes an id from the port-spec counter. */
  lemma PortSpecsCopied(oldModule: Module, remaps: Remaps, next: nat, name: string, ptype: PortType,
                        sigstring: string)
    ensures var copies := NewPortSpecs(KeptPortSpecs(oldModule, remaps), next);
            (exists id :: PortSpec(id, name, ptype, sigstring) in copies) <==>
              CopiesPortSpecs(oldModule) &&
              exists s :: s in oldModule.portSpecs && s.ptype == ptype && s.sigstring == sigstring &&
                          PortSpecDecider(remaps)(s) == Copy(name)
    ensures var kept := KeptPortSpecs(oldModule, remaps);
            forall s :: s in NewPortSpecs(kept, next) ==> next <= s.id < next + |kept|
  {
    var decide := PortSpecDecider(remaps);
    var kept := KeptPortSpecs(oldModule, remaps);
    var copies := NewPortSpecs(kept, next);
    var items := SpecsToCopy(oldModule);
    KeptFromItems(items, decide);
    forall s | s in copies ensures next <= s.id < next + |kept| {
      var j :| 0 <= j < |copies| && copies[j] == s;
      NewPortSpecsAt(kept, next, j);
    }
    if id :| PortSpec(id, name, ptype, sigstring) in copies {
      var j :| 0 <= j < |copies| && copies[j] == PortSpec(id, name, ptype, sigstring);
      NewPortSpecsAt(kept, next, j);
      assert kept[j].1 in items && decide(kept[j].1) == Copy(name);
    }
    if CopiesPortSpecs(oldModule) {
      if s :| s in oldModule.portSpecs && s.ptype == ptype && s.sigstring == sigstring && decide(s) == Copy(name) {
        KeptMembership(items, decide, name, s);
        var j :| 0 <= j < |kept| && kept[j] == (name, s);
        NewPortSpecsAt(kept, next, j);
        assert PortSpec(next + j, name, ptype, sigstring) in copies;
      }
    }
  }

  /** A group or abstraction keeps only the new module's own port specs:
      no spec is copied, no callback runs and no port-spec id is drawn. */
  lemma PortSpecsOnlyForPlainModules(oldModule: Module, newModule: Module, remaps: Remaps,
                                     create: (string, seq<string>) -> ModuleFunction, c0: Counters)
    requires !CopiesPortSpecs(oldModule)
    ensures Rebuilt(oldModule, newModule, remaps, create, c0).portSpecs == newModule.portSpecs
    ensures Spliced(SpecsToCopy(oldModule), PortSpecDecider(remaps)) == []
    ensures AfterCopies(oldModule, remaps, c0).portSpecs == c0.portSpecs
  {
  }

  /** The function loop recreates a function exactly when some old function
      is copied under a name: the controller builds it from that name and
      the old parameter values. */
  lemma FunctionsCopied(oldModule: Module, remaps: Remaps,
                        create: (string, seq<string>) -> ModuleFunction, f: ModuleFunction)
    ensures f in NewFunctions(KeptFunctions(oldModule, remaps), create) <==>
              exists g, name :: g in oldModule.functions && FunctionDecider(remaps.functions)(g) == Copy(name) &&
                                f == create(name, g.params)
  {
    var decide := FunctionDecider(remaps.functions);
    var kept := KeptFunctions(oldModule, remaps);
    var copies := NewFunctions(kept, create);
    KeptFromItems(oldModule.functions, decide);
    if f in copies {
      var j :| 0 <= j < |copies| && copies[j] == f;
      NewFunctionsAt(kept, create, j);
      assert kept[j].1 in oldModule.functions && decide(kept[j].1) == Copy(kept[j].0);
    }
    if g, name :| g in oldModule.functions && decide(g) == Copy(name) && f == create(name, g.params) {
      KeptMembership(oldModule.functions, decide, name, g);
      var j :| 0 <= j < |kept| && kept[j] == (name, g);
      NewFunctionsAt(kept, create, j);
      assert copies[j] == f;
    }
  }

  /** The ids of each kind the pipeline already uses. */
  ghost function AnnotationIds(p: Pipeline): set<nat>
  {
    set k, a | k in p.modules && a in p.modules[k].annotations :: a.id
  }

  ghost function PortSpecIds(p: Pipeline): set<nat>
  {
    set k, s | k in p.modules && s in p.modules[k].portSpecs :: s.id
  }

  ghost function PortIds(p: Pipeline): set<nat>
  {
    (set conn | conn in p.connections :: conn.source.id) + (set conn | conn in p.connections :: conn.destination.id)
  }

  ghost function ConnectionIds(p: Pipeline): set<nat>
  {
    set conn | conn in p.connections :: conn.id
  }

  /** The id scope is ahead of the pipeline: every id the pipeline uses is
      below the counter of its kind. */
  ghost predicate IdsBelow(p: Pipeline, c: Counters)
  {
    && (forall id :: id in p.modules ==> id < c.modules)
    && (forall id :: id in AnnotationIds(p) ==> id < c.annotations)
    && (forall id :: id in PortSpecIds(p) ==> id < c.portSpecs)
    && (forall id :: id in PortIds(p) ==> id < c.ports)
    && (forall id :: id in ConnectionIds(p) ==> id < c.connections)
  }

  /** A connection whose id and port ids the pipeline does not use yet. */
  ghost predicate FreshConnection(conn: Connection, p: Pipeline)
  {
    conn.id !in ConnectionIds(p) && conn.source.id !in PortIds(p) && conn.destination.id !in PortIds(p)
  }

  /** Every op of ops that is not a callback op adds a fresh connection. */
  ghost predicate AddsFreshConnections(p: Pipeline, ops: seq<Op>, callbackOps: seq<Op>)
  {
    forall op :: op in ops && op !in callbackOps ==>
      op.Add? && op.what.ConnectionEntity? && FreshConnection(op.what.c, p)
  }

  /** When the id scope is ahead of the pipeline, replace_generic uses no id
      the pipeline already has: the copied annotations and port specs, and
      every connection it rebuilds with its two ports, get new ids. Only the
      remap callbacks' own ops are outside this promise. */
  lemma ReplaceDrawsFreshIds(p: Pipeline, reg: Registry, oldModule: Module, newModule: Module,
                             remaps: Remaps, deleteOps: seq<Op>,
                             create: (string, seq<string>) -> ModuleFunction, c: Counters)
    requires WellFormed(p) && IdsBelow(p, c)
    ensures forall a :: a in NewAnnotations(KeptAnnotations(oldModule, remaps), c.annotations) ==>
              a.id !in AnnotationIds(p)
    ensures forall s :: s in NewPortSpecs(KeptPortSpecs(oldModule, remaps), c.portSpecs) ==>
              s.id !in PortSpecIds(p)
    ensures var r := ReplaceSpec(p, reg, oldModule, newModule, remaps, deleteOps, create, c);
            var before := OpsBeforeAdd(deleteOps, oldModule, remaps);
            var callbackOps := Spliced(OutgoingOf(p, oldModule.id), OutgoingDecider(remaps.sourcePorts))
                               + Spliced(IncomingOf(p, oldModule.id), IncomingDecider(remaps.destinationPorts));
            r.result.Success? ==>
              && |r.result.value| == 1 && |before| < |r.result.value[0].ops|
              && AddsFreshConnections(p, r.result.value[0].ops[|before| + 1..], callbackOps)
  {
    AnnotationsCopied(oldModule, remaps, c.annotations, "", "");
    PortSpecsCopied(oldModule, remaps, c.portSpecs, "", Input, "");
    ConnectionsDrawFreshIds(p, reg, oldModule, newModule, remaps, deleteOps, create, c);
  }

  /** The connection part of ReplaceDrawsFreshIds. */
  lemma ConnectionsDrawFreshIds(p: Pipeline, reg: Registry, oldModule: Module, newModule: Module,
                                remaps: Remaps, deleteOps: seq<Op>,
                                create: (string, seq<string>) -> ModuleFunction, c: Counters)
    requires WellFormed(p) && IdsBelow(p, c)
    ensures var r := ReplaceSpec(p, reg, oldModule, newModule, remaps, deleteOps, create, c);
            var before := OpsBeforeAdd(deleteOps, oldModule, remaps);
            var callbackOps := Spliced(OutgoingOf(p, oldModule.id), OutgoingDecider(remaps.sourcePorts))
                               + Spliced(IncomingOf(p, oldModule.id), IncomingDecider(remaps.destinationPorts));
            r.result.Success? ==>
              && |r.result.value| == 1 && |before| < |r.result.value[0].ops|
              && AddsFreshConnections(p, r.result.value[0].ops[|before| + 1..], callbackOps)
  {
    var r := ReplaceSpec(p, reg, oldModule, newModule, remaps, deleteOps, create, c);
    if r.result.Success? {
      var m := Rebuilt(oldModule, newModule, remaps, create, c);
      var before := OpsBeforeAdd(deleteOps, oldModule, remaps);
      var c1 := AfterCopies(oldModule, remaps, c);
      var splicedOut := Spliced(OutgoingOf(p, oldModule.id), OutgoingDecider(remaps.sourcePorts));
      var splicedIn := Spliced(IncomingOf(p, oldModule.id), IncomingDecider(remaps.destinationPorts));
      ReplaceReconnectsAll(p, reg, oldModule, newModule, remaps, deleteOps, create, c);
      RebuiltOpsFresh(p, r.result.value[0].ops[|before| + 1..], splicedOut, splicedIn, m,
                      PortsOf(m, reg, Output), KeptOutgoing(p, oldModule, remaps),
                      PortsOf(m, reg, Input), KeptIncoming(p, oldModule, remaps),
                      c, c1, AfterConnections(c1, |KeptOutgoing(p, oldModule, remaps)|));
    }
  }

  /** Ops that are callback ops or rebuilds numbered from counters no lower
      than c, which is ahead of the pipeline, add only fresh connections
      besides the callback ops. */
  lemma RebuiltOpsFresh(p: Pipeline, ops: seq<Op>, splicedOut: seq<Op>, splicedIn: seq<Op>, m: Module,
                        outLookup: Lookup, ko: seq<(string, Connection)>,
                        inLookup: Lookup, ki: seq<(string, Connection)>, c: Counters, c1: Counters, c2: Counters)
    requires IdsBelow(p, c)
    requires c.ports <= c1.ports <= c2.ports && c.connections <= c1.connections <= c2.connections
    requires forall op :: op in ops ==>
               || op in splicedOut || op in splicedIn
               || RebuiltOp(op, m, outLookup, ko, Output, c1)
               || RebuiltOp(op, m, inLookup, ki, Input, c2)
    ensures AddsFreshConnections(p, ops, splicedOut + splicedIn)
  {
    forall op | op in ops && op !in splicedOut + splicedIn
      ensures op.Add? && op.what.ConnectionEntity? && FreshConnection(op.what.c, p)
    {
      if RebuiltOp(op, m, outLookup, ko, Output, c1) {
        var j :| 0 <= j < |ko| && ReconnectsTo(op.what.c, m, outLookup, ko[j], Output) &&
                 NumberedFrom(op.what.c, c1, j);
        NumberedFromFresh(op.what.c, p, c, c1, j);
      } else {
        assert RebuiltOp(op, m, inLookup, ki, Input, c2);
        var j :| 0 <= j < |ki| && ReconnectsTo(op.what.c, m, inLookup, ki[j], Input) &&
                 NumberedFrom(op.what.c, c2, j);
        NumberedFromFresh(op.what.c, p, c, c2, j);
      }
    }
  }

  /** A connection numbered from counters no lower than c, which is ahead
      of the pipeline, is fresh. */
  lemma NumberedFromFresh(conn: Connection, p: Pipeline, c: Counters, from: Counters, j: nat)
    requires IdsBelow(p, c) && c.ports <= from.ports && c.connections <= from.connections
    requires NumberedFrom(conn, from, j)
    ensures FreshConnection(conn, p)
  {
    assert conn.id !in ConnectionIds(p);
    assert conn.source.id !in PortIds(p);
    assert conn.destination.id !in PortIds(p);
  }

  /** replace_module uses no id the pipeline already has: the new module's
      id, its annotations' and port specs' ids, and its rebuilt connections
      and their ports are all new. */
  lemma ReplaceModuleDrawsFreshIds(p: Pipeline, reg: Registry, moduleId: nat, d: Descriptor,
                                   remaps: Remaps, deleteOps: seq<Op>,
                                   create: (string, seq<string>) -> ModuleFunction, c0: Counters)
    requires WellFormed(p) && moduleId in p.modules && IdsBelow(p, c0)
    ensures var m := p.modules[moduleId];
            var nm := Rebuilt(m, ModuleFromDescriptor(d, m.location, c0.modules), remaps, create, c0.Bump(ModuleId));
            && nm.id !in p.modules
            && (forall a :: a in nm.annotations ==> a.id !in AnnotationIds(p))
            && (forall s :: s in nm.portSpecs ==> s.id !in PortSpecIds(p))
    ensures var m := p.modules[moduleId];
            var r := ReplaceModuleSpec(p, reg, moduleId, d, remaps, deleteOps, create, c0);
            var before := OpsBeforeAdd(deleteOps, m, remaps);
            var callbackOps := Spliced(OutgoingOf(p, moduleId), OutgoingDecider(remaps.sourcePorts))
                               + Spliced(IncomingOf(p, moduleId), IncomingDecider(remaps.destinationPorts));
            r.result.Success? ==>
              && |r.result.value| == 1 && |before| < |r.result.value[0].ops|
              && AddsFreshConnections(p, r.result.value[0].ops[|before| + 1..], callbackOps)
  {
    var m := p.modules[moduleId];
    assert m.id == moduleId;
    ReplaceDrawsFreshIds(p, reg, m, ModuleFromDescriptor(d, m.location, c0.modules), remaps, deleteOps,
                         create, c0.Bump(ModuleId));
  }

  /** replace_group likewise uses no id the pipeline already has. */
  lemma ReplaceGroupDrawsFreshIds(p: Pipeline, reg: Registry, moduleId: nat, sub: Pipeline,
                                  deleteOps: seq<Op>, create: (string, seq<string>) -> ModuleFunction,
                                  c0: Counters)
    requires WellFormed(p) && moduleId in p.modules && IdsBelow(p, c0)
    ensures var g := p.modules[moduleId];
            var ng := Rebuilt(g, NewGroup(sub, g.location, c0.modules), NoRemaps(), create, c0.Bump(ModuleId));
            && ng.id !in p.modules
            && (forall a :: a in ng.annotations ==> a.id !in AnnotationIds(p))
            && (forall s :: s in ng.portSpecs ==> s.id !in PortSpecIds(p))
    ensures var g := p.modules[moduleId];
            var r := ReplaceGroupSpec(p, reg, moduleId, sub, deleteOps, create, c0);
            var before := OpsBeforeAdd(deleteOps, g, NoRemaps());
            var callbackOps := Spliced(OutgoingOf(p, moduleId), OutgoingDecider(NoRemaps().sourcePorts))
                               + Spliced(IncomingOf(p, moduleId), IncomingDecider(NoRemaps().destinationPorts));
            r.result.Success? ==>
              && |r.result.value| == 1 && |before| < |r.result.value[0].ops|
              && AddsFreshConnections(p, r.result.value[0].ops[|before| + 1..], callbackOps)
  {
    var g := p.modules[moduleId];
    assert g.id == moduleId;
    ReplaceDrawsFreshIds(p, reg, g, NewGroup(sub, g.location, c0.modules), NoRemaps(), deleteOps,
                         create, c0.Bump(ModuleId));
  }
}
