/**
 * The connection loops of replace_generic and the create_new_connection
 * helper they call. A loop walks the connections at one side of the old
 * module in edge order; each kept connection is recreated between the new
 * module (the near side, whose port is looked up by name) and the module at
 * the far end (whose old port is copied), drawing two port ids and one
 * connection id. The loop is given twice: as it runs, one connection at a
 * time (ConnectionSteps), and in closed form (ConnectionsRebuild); the two
 * are proved equal.
 */
module Reconnection {
  import opened Wrappers
  import opened Pipelines
  import opened Actions
  import opened Registry
  import opened IdScopes
  import opened Remap

  /** Port lookup by name on the near module, in one direction. */
  type Lookup = string -> Result<PortSpec, Error>

  /** get_port_spec(name, ptype) on module m. */
  function PortsOf(m: Module, reg: Registry, ptype: PortType): Lookup
  {
    (name: string) => GetPortSpec(m, reg, name, ptype)
  }

  /** A port built from a spec of module m: Port(id, spec, moduleId, moduleName). */
  function PortFromSpec(id: nat, spec: PortSpec, m: Module): Port
  {
    Port(id, spec.name, spec.ptype, spec.sigstring, m.id, m.name)
  }

  /** A port copied from an existing one onto module m, under a new id. */
  function CopyPort(id: nat, port: Port, m: Module): Port
  {
    Port(id, port.name, port.ptype, port.sigstring, m.id, m.name)
  }

  /** Advance the port counter by two and the connection counter by one per connection. */
  function AfterConnections(c: Counters, count: nat): Counters
  {
    c.(ports := c.ports + 2 * count, connections := c.connections + count)
  }

  /** How many port ids create_new_connection has drawn when the near port
      fails to resolve: the output port id alone when the near module is the
      source, both when it is the destination. */
  function DrawnBeforeLookup(ptype: PortType): nat
  {
    if ptype == Output then 1 else 2
  }

  /** How a connection endpoint is named to create_new_connection: by the
      name of a port of the module (looked up with get_port_spec), or by an
      existing port whose name, type and signature are copied. */
  datatype PortRef = Named(name: string) | Existing(port: Port)

  /** The endpoint create_new_connection builds on module m under the given id. */
  function Endpoint(reg: Registry, m: Module, ref: PortRef, ptype: PortType, id: nat)
    : (r: Result<Port, Error>)
    ensures ref.Existing? ==> r == Success(CopyPort(id, ref.port, m))
    ensures ref.Named? ==> r.Success? == GetPortSpec(m, reg, ref.name, ptype).Success?
  {
    match ref
    case Existing(port) => Success(CopyPort(id, port, m))
    case Named(name) =>
      match GetPortSpec(m, reg, name, ptype)
      case Success(spec) => Success(PortFromSpec(id, spec, m))
      case Failure(e) => Failure(e)
  }

  /** What create_new_connection returns and the counters after it. */
  datatype Created = Created(result: Result<Connection, Error>, counters: Counters)

  /** create_new_connection(src_module, src_port, dst_module, dst_port) with
      the id counters at c: the output port id, then the input port id, then
      the connection id; a failed lookup ends it with the ids drawn so far. */
  function NewConnection(reg: Registry, srcModule: Module, srcRef: PortRef,
                         dstModule: Module, dstRef: PortRef, c: Counters): Created
  {
    match Endpoint(reg, srcModule, srcRef, Output, c.ports)
    case Failure(e) => Created(Failure(e), c.(ports := c.ports + 1))
    case Success(output) =>
      match Endpoint(reg, dstModule, dstRef, Input, c.ports + 1)
      case Failure(e) => Created(Failure(e), c.(ports := c.ports + 2))
      case Success(input) => Created(Success(Connection(c.connections, output, input)),
                                     AfterConnections(c, 1))
  }

  /** The connections a connection loop walks all belong to the pipeline. */
  ghost predicate Within(p: Pipeline, items: seq<Connection>)
  {
    forall j :: 0 <= j < |items| ==> items[j] in p.connections
  }

  ghost predicate FromPipeline(p: Pipeline, kept: seq<(string, Connection)>)
  {
    forall j :: 0 <= j < |kept| ==> kept[j].1 in p.connections
  }

  ghost predicate Resolves(lookup: Lookup, kept: seq<(string, Connection)>)
  {
    forall j :: 0 <= j < |kept| ==> lookup(kept[j].0).Success?
  }

  /** The first kept connection whose near port does not resolve (|kept|
      when they all do). */
  function FirstMissing(lookup: Lookup, kept: seq<(string, Connection)>): (k: nat)
    ensures k <= |kept|
    ensures forall j :: 0 <= j < k ==> lookup(kept[j].0).Success?
    ensures k < |kept| ==> lookup(kept[k].0).Failure?
  {
    if |kept| == 0 then 0
    else if lookup(kept[0].0).Failure? then 0
    else 1 + FirstMissing(lookup, kept[1..])
  }

  /** The connection create_new_connection builds for the kept connection x,
      renamed to x.0, once the near port resolves to spec: ptype is the near
      port's direction. The port ids are portBase and portBase + 1, drawn in
      source-destination order; the far port is copied onto the module at
      the other end. */
  function Reconnect(p: Pipeline, m: Module, x: (string, Connection), spec: PortSpec, ptype: PortType,
                     id: nat, portBase: nat): Connection
    requires WellFormed(p) && x.1 in p.connections
  {
    if ptype == Output then
      Connection(id, PortFromSpec(portBase, spec, m),
                 CopyPort(portBase + 1, x.1.destination, p.modules[x.1.destination.moduleId]))
    else
      Connection(id, CopyPort(portBase, x.1.source, p.modules[x.1.source.moduleId]),
                 PortFromSpec(portBase + 1, spec, m))
  }

  /** The j-th kept connection rebuilt with connection id base.connections + j
      and port ids base.ports + 2j, base.ports + 2j + 1. */
  function Reconnected(p: Pipeline, m: Module, lookup: Lookup, kept: seq<(string, Connection)>,
                       ptype: PortType, base: Counters): (r: seq<Connection>)
    requires WellFormed(p) && FromPipeline(p, kept) && Resolves(lookup, kept)
    ensures |r| == |kept|
  {
    seq(|kept|, j requires 0 <= j < |kept| =>
      Reconnect(p, m, kept[j], lookup(kept[j].0).value, ptype, base.connections + j, base.ports + 2 * j))
  }

  /** The ops of a connection loop: in edge order, a rebuilt connection's
      add, a callback's ops, or nothing. */
  function Woven(items: seq<Connection>, decide: Connection -> Decision, built: seq<Connection>)
    : seq<Op>
    requires |built| == |Kept(items, decide)|
  {
    if |items| == 0 then []
    else
      var n := |items| - 1;
      var k := |Kept(items[..n], decide)|;
      var d := decide(items[n]);
      Woven(items[..n], decide, built[..k]) +
        (if d.Copy? then [Add(ConnectionEntity(built[k]))] else if d.Splice? then d.ops else [])
  }

  /** What a connection loop adds to the op list, and the counters after it. */
  datatype Rebuild = Rebuild(result: Result<seq<Op>, Error>, counters: Counters)

  /** A connection loop over items, in closed form: the first kept connection
      whose near port is missing ends it with that lookup's error; otherwise
      every kept connection is rebuilt, in edge order among the callback ops. */
  function ConnectionsRebuild(p: Pipeline, m: Module, lookup: Lookup, items: seq<Connection>,
                              decide: Connection -> Decision, ptype: PortType, c: Counters): Rebuild
    requires WellFormed(p) && Within(p, items)
  {
    var kept := Kept(items, decide);
    var k := FirstMissing(lookup, kept);
    if k < |kept| then
      Rebuild(Failure(lookup(kept[k].0).error),
              AfterConnections(c, k).(ports := c.ports + 2 * k + DrawnBeforeLookup(ptype)))
    else
      KeptWithin(p, items, decide);
      Rebuild(Success(Woven(items, decide, Reconnected(p, m, lookup, kept, ptype, c))),
              AfterConnections(c, |kept|))
  }

  /** One create_new_connection call of a loop, for the kept connection conn
      renamed to name: it fails exactly when the near port is missing, with
      DrawnBeforeLookup port ids spent, and otherwise builds Reconnect. */
  function Recreate(p: Pipeline, m: Module, lookup: Lookup, name: string, conn: Connection,
                    ptype: PortType, c: Counters): Created
    requires WellFormed(p) && conn in p.connections
  {
    match lookup(name)
    case Failure(e) => Created(Failure(e), c.(ports := c.ports + DrawnBeforeLookup(ptype)))
    case Success(spec) =>
      Created(Success(Reconnect(p, m, (name, conn), spec, ptype, c.connections, c.ports)),
              AfterConnections(c, 1))
  }

  /** The calls the two loops make: the outgoing loop passes the new module
      by the (renamed) source port name and the old destination port; the
      incoming loop passes the old source port and the new module by the
      (renamed) destination port name. */
  lemma NewConnectionRecreates(p: Pipeline, reg: Registry, m: Module, name: string,
                               conn: Connection, c: Counters)
    requires WellFormed(p) && conn in p.connections
    ensures NewConnection(reg, m, Named(name), p.modules[conn.destination.moduleId],
                          Existing(conn.destination), c) ==
              Recreate(p, m, PortsOf(m, reg, Output), name, conn, Output, c)
    ensures NewConnection(reg, p.modules[conn.source.moduleId], Existing(conn.source),
                          m, Named(name), c) ==
              Recreate(p, m, PortsOf(m, reg, Input), name, conn, Input, c)
  {
  }

  /** One iteration of a connection loop on connection x with decision d,
      after the earlier iterations reached prev: a failure stays, a dropped
      connection adds nothing, a callback adds its ops, a kept one is
      recreated. */
  function Advance(p: Pipeline, m: Module, lookup: Lookup, prev: Rebuild, x: Connection,
                   d: Decision, ptype: PortType): Rebuild
    requires WellFormed(p) && x in p.connections
  {
    if prev.result.Failure? then prev
    else
      match d
      case Omit => prev
      case Splice(ops) => Rebuild(Success(prev.result.value + ops), prev.counters)
      case Copy(name) =>
        var made := Recreate(p, m, lookup, name, x, ptype, prev.counters);
        if made.result.Failure? then Rebuild(Failure(made.result.error), made.counters)
        else Rebuild(Success(prev.result.value + [Add(ConnectionEntity(made.result.value))]),
                     made.counters)
  }

  /** A connection loop as it runs, one connection at a time, with the id
      counters threaded through. */
  function ConnectionSteps(p: Pipeline, m: Module, lookup: Lookup, items: seq<Connection>,
                           decide: Connection -> Decision, ptype: PortType, c: Counters): Rebuild
    requires WellFormed(p) && Within(p, items)
    decreases |items|
  {
    if |items| == 0 then Rebuild(Success([]), c)
    else
      var n := |items| - 1;
      Advance(p, m, lookup, ConnectionSteps(p, m, lookup, items[..n], decide, ptype, c), items[n],
              decide(items[n]), ptype)
  }

  /** One iteration of the loop as it runs, on a connection it drops or
      hands to a callback. */
  lemma LoopStepSkip(p: Pipeline, m: Module, lookup: Lookup, items: seq<Connection>,
                     decide: Connection -> Decision, ptype: PortType, c: Counters, i: nat,
                     ops: seq<Op>, counters: Counters)
    requires WellFormed(p) && Within(p, items) && i < |items| && Within(p, items[..i])
    requires ConnectionSteps(p, m, lookup, items[..i], decide, ptype, c) == Rebuild(Success(ops), counters)
    requires !decide(items[i]).Copy?
    ensures Within(p, items[..i + 1])
    ensures decide(items[i]).Omit? ==>
              ConnectionSteps(p, m, lookup, items[..i + 1], decide, ptype, c) == Rebuild(Success(ops), counters)
    ensures decide(items[i]).Splice? ==>
              ConnectionSteps(p, m, lookup, items[..i + 1], decide, ptype, c) ==
              Rebuild(Success(ops + decide(items[i]).ops), counters)
  {
    assert items[..i + 1][..i] == items[..i];
  }

  /** One iteration of the loop as it runs, on a kept connection, given the
      outcome made of its create_new_connection call. */
  lemma LoopStepCopy(p: Pipeline, m: Module, lookup: Lookup, items: seq<Connection>,
                     decide: Connection -> Decision, ptype: PortType, c: Counters, i: nat,
                     ops: seq<Op>, counters: Counters, made: Created)
    requires WellFormed(p) && Within(p, items) && i < |items| && Within(p, items[..i])
    requires ConnectionSteps(p, m, lookup, items[..i], decide, ptype, c) == Rebuild(Success(ops), counters)
    requires decide(items[i]).Copy? && items[i] in p.connections
    requires made == Recreate(p, m, lookup, decide(items[i]).name, items[i], ptype, counters)
    ensures Within(p, items[..i + 1])
    ensures ConnectionSteps(p, m, lookup, items[..i + 1], decide, ptype, c) ==
              if made.result.Failure? then Rebuild(Failure(made.result.error), made.counters)
              else Rebuild(Success(ops + [Add(ConnectionEntity(made.result.value))]), made.counters)
  {
    assert items[..i + 1][..i] == items[..i];
  }

  /** The kept connections of a loop over the pipeline's connections come from the pipeline. */
  lemma KeptWithin(p: Pipeline, items: seq<Connection>, decide: Connection -> Decision)
    requires Within(p, items)
    ensures FromPipeline(p, Kept(items, decide))
  {
    KeptFromItems(items, decide);
  }

  /** FirstMissing is the index of the first kept connection that does not resolve. */
  lemma {:induction false} FirstMissingIs(lookup: Lookup, kept: seq<(string, Connection)>, k: nat)
    requires k <= |kept|
    requires forall j :: 0 <= j < k ==> lookup(kept[j].0).Success?
    requires k < |kept| ==> lookup(kept[k].0).Failure?
    ensures FirstMissing(lookup, kept) == k
  {
    if |kept| != 0 && lookup(kept[0].0).Success? {
      assert k != 0;
      FirstMissingIs(lookup, kept[1..], k - 1);
    }
  }

  /** The ops one more iteration of a connection loop adds. */
  lemma {:induction false} WovenStep(items: seq<Connection>, decide: Connection -> Decision, i: nat,
                                     built: seq<Connection>, next: seq<Connection>)
    requires i < |items|
    requires |built| == |Kept(items[..i], decide)|
    requires |next| == |Kept(items[..i + 1], decide)|
    requires |built| <= |next| && next[..|built|] == built
    requires decide(items[i]).Copy? ==> |built| < |next|
    ensures Woven(items[..i + 1], decide, next) ==
              Woven(items[..i], decide, built) +
              (if decide(items[i]).Copy? then [Add(ConnectionEntity(next[|built|]))]
               else if decide(items[i]).Splice? then decide(items[i]).ops else [])
  {
    assert items[..i + 1][..i] == items[..i];
  }

  /** Rebuilding one more kept connection appends its Reconnect. */
  lemma ReconnectedSnoc(p: Pipeline, m: Module, lookup: Lookup, kp: seq<(string, Connection)>,
                        x: (string, Connection), ptype: PortType, base: Counters)
    requires WellFormed(p) && FromPipeline(p, kp + [x]) && Resolves(lookup, kp + [x])
    ensures FromPipeline(p, kp) && Resolves(lookup, kp) && x.1 in p.connections && lookup(x.0).Success?
    ensures Reconnected(p, m, lookup, kp + [x], ptype, base) ==
              Reconnected(p, m, lookup, kp, ptype, base) +
              [Reconnect(p, m, x, lookup(x.0).value, ptype, base.connections + |kp|, base.ports + 2 * |kp|)]
  {
    assert forall j :: 0 <= j < |kp| ==> (kp + [x])[j] == kp[j];
    assert (kp + [x])[|kp|] == x;
  }

  /** A kept connection whose near port resolves, after a prefix whose kept
      connections all resolve: it is kept last, and every kept one resolves. */
  lemma KeptResolved(lookup: Lookup, items: seq<Connection>, decide: Connection -> Decision,
                     name: string)
    requires |items| > 0 && decide(items[|items| - 1]) == Copy(name) && lookup(name).Success?
    requires FirstMissing(lookup, Kept(items[..|items| - 1], decide)) == |Kept(items[..|items| - 1], decide)|
    ensures Kept(items, decide) == Kept(items[..|items| - 1], decide) + [(name, items[|items| - 1])]
    ensures FirstMissing(lookup, Kept(items, decide)) == |Kept(items, decide)|
  {
    var n := |items| - 1;
    var kp := Kept(items[..n], decide);
    var kept := Kept(items, decide);
    Step(items, decide, n, Copy(name));
    assert items[..n + 1] == items;
    assert forall j :: 0 <= j < |kp| ==> kept[j] == kp[j];
    FirstMissingIs(lookup, kept, |kept|);
  }

  /** Once the closed form of a prefix has failed, the next item leaves it unchanged. */
  lemma {:induction false} RebuildAfterFailure(p: Pipeline, m: Module, lookup: Lookup,
                                               items: seq<Connection>, decide: Connection -> Decision,
                                               ptype: PortType, c: Counters)
    requires WellFormed(p) && Within(p, items) && |items| > 0
    requires Within(p, items[..|items| - 1])
    requires ConnectionsRebuild(p, m, lookup, items[..|items| - 1], decide, ptype, c).result.Failure?
    ensures ConnectionsRebuild(p, m, lookup, items, decide, ptype, c) ==
              ConnectionsRebuild(p, m, lookup, items[..|items| - 1], decide, ptype, c)
    ensures ConnectionsRebuild(p, m, lookup, items, decide, ptype, c) ==
              Advance(p, m, lookup, ConnectionsRebuild(p, m, lookup, items[..|items| - 1], decide, ptype, c),
                      items[|items| - 1], decide(items[|items| - 1]), ptype)
  {
    var n := |items| - 1;
    var kp := Kept(items[..n], decide);
    var kept := Kept(items, decide);
    var k := FirstMissing(lookup, kp);
    Step(items, decide, n, decide(items[n]));
    assert items[..n + 1] == items;
    assert forall j :: 0 <= j <= k ==> kept[j] == kp[j];
    FirstMissingIs(lookup, kept, k);
  }

  /** A prefix whose closed form succeeded, followed by a dropped or
      transformed connection: the callback's ops, if any, are appended. */
  lemma {:induction false} RebuildAfterNonCopy(p: Pipeline, m: Module, lookup: Lookup,
                                               items: seq<Connection>, decide: Connection -> Decision,
                                               ptype: PortType, c: Counters)
    requires WellFormed(p) && Within(p, items) && |items| > 0
    requires Within(p, items[..|items| - 1])
    requires ConnectionsRebuild(p, m, lookup, items[..|items| - 1], decide, ptype, c).result.Success?
    requires !decide(items[|items| - 1]).Copy?
    ensures var prev := ConnectionsRebuild(p, m, lookup, items[..|items| - 1], decide, ptype, c);
            var d := decide(items[|items| - 1]);
            ConnectionsRebuild(p, m, lookup, items, decide, ptype, c) ==
              Rebuild(Success(prev.result.value + (if d.Splice? then d.ops else [])), prev.counters)
    ensures ConnectionsRebuild(p, m, lookup, items, decide, ptype, c) ==
              Advance(p, m, lookup, ConnectionsRebuild(p, m, lookup, items[..|items| - 1], decide, ptype, c),
                      items[|items| - 1], decide(items[|items| - 1]), ptype)
  {
    var n := |items| - 1;
    var kp := Kept(items[..n], decide);
    var kept := Kept(items, decide);
    Step(items, decide, n, decide(items[n]));
    assert items[..n + 1] == items;
    assert kept == kp;
    FirstMissingIs(lookup, kept, |kept|);
    KeptWithin(p, items, decide);
    KeptWithin(p, items[..n], decide);
    WovenStep(items, decide, n, Reconnected(p, m, lookup, kp, ptype, c),
              Reconnected(p, m, lookup, kept, ptype, c));
    var prev := ConnectionsRebuild(p, m, lookup, items[..n], decide, ptype, c);
    assert prev.result.value + [] == prev.result.value;
  }

  /** A prefix whose closed form succeeded, followed by a kept connection
      whose near port is missing: the loop fails on it. */
  lemma {:induction false} RebuildAfterMissing(p: Pipeline, m: Module, lookup: Lookup,
                                               items: seq<Connection>, decide: Connection -> Decision,
                                               ptype: PortType, c: Counters, name: string)
    requires WellFormed(p) && Within(p, items) && |items| > 0
    requires Within(p, items[..|items| - 1])
    requires ConnectionsRebuild(p, m, lookup, items[..|items| - 1], decide, ptype, c).result.Success?
    requires decide(items[|items| - 1]) == Copy(name) && lookup(name).Failure?
    ensures var k := |Kept(items[..|items| - 1], decide)|;
            ConnectionsRebuild(p, m, lookup, items, decide, ptype, c) ==
              Rebuild(Failure(lookup(name).error),
                      AfterConnections(c, k).(ports := c.ports + 2 * k + DrawnBeforeLookup(ptype)))
    ensures ConnectionsRebuild(p, m, lookup, items, decide, ptype, c) ==
              Advance(p, m, lookup, ConnectionsRebuild(p, m, lookup, items[..|items| - 1], decide, ptype, c),
                      items[|items| - 1], decide(items[|items| - 1]), ptype)
  {
    var n := |items| - 1;
    var kp := Kept(items[..n], decide);
    var kept := Kept(items, decide);
    Step(items, decide, n, Copy(name));
    assert items[..n + 1] == items;
    assert kept == kp + [(name, items[n])];
    assert forall j :: 0 <= j < |kp| ==> kept[j] == kp[j];
    FirstMissingIs(lookup, kept, |kp|);
    assert ConnectionsRebuild(p, m, lookup, items[..n], decide, ptype, c).counters == AfterConnections(c, |kp|);
  }

  /** A prefix whose closed form succeeded, followed by a kept connection
      whose near port resolves: its rebuilt connection is added. */
  lemma {:induction false} RebuildAfterResolved(p: Pipeline, m: Module, lookup: Lookup,
                                                items: seq<Connection>, decide: Connection -> Decision,
                                                ptype: PortType, c: Counters, name: string)
    requires WellFormed(p) && Within(p, items) && |items| > 0
    requires Within(p, items[..|items| - 1])
    requires ConnectionsRebuild(p, m, lookup, items[..|items| - 1], decide, ptype, c).result.Success?
    requires decide(items[|items| - 1]) == Copy(name) && lookup(name).Success?
    ensures items[|items| - 1] in p.connections
    ensures var prev := ConnectionsRebuild(p, m, lookup, items[..|items| - 1], decide, ptype, c);
            var k := |Kept(items[..|items| - 1], decide)|;
            ConnectionsRebuild(p, m, lookup, items, decide, ptype, c) ==
              Rebuild(Success(prev.result.value +
                              [Add(ConnectionEntity(Reconnect(p, m, (name, items[|items| - 1]),
                                                              lookup(name).value, ptype,
                                                              c.connections + k, c.ports + 2 * k)))]),
                      AfterConnections(c, k + 1))
    ensures ConnectionsRebuild(p, m, lookup, items, decide, ptype, c) ==
              Advance(p, m, lookup, ConnectionsRebuild(p, m, lookup, items[..|items| - 1], decide, ptype, c),
                      items[|items| - 1], decide(items[|items| - 1]), ptype)
  {
    var n := |items| - 1;
    var kp := Kept(items[..n], decide);
    var kept := Kept(items, decide);
    KeptResolved(lookup, items, decide, name);
    KeptWithin(p, items, decide);
    KeptWithin(p, items[..n], decide);
    ReconnectedSnoc(p, m, lookup, kp, (name, items[n]), ptype, c);
    var built := Reconnected(p, m, lookup, kp, ptype, c);
    var next := Reconnected(p, m, lookup, kept, ptype, c);
    assert next[..|kp|] == built;
    assert items[..n + 1] == items;
    WovenStep(items, decide, n, built, next);
    assert ConnectionsRebuild(p, m, lookup, items[..n], decide, ptype, c) ==
             Rebuild(Success(Woven(items[..n], decide, built)), AfterConnections(c, |kp|));
    assert ConnectionsRebuild(p, m, lookup, items, decide, ptype, c) ==
             Rebuild(Success(Woven(items, decide, next)), AfterConnections(c, |kept|));
    var prev := ConnectionsRebuild(p, m, lookup, items[..n], decide, ptype, c);
    assert Advance(p, m, lookup, prev, items[n], Copy(name), ptype) ==
             Rebuild(Success(prev.result.value +
                             [Add(ConnectionEntity(Reconnect(p, m, (name, items[n]), lookup(name).value, ptype,
                                                             c.connections + |kp|, c.ports + 2 * |kp|)))]),
                     AfterConnections(c, |kp| + 1));
  }

  /** The closed form of items is one Advance past the closed form of its prefix. */
  lemma {:induction false} RebuildStep(p: Pipeline, m: Module, lookup: Lookup,
                                       items: seq<Connection>, decide: Connection -> Decision,
                                       ptype: PortType, c: Counters)
    requires WellFormed(p) && Within(p, items) && |items| > 0
    requires Within(p, items[..|items| - 1])
    ensures items[|items| - 1] in p.connections
    ensures ConnectionsRebuild(p, m, lookup, items, decide, ptype, c) ==
              Advance(p, m, lookup, ConnectionsRebuild(p, m, lookup, items[..|items| - 1], decide, ptype, c),
                      items[|items| - 1], decide(items[|items| - 1]), ptype)
  {
    var n := |items| - 1;
    var prev := ConnectionsRebuild(p, m, lookup, items[..n], decide, ptype, c);
    if prev.result.Failure? {
      RebuildAfterFailure(p, m, lookup, items, decide, ptype, c);
    } else if !decide(items[n]).Copy? {
      RebuildAfterNonCopy(p, m, lookup, items, decide, ptype, c);
    } else if lookup(decide(items[n]).name).Failure? {
      RebuildAfterMissing(p, m, lookup, items, decide, ptype, c, decide(items[n]).name);
    } else {
      RebuildAfterResolved(p, m, lookup, items, decide, ptype, c, decide(items[n]).name);
    }
  }

  /** The loop as it runs computes its closed form. */
  lemma {:induction false} StepsMatchRebuild(p: Pipeline, m: Module, lookup: Lookup,
                                             items: seq<Connection>, decide: Connection -> Decision,
                                             ptype: PortType, c: Counters)
    requires WellFormed(p) && Within(p, items)
    ensures ConnectionSteps(p, m, lookup, items, decide, ptype, c) ==
              ConnectionsRebuild(p, m, lookup, items, decide, ptype, c)
    decreases |items|
  {
    if |items| == 0 {
      assert Kept(items, decide) == [];
    } else {
      var n := |items| - 1;
      StepsMatchRebuild(p, m, lookup, items[..n], decide, ptype, c);
      RebuildStep(p, m, lookup, items, decide, ptype, c);
    }
  }

  /** A failure in the loop as it runs is final. */
  lemma {:induction false} StepsFailureSticks(p: Pipeline, m: Module, lookup: Lookup,
                                              items: seq<Connection>, decide: Connection -> Decision,
                                              ptype: PortType, c: Counters, k: nat)
    requires WellFormed(p) && Within(p, items) && k <= |items| && Within(p, items[..k])
    requires ConnectionSteps(p, m, lookup, items[..k], decide, ptype, c).result.Failure?
    ensures ConnectionSteps(p, m, lookup, items, decide, ptype, c) ==
              ConnectionSteps(p, m, lookup, items[..k], decide, ptype, c)
    decreases |items|
  {
    if k == |items| {
      assert items[..k] == items;
    } else {
      var n := |items| - 1;
      assert items[..n][..k] == items[..k];
      StepsFailureSticks(p, m, lookup, items[..n], decide, ptype, c, k);
    }
  }

  /** A lookup that answers for a name with a port of that name and direction. */
  ghost predicate Faithful(lookup: Lookup, ptype: PortType)
  {
    forall name :: lookup(name).Success? ==> lookup(name).value.name == name && lookup(name).value.ptype == ptype
  }

  /** get_port_spec answers with a spec of the name and direction asked for. */
  lemma PortsOfFaithful(m: Module, reg: Registry, ptype: PortType)
    ensures Faithful(PortsOf(m, reg, ptype), ptype)
  {
    forall name | PortsOf(m, reg, ptype)(name).Success?
      ensures PortsOf(m, reg, ptype)(name).value.name == name
      ensures PortsOf(m, reg, ptype)(name).value.ptype == ptype
    {
      assert PortsOf(m, reg, ptype)(name) == GetPortSpec(m, reg, name, ptype);
    }
  }

  /** Two ports name the same endpoint: port name, direction, signature and module. */
  predicate SameEnd(a: Port, b: Port)
  {
    a.name == b.name && a.ptype == b.ptype && a.sigstring == b.sigstring && a.moduleId == b.moduleId
  }

  /** conn rebuilds the kept connection x with module m on the near side,
      whose direction is ptype: the near port is m's port x.0 of that
      direction, with the signature of the spec lookup finds for x.0, and
      the far port is the old far endpoint. */
  predicate ReconnectsTo(conn: Connection, m: Module, lookup: Lookup, x: (string, Connection),
                         ptype: PortType)
  {
    && lookup(x.0).Success?
    && if ptype == Output then
         && conn.source.moduleId == m.id && conn.source.moduleName == m.name
         && conn.source.name == x.0 && conn.source.ptype == Output
         && conn.source.sigstring == lookup(x.0).value.sigstring
         && SameEnd(conn.destination, x.1.destination)
       else
         && conn.destination.moduleId == m.id && conn.destination.moduleName == m.name
         && conn.destination.name == x.0 && conn.destination.ptype == Input
         && conn.destination.sigstring == lookup(x.0).value.sigstring
         && SameEnd(conn.source, x.1.source)
  }

  /** The ids of the j-th connection a loop rebuilds from counters c: its
      output port id, its input port id and its connection id. */
  predicate NumberedFrom(conn: Connection, c: Counters, j: nat)
  {
    conn.source.id == c.ports + 2 * j && conn.destination.id == c.ports + 2 * j + 1
      && conn.id == c.connections + j
  }

  /** Every op a connection loop emits is a callback op or the add of one of
      the rebuilt connections. */
  lemma {:induction false} WovenOps(items: seq<Connection>, decide: Connection -> Decision,
                                    built: seq<Connection>, op: Op)
    requires |built| == |Kept(items, decide)|
    requires op in Woven(items, decide, built)
    ensures op in Spliced(items, decide) || exists j :: 0 <= j < |built| && op == Add(ConnectionEntity(built[j]))
  {
    var n := |items| - 1;
    var d := decide(items[n]);
    var k := |Kept(items[..n], decide)|;
    Step(items, decide, n, d);
    assert items[..n + 1] == items;
    var front := Woven(items[..n], decide, built[..k]);
    if op in front {
      WovenOps(items[..n], decide, built[..k], op);
      if op !in Spliced(items[..n], decide) {
        var j :| 0 <= j < k && op == Add(ConnectionEntity(built[..k][j]));
        assert built[..k][j] == built[j];
      }
    }
  }

  /** Conversely, a connection loop emits the add of every rebuilt
      connection and every callback op. */
  lemma {:induction false} WovenHasAll(items: seq<Connection>, decide: Connection -> Decision,
                                       built: seq<Connection>)
    requires |built| == |Kept(items, decide)|
    ensures forall j :: 0 <= j < |built| ==> Add(ConnectionEntity(built[j])) in Woven(items, decide, built)
    ensures forall op :: op in Spliced(items, decide) ==> op in Woven(items, decide, built)
  {
    if |items| > 0 {
      var n := |items| - 1;
      var d := decide(items[n]);
      var k := |Kept(items[..n], decide)|;
      Step(items, decide, n, d);
      assert items[..n + 1] == items;
      WovenHasAll(items[..n], decide, built[..k]);
      var front := Woven(items[..n], decide, built[..k]);
      assert Woven(items, decide, built) ==
               front + (if d.Copy? then [Add(ConnectionEntity(built[k]))] else if d.Splice? then d.ops else []);
      forall j | 0 <= j < k ensures Add(ConnectionEntity(built[j])) in Woven(items, decide, built) {
        assert built[..k][j] == built[j];
      }
    } else {
      assert Kept(items, decide) == [] && Spliced(items, decide) == [];
    }
  }

  /** A connection loop succeeds exactly when the near port of every kept
      connection resolves; otherwise it fails with the error of the first
      one that does not. */
  lemma RebuildSucceedsIff(p: Pipeline, m: Module, lookup: Lookup, items: seq<Connection>,
                           decide: Connection -> Decision, ptype: PortType, c: Counters)
    requires WellFormed(p) && Within(p, items)
    ensures var kept := Kept(items, decide);
            var r := ConnectionsRebuild(p, m, lookup, items, decide, ptype, c);
            && (r.result.Success? <==> forall j :: 0 <= j < |kept| ==> lookup(kept[j].0).Success?)
            && (r.result.Failure? ==>
                  exists k :: 0 <= k < |kept| && lookup(kept[k].0).Failure? &&
                              r.result == Failure(lookup(kept[k].0).error) &&
                              forall j :: 0 <= j < k ==> lookup(kept[j].0).Success?)
  {
  }

  /** A connection loop succeeds exactly when the near port of every kept
      connection resolves. */
  lemma RebuildSucceeds(p: Pipeline, m: Module, lookup: Lookup, items: seq<Connection>,
                        decide: Connection -> Decision, ptype: PortType, c: Counters)
    requires WellFormed(p) && Within(p, items)
    ensures ConnectionsRebuild(p, m, lookup, items, decide, ptype, c).result.Success? <==>
              forall j :: 0 <= j < |Kept(items, decide)| ==> lookup(Kept(items, decide)[j].0).Success?
  {
    RebuildSucceedsIff(p, m, lookup, items, decide, ptype, c);
  }

  /** A successful connection loop draws two port ids and one connection id
      per kept connection. */
  lemma RebuildCounters(p: Pipeline, m: Module, lookup: Lookup, items: seq<Connection>,
                        decide: Connection -> Decision, ptype: PortType, c: Counters)
    requires WellFormed(p) && Within(p, items)
    requires ConnectionsRebuild(p, m, lookup, items, decide, ptype, c).result.Success?
    ensures ConnectionsRebuild(p, m, lookup, items, decide, ptype, c).counters ==
              AfterConnections(c, |Kept(items, decide)|)
  {
  }

  /** op adds a connection that rebuilds the j-th of the kept connections
      on module m, through lookup, with the j-th ids drawn from c. */
  ghost predicate RebuiltOp(op: Op, m: Module, lookup: Lookup, kept: seq<(string, Connection)>,
                            ptype: PortType, c: Counters)
  {
    op.Add? && op.what.ConnectionEntity? &&
    exists j :: 0 <= j < |kept| && ReconnectsTo(op.what.c, m, lookup, kept[j], ptype) &&
                NumberedFrom(op.what.c, c, j)
  }

  /** Every kept connection has its rebuild among ops: the j-th on module m
      with the j-th ids drawn from c. */
  ghost predicate RebuildsEvery(ops: seq<Op>, m: Module, lookup: Lookup, kept: seq<(string, Connection)>,
                                ptype: PortType, c: Counters)
  {
    forall j :: 0 <= j < |kept| ==> HasRebuild(ops, m, lookup, kept[j], ptype, c, j)
  }

  /** Rebuilds found in ops are still found once more ops come before or after. */
  lemma RebuildsEveryGrows(ops: seq<Op>, more: seq<Op>, m: Module, lookup: Lookup,
                           kept: seq<(string, Connection)>, ptype: PortType, c: Counters)
    requires RebuildsEvery(ops, m, lookup, kept, ptype, c)
    ensures RebuildsEvery(ops + more, m, lookup, kept, ptype, c)
    ensures RebuildsEvery(more + ops, m, lookup, kept, ptype, c)
  {
    forall j | 0 <= j < |kept|
      ensures HasRebuild(ops + more, m, lookup, kept[j], ptype, c, j)
      ensures HasRebuild(more + ops, m, lookup, kept[j], ptype, c, j)
    {
      assert HasRebuild(ops, m, lookup, kept[j], ptype, c, j);
      var conn :| Add(ConnectionEntity(conn)) in ops && ReconnectsTo(conn, m, lookup, kept[j], ptype) &&
                  NumberedFrom(conn, c, j);
      assert Add(ConnectionEntity(conn)) in ops + more && Add(ConnectionEntity(conn)) in more + ops;
    }
  }

  /** ops adds a connection that rebuilds x on module m, through lookup,
      with the j-th ids from c. */
  ghost predicate HasRebuild(ops: seq<Op>, m: Module, lookup: Lookup, x: (string, Connection),
                             ptype: PortType, c: Counters, j: nat)
  {
    exists conn :: Add(ConnectionEntity(conn)) in ops && ReconnectsTo(conn, m, lookup, x, ptype) &&
                   NumberedFrom(conn, c, j)
  }

  /** The end of a connection that sits on the module being replaced: the
      source of an outgoing connection, the destination of an incoming one. */
  function NearPort(conn: Connection, ptype: PortType): Port
  {
    if ptype == Output then conn.source else conn.destination
  }

  /** As HasRebuild, and the rebuilt near port carries the signature the
      near port of x had. */
  ghost predicate HasSignedRebuild(ops: seq<Op>, m: Module, lookup: Lookup, x: (string, Connection),
                                   ptype: PortType, c: Counters, j: nat)
  {
    exists conn :: Add(ConnectionEntity(conn)) in ops && ReconnectsTo(conn, m, lookup, x, ptype) &&
                   NumberedFrom(conn, c, j) && NearPort(conn, ptype).sigstring == NearPort(x.1, ptype).sigstring
  }

  /** When the lookup gives each connection's near port back its own
      signature, every rebuild found in ops keeps that signature. */
  lemma RebuildsKeepSignatures(ops: seq<Op>, m: Module, lookup: Lookup, conns: seq<Connection>,
                               ptype: PortType, c: Counters)
    requires forall j :: 0 <= j < |conns| ==>
               HasRebuild(ops, m, lookup, (NearPort(conns[j], ptype).name, conns[j]), ptype, c, j)
    requires forall j :: 0 <= j < |conns| ==>
               && lookup(NearPort(conns[j], ptype).name).Success?
               && lookup(NearPort(conns[j], ptype).name).value.sigstring == NearPort(conns[j], ptype).sigstring
    ensures forall j :: 0 <= j < |conns| ==>
              HasSignedRebuild(ops, m, lookup, (NearPort(conns[j], ptype).name, conns[j]), ptype, c, j)
  {
    forall j | 0 <= j < |conns|
      ensures HasSignedRebuild(ops, m, lookup, (NearPort(conns[j], ptype).name, conns[j]), ptype, c, j)
    {
      var x := (NearPort(conns[j], ptype).name, conns[j]);
      assert HasRebuild(ops, m, lookup, x, ptype, c, j);
      var conn :| Add(ConnectionEntity(conn)) in ops && ReconnectsTo(conn, m, lookup, x, ptype) &&
                  NumberedFrom(conn, c, j);
      assert NearPort(conn, ptype).sigstring == lookup(x.0).value.sigstring;
    }
  }

  /** The j-th rebuilt connection reconnects the j-th kept one with the j-th ids. */
  lemma ReconnectedAttach(p: Pipeline, m: Module, lookup: Lookup, kept: seq<(string, Connection)>,
                          ptype: PortType, c: Counters, j: nat)
    requires WellFormed(p) && FromPipeline(p, kept) && Resolves(lookup, kept) && Faithful(lookup, ptype)
    requires j < |kept|
    ensures ReconnectsTo(Reconnected(p, m, lookup, kept, ptype, c)[j], m, lookup, kept[j], ptype)
    ensures NumberedFrom(Reconnected(p, m, lookup, kept, ptype, c)[j], c, j)
  {
  }

  /** Each op of the loop's ops is a callback op or a rebuilt connection. */
  lemma WovenOnlyRebuilds(p: Pipeline, m: Module, lookup: Lookup, items: seq<Connection>,
                          decide: Connection -> Decision, ptype: PortType, c: Counters)
    requires WellFormed(p) && Faithful(lookup, ptype)
    requires FromPipeline(p, Kept(items, decide)) && Resolves(lookup, Kept(items, decide))
    ensures forall op :: op in Woven(items, decide, Reconnected(p, m, lookup, Kept(items, decide), ptype, c)) ==>
              op in Spliced(items, decide) || RebuiltOp(op, m, lookup, Kept(items, decide), ptype, c)
  {
    var kept := Kept(items, decide);
    var built := Reconnected(p, m, lookup, kept, ptype, c);
    forall op | op in Woven(items, decide, built)
      ensures op in Spliced(items, decide) || RebuiltOp(op, m, lookup, kept, ptype, c)
    {
      WovenOps(items, decide, built, op);
      if op !in Spliced(items, decide) {
        var j :| 0 <= j < |built| && op == Add(ConnectionEntity(built[j]));
        ReconnectedAttach(p, m, lookup, kept, ptype, c, j);
      }
    }
  }

  /** The loop's ops hold every rebuilt connection and every callback op. */
  lemma WovenRebuildsAll(p: Pipeline, m: Module, lookup: Lookup, items: seq<Connection>,
                         decide: Connection -> Decision, ptype: PortType, c: Counters)
    requires WellFormed(p) && Faithful(lookup, ptype)
    requires FromPipeline(p, Kept(items, decide)) && Resolves(lookup, Kept(items, decide))
    ensures var ops := Woven(items, decide, Reconnected(p, m, lookup, Kept(items, decide), ptype, c));
            && RebuildsEvery(ops, m, lookup, Kept(items, decide), ptype, c)
            && forall op :: op in Spliced(items, decide) ==> op in ops
  {
    var kept := Kept(items, decide);
    var built := Reconnected(p, m, lookup, kept, ptype, c);
    WovenHasAll(items, decide, built);
    forall j | 0 <= j < |kept| ensures HasRebuild(Woven(items, decide, built), m, lookup, kept[j], ptype, c, j) {
      ReconnectedAttach(p, m, lookup, kept, ptype, c, j);
      assert Add(ConnectionEntity(built[j])) in Woven(items, decide, built);
    }
  }

  /** A successful connection loop draws two port ids and one connection id
      per kept connection. Each op it emits is either a callback op or the
      add of a connection that rebuilds the j-th kept connection on the new
      module with the j-th ids of the loop; and every such rebuild and every
      callback op is emitted. */
  lemma RebuiltConnections(p: Pipeline, m: Module, lookup: Lookup, items: seq<Connection>,
                           decide: Connection -> Decision, ptype: PortType, c: Counters)
    requires WellFormed(p) && Within(p, items) && Faithful(lookup, ptype)
    requires ConnectionsRebuild(p, m, lookup, items, decide, ptype, c).result.Success?
    ensures var r := ConnectionsRebuild(p, m, lookup, items, decide, ptype, c);
            && r.counters == AfterConnections(c, |Kept(items, decide)|)
            && (forall op :: op in r.result.value ==>
                  op in Spliced(items, decide) || RebuiltOp(op, m, lookup, Kept(items, decide), ptype, c))
            && RebuildsEvery(r.result.value, m, lookup, Kept(items, decide), ptype, c)
            && (forall op :: op in Spliced(items, decide) ==> op in r.result.value)
  {
    var kept := Kept(items, decide);
    KeptWithin(p, items, decide);
    assert Resolves(lookup, kept);
    var built := Reconnected(p, m, lookup, kept, ptype, c);
    assert ConnectionsRebuild(p, m, lookup, items, decide, ptype, c) ==
             Rebuild(Success(Woven(items, decide, built)), AfterConnections(c, |kept|));
    WovenOnlyRebuilds(p, m, lookup, items, decide, ptype, c);
    WovenRebuildsAll(p, m, lookup, items, decide, ptype, c);
  }
}
