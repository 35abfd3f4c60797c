/**
 * Port validation: whether a port an old module uses still exists, with the
 * same signature, on the descriptor that is to replace it.
 */
module Validation {
  import opened Wrappers
  import opened Pipelines
  import opened Actions
  import opened Registry

  /** Some spec in the list has this name and direction. */
  ghost predicate Declares(specs: seq<PortSpec>, name: string, ptype: PortType)
  {
    exists s :: s in specs && s.name == name && s.ptype == ptype
  }

  /** check_port_spec(module, port_name, port_type, descriptor, sigstring).
      A port the descriptor declares must carry exactly the expected
      signature; a port it does not declare must at least be declared by the
      module itself. The signature defaults to None, which no declared
      signature equals. */
  function CheckPortSpec(m: Module, portName: string, ptype: PortType,
                         descriptor: Option<Descriptor>, sigstring: Option<string>): (r: Outcome<Error>)
    ensures var onDescriptor := descriptor.Some? && Declares(descriptor.value.portSpecs, portName, ptype);
            && (r.Fail? <==>
                  (onDescriptor &&
                     Some(GetPortSpecFromDescriptor(descriptor.value, portName, ptype).value.sigstring) != sigstring)
                  || (!onDescriptor && !Declares(m.portSpecs, portName, ptype)))
            && (r.Fail? && onDescriptor ==>
                  r.error == UpgradeWorkflowError(SignatureMismatch(ptype, portName, m.name,
                               GetPortSpecFromDescriptor(descriptor.value, portName, ptype).value.sigstring,
                               sigstring)))
            && (r.Fail? && !onDescriptor ==>
                  r.error == UpgradeWorkflowError(PortDoesNotExist(ptype, portName, m.name)))
  {
    var found := descriptor.Some? && GetPortSpecFromDescriptor(descriptor.value, portName, ptype).Success?;
    if found && Some(GetPortSpecFromDescriptor(descriptor.value, portName, ptype).value.sigstring) != sigstring then
      var s := GetPortSpecFromDescriptor(descriptor.value, portName, ptype).value;
      Fail(UpgradeWorkflowError(SignatureMismatch(ptype, portName, m.name, s.sigstring, sigstring)))
    else if !found && !HasPortSpecWithName(m, portName, ptype) then
      Fail(UpgradeWorkflowError(PortDoesNotExist(ptype, portName, m.name)))
    else
      Pass
  }

  /** Called without a signature, the check reports a mismatch for every port
      the descriptor declares. */
  lemma NoSignatureMismatches(m: Module, portName: string, ptype: PortType, d: Descriptor)
    requires Declares(d.portSpecs, portName, ptype)
    ensures CheckPortSpec(m, portName, ptype, Some(d), None) ==
              Fail(UpgradeWorkflowError(SignatureMismatch(ptype, portName, m.name,
                     GetPortSpecFromDescriptor(d, portName, ptype).value.sigstring, None)))
  {
  }

  /** A port name, direction and signature the old module relies on. */
  datatype PortUse = PortUse(name: string, ptype: PortType, sigstring: string)

  function UseOfPort(port: Port): PortUse
  {
    PortUse(port.name, port.ptype, port.sigstring)
  }

  /** A function is bound to an input port of its own name. */
  function UseOfFunction(f: ModuleFunction): PortUse
  {
    PortUse(f.name, Input, f.sigstring)
  }

  function SourceUses(cs: seq<Connection>): (r: seq<PortUse>)
    ensures |r| == |cs| && forall i :: 0 <= i < |cs| ==> r[i] == UseOfPort(cs[i].source)
  {
    seq(|cs|, i requires 0 <= i < |cs| => UseOfPort(cs[i].source))
  }

  function DestinationUses(cs: seq<Connection>): (r: seq<PortUse>)
    ensures |r| == |cs| && forall i :: 0 <= i < |cs| ==> r[i] == UseOfPort(cs[i].destination)
  {
    seq(|cs|, i requires 0 <= i < |cs| => UseOfPort(cs[i].destination))
  }

  function FunctionUses(fs: seq<ModuleFunction>): (r: seq<PortUse>)
    ensures |r| == |fs| && forall i :: 0 <= i < |fs| ==> r[i] == UseOfFunction(fs[i])
  {
    seq(|fs|, i requires 0 <= i < |fs| => UseOfFunction(fs[i]))
  }

  /** Everything automatic upgrade checks, in the order it checks it: the
      source port of every outgoing connection, the destination port of
      every incoming connection, then every function. */
  function PortUses(p: Pipeline, moduleId: nat, m: Module): seq<PortUse>
  {
    SourceUses(OutgoingOf(p, moduleId)) + DestinationUses(IncomingOf(p, moduleId))
      + FunctionUses(m.functions)
  }

  function Check(m: Module, d: Descriptor, u: PortUse): Outcome<Error>
  {
    CheckPortSpec(m, u.name, u.ptype, Some(d), Some(u.sigstring))
  }

  /** The outcome of checking the uses in order and stopping at the first
      failure: it passes exactly when every check passes, and otherwise it
      is the failure of the first check that fails. */
  function FirstFailure(m: Module, d: Descriptor, uses: seq<PortUse>): (r: Outcome<Error>)
    ensures r.Pass? <==> forall k :: 0 <= k < |uses| ==> Check(m, d, uses[k]).Pass?
    ensures r.Fail? ==> exists k :: 0 <= k < |uses| && r == Check(m, d, uses[k]) &&
                                    forall j :: 0 <= j < k ==> Check(m, d, uses[j]).Pass?
  {
    if |uses| == 0 then Pass
    else
      var first := Check(m, d, uses[0]);
      if first.Fail? then first
      else
        var rest := FirstFailure(m, d, uses[1..]);
        assert forall k :: 1 <= k < |uses| ==> uses[k] == uses[1..][k - 1];
        if rest.Fail? then
          var k :| 0 <= k < |uses[1..]| && rest == Check(m, d, uses[1..][k]) &&
                   forall j :: 0 <= j < k ==> Check(m, d, uses[1..][j]).Pass?;
          assert rest == Check(m, d, uses[k + 1]);
          rest
        else rest
  }

  lemma {:induction false} FirstFailureAt(m: Module, d: Descriptor, uses: seq<PortUse>, k: nat)
    requires k < |uses| && Check(m, d, uses[k]).Fail?
    requires forall j :: 0 <= j < k ==> Check(m, d, uses[j]).Pass?
    ensures FirstFailure(m, d, uses) == Check(m, d, uses[k])
  {
    if k > 0 {
      assert uses[1..][k - 1] == uses[k];
      FirstFailureAt(m, d, uses[1..], k - 1);
    }
  }

  /** Checking two lists in a row stops in the first one if it fails there. */
  lemma {:induction false} FirstFailureConcat(m: Module, d: Descriptor, a: seq<PortUse>, b: seq<PortUse>)
    ensures FirstFailure(m, d, a + b) ==
              if FirstFailure(m, d, a).Fail? then FirstFailure(m, d, a) else FirstFailure(m, d, b)
  {
    if |a| == 0 {
      assert a + b == b;
    } else {
      assert (a + b)[0] == a[0];
      assert (a + b)[1..] == a[1..] + b;
      FirstFailureConcat(m, d, a[1..], b);
    }
  }

  /** One check loop: each use against the descriptor, in order, stopping
      at the first failure. */
  method CheckEach(m: Module, d: Descriptor, uses: seq<PortUse>) returns (r: Outcome<Error>)
    ensures r == FirstFailure(m, d, uses)
  {
    var i := 0;
    while i < |uses|
      invariant 0 <= i <= |uses|
      invariant forall j :: 0 <= j < i ==> Check(m, d, uses[j]).Pass?
    {
      var u := uses[i];
      var c := CheckPortSpec(m, u.name, u.ptype, Some(d), Some(u.sigstring));
      if c.Fail? {
        FirstFailureAt(m, d, uses, i);
        return c;
      }
      i := i + 1;
    }
    r := Pass;
  }

  /** The check loops of attempt_automatic_upgrade: the source port of
      every outgoing connection, then the destination port of every
      incoming connection, then every function of the old module, each
      against the new descriptor; the first failure is the result. */
  method CheckIncidentPorts(p: Pipeline, moduleId: nat, m: Module, d: Descriptor)
    returns (r: Outcome<Error>)
    ensures r == FirstFailure(m, d, PortUses(p, moduleId, m))
  {
    var outgoing := SourceUses(OutgoingOf(p, moduleId));
    var incoming := DestinationUses(IncomingOf(p, moduleId));
    var functions := FunctionUses(m.functions);
    FirstFailureConcat(m, d, outgoing + incoming, functions);
    FirstFailureConcat(m, d, outgoing, incoming);
    r := CheckEach(m, d, outgoing);
    if r.Fail? {
      return;
    }
    r := CheckEach(m, d, incoming);
    if r.Fail? {
      return;
    }
    r := CheckEach(m, d, functions);
  }

  /** When the checks pass, the source port of every outgoing connection,
      the destination port of every incoming connection and every function
      has passed. */
  lemma EveryUsePassed(p: Pipeline, moduleId: nat, m: Module, d: Descriptor)
    requires FirstFailure(m, d, PortUses(p, moduleId, m)).Pass?
    ensures forall conn :: conn in OutgoingOf(p, moduleId) ==> Check(m, d, UseOfPort(conn.source)).Pass?
    ensures forall conn :: conn in IncomingOf(p, moduleId) ==> Check(m, d, UseOfPort(conn.destination)).Pass?
    ensures forall f :: f in m.functions ==> Check(m, d, UseOfFunction(f)).Pass?
  {
    var out := OutgoingOf(p, moduleId);
    var inc := IncomingOf(p, moduleId);
    var uses := PortUses(p, moduleId, m);
    assert uses == SourceUses(out) + DestinationUses(inc) + FunctionUses(m.functions);
    forall conn | conn in out ensures Check(m, d, UseOfPort(conn.source)).Pass? {
      var i :| 0 <= i < |out| && out[i] == conn;
      assert uses[i] == UseOfPort(conn.source);
    }
    forall conn | conn in inc ensures Check(m, d, UseOfPort(conn.destination)).Pass? {
      var i :| 0 <= i < |inc| && inc[i] == conn;
      assert uses[|out| + i] == UseOfPort(conn.destination);
    }
    forall f | f in m.functions ensures Check(m, d, UseOfFunction(f)).Pass? {
      var i :| 0 <= i < |m.functions| && m.functions[i] == f;
      assert uses[|out| + |inc| + i] == UseOfFunction(f);
    }
  }
}
