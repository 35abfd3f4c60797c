/**
 * Remap tables: how an upgrade renames, drops or transforms the annotations,
 * port specs, functions and connections of the module it replaces.
 */
module Remap {
  import opened Pipelines
  import opened Actions

  /** The old item handed to a transform callback. */
  datatype Item =
    | AnnotationItem(a: Annotation)
    | PortSpecItem(s: PortSpec)
    | FunctionItem(f: ModuleFunction)
    | ConnectionItem(c: Connection)

  /** A table entry: None (drop), a string (rename) or any other value,
      which the engine calls as a callback returning ops to splice in. A
      callback is a function value and so draws no ids from the id scope. */
  datatype Remap = Drop | Rename(newName: string) | Transform(callback: Item -> seq<Op>)

  /** A name absent from the table keeps the item under its own name. */
  type RemapTable = map<string, Remap>

  /** What happens to one old item. */
  datatype Decision = Copy(name: string) | Omit | Splice(ops: seq<Op>)

  function Decide(table: RemapTable, name: string, item: Item): Decision
  {
    if name !in table then Copy(name)
    else
      match table[name]
      case Drop => Omit
      case Rename(newName) => Copy(newName)
      case Transform(callback) => Splice(callback(item))
  }

  /** The items that are copied, each with the name it is copied under, in order. */
  function Kept<T>(items: seq<T>, decide: T -> Decision): seq<(string, T)>
  {
    if |items| == 0 then []
    else
      var n := |items| - 1;
      Kept(items[..n], decide) + (if decide(items[n]).Copy? then [(decide(items[n]).name, items[n])] else [])
  }

  /** The callback ops of the transformed items, concatenated in item order. */
  function Spliced<T>(items: seq<T>, decide: T -> Decision): seq<Op>
  {
    if |items| == 0 then []
    else
      var n := |items| - 1;
      Spliced(items[..n], decide) + (if decide(items[n]).Splice? then decide(items[n]).ops else [])
  }

  /** The remap engine handles each item on its own: the copies for a
      concatenation are the concatenation of the copies. */
  lemma {:induction false} KeptConcat<T>(a: seq<T>, b: seq<T>, decide: T -> Decision)
    ensures Kept(a + b, decide) == Kept(a, decide) + Kept(b, decide)
    decreases |b|
  {
    if |b| == 0 {
      assert a + b == a;
    } else {
      var n := |b| - 1;
      assert (a + b)[..|a + b| - 1] == a + b[..n];
      assert (a + b)[|a + b| - 1] == b[n];
      KeptConcat(a, b[..n], decide);
    }
  }

  /** ... and so are the spliced ops. */
  lemma {:induction false} SplicedConcat<T>(a: seq<T>, b: seq<T>, decide: T -> Decision)
    ensures Spliced(a + b, decide) == Spliced(a, decide) + Spliced(b, decide)
    decreases |b|
  {
    if |b| == 0 {
      assert a + b == a;
    } else {
      var n := |b| - 1;
      assert (a + b)[..|a + b| - 1] == a + b[..n];
      assert (a + b)[|a + b| - 1] == b[n];
      SplicedConcat(a, b[..n], decide);
    }
  }

  /** A copied item appears in the kept list under its new name, and only
      copied items appear there. */
  lemma {:induction false} KeptMembership<T>(items: seq<T>, decide: T -> Decision, name: string, x: T)
    ensures (name, x) in Kept(items, decide) <==> x in items && decide(x) == Copy(name)
  {
    if |items| != 0 {
      var n := |items| - 1;
      assert items == items[..n] + [items[n]];
      KeptMembership(items[..n], decide, name, x);
    }
  }

  /** Each kept entry is an item of the list together with the name its
      decision copies it under. */
  lemma {:induction false} KeptFromItems<T>(items: seq<T>, decide: T -> Decision)
    ensures forall j :: 0 <= j < |Kept(items, decide)| ==>
              Kept(items, decide)[j].1 in items &&
              decide(Kept(items, decide)[j].1) == Copy(Kept(items, decide)[j].0)
  {
    if |items| != 0 {
      var n := |items| - 1;
      KeptFromItems(items[..n], decide);
      assert forall x :: x in items[..n] ==> x in items;
    }
  }

  /** When every item is copied, the kept list is every item in order,
      each under the name its decision gives. */
  lemma {:induction false} KeptEvery<T>(items: seq<T>, decide: T -> Decision)
    requires forall x :: x in items ==> decide(x).Copy?
    ensures |Kept(items, decide)| == |items|
    ensures forall j :: 0 <= j < |items| ==> Kept(items, decide)[j] == (decide(items[j]).name, items[j])
  {
    if |items| != 0 {
      var n := |items| - 1;
      assert forall x :: x in items[..n] ==> x in items;
      KeptEvery(items[..n], decide);
      assert forall j :: 0 <= j < n ==> items[..n][j] == items[j];
    }
  }

  /** One more item, whose decision is d: how the copies and the splices grow. */
  lemma {:induction false} Step<T>(items: seq<T>, decide: T -> Decision, i: nat, d: Decision)
    requires i < |items| && d == decide(items[i])
    ensures Kept(items[..i + 1], decide) ==
              Kept(items[..i], decide) + (if d.Copy? then [(d.name, items[i])] else [])
    ensures Spliced(items[..i + 1], decide) ==
              Spliced(items[..i], decide) + (if d.Splice? then d.ops else [])
  {
    assert items[..i + 1][..i] == items[..i];
  }

  /** An item mapped to None leaves no trace: removing it changes neither
      the copies nor the spliced ops. */
  lemma {:induction false} DroppedItemLeavesNoTrace<T>(items: seq<T>, decide: T -> Decision, i: nat)
    requires i < |items| && decide(items[i]) == Omit
    ensures Kept(items, decide) == Kept(items[..i] + items[i + 1..], decide)
    ensures Spliced(items, decide) == Spliced(items[..i] + items[i + 1..], decide)
  {
    var a, x, b := items[..i], items[i], items[i + 1..];
    Single(x, decide);
    KeptSplit(items, decide, i);
    assert Kept(items, decide) == Kept(a, decide) + Kept(b, decide);
    KeptConcat(a, b, decide);
    SplicedSplit(items, decide, i);
    assert Spliced(items, decide) == Spliced(a, decide) + Spliced(b, decide);
    SplicedConcat(a, b, decide);
  }

  /** An item copied under a name contributes exactly that one copy, at its
      place in the order, and no ops. */
  lemma {:induction false} CopiedItemContributesOneCopy<T>(items: seq<T>, decide: T -> Decision, i: nat, name: string)
    requires i < |items| && decide(items[i]) == Copy(name)
    ensures Kept(items, decide) ==
              Kept(items[..i], decide) + [(name, items[i])] + Kept(items[i + 1..], decide)
    ensures Spliced(items, decide) == Spliced(items[..i] + items[i + 1..], decide)
  {
    var a, x, b := items[..i], items[i], items[i + 1..];
    Single(x, decide);
    KeptSplit(items, decide, i);
    SplicedSplit(items, decide, i);
    assert Spliced(items, decide) == Spliced(a, decide) + Spliced(b, decide);
    SplicedConcat(a, b, decide);
  }

  /** A transformed item contributes its callback's ops, spliced in at its
      place in the order, and no default copy. */
  lemma {:induction false} TransformedItemSplicesCallback<T>(items: seq<T>, decide: T -> Decision, i: nat, ops: seq<Op>)
    requires i < |items| && decide(items[i]) == Splice(ops)
    ensures Kept(items, decide) == Kept(items[..i] + items[i + 1..], decide)
    ensures Spliced(items, decide) ==
              Spliced(items[..i], decide) + ops + Spliced(items[i + 1..], decide)
  {
    var a, x, b := items[..i], items[i], items[i + 1..];
    Single(x, decide);
    KeptSplit(items, decide, i);
    assert Kept(items, decide) == Kept(a, decide) + Kept(b, decide);
    KeptConcat(a, b, decide);
    SplicedSplit(items, decide, i);
  }

  lemma {:induction false} KeptSplit<T>(items: seq<T>, decide: T -> Decision, i: nat)
    requires i < |items|
    ensures Kept(items, decide) ==
              Kept(items[..i], decide) + Kept([items[i]], decide) + Kept(items[i + 1..], decide)
  {
    var a, x, b := items[..i], items[i], items[i + 1..];
    SeqSplit(items, i);
    KeptConcat(a + [x], b, decide);
    KeptConcat(a, [x], decide);
  }

  lemma {:induction false} SplicedSplit<T>(items: seq<T>, decide: T -> Decision, i: nat)
    requires i < |items|
    ensures Spliced(items, decide) ==
              Spliced(items[..i], decide) + Spliced([items[i]], decide) + Spliced(items[i + 1..], decide)
  {
    var a, x, b := items[..i], items[i], items[i + 1..];
    SeqSplit(items, i);
    SplicedConcat(a + [x], b, decide);
    SplicedConcat(a, [x], decide);
  }

  /** The share of a single item. */
  lemma {:induction false} Single<T>(x: T, decide: T -> Decision)
    ensures Kept([x], decide) == if decide(x).Copy? then [(decide(x).name, x)] else []
    ensures Spliced([x], decide) == if decide(x).Splice? then decide(x).ops else []
  {
    assert [x][..0] == [];
  }

  lemma {:induction false} SeqSplit<T>(items: seq<T>, i: nat)
    requires i < |items|
    ensures items == (items[..i] + [items[i]]) + items[i + 1..]
  {
  }
}
