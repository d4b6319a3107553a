/** An Instance is a mutable list of Values. The list is an object of its own
    (Java's ArrayList) so that the list-taking constructor can adopt the
    caller's list without copying it: both then see every later change. */
module Instances {
  import opened Errors
  import opened Values

  /** Java's `ArrayList<Value>`. */
  class ValueList {
    var elems: seq<Value>

    constructor (initial: seq<Value>)
      ensures elems == initial
    {
      elems := initial;
    }
  }

  class Instance {
    const list: ValueList

    /** `Instance(int)` and `Instance()`: the capacity is only a hint, the new
        instance is empty whatever was asked for. */
    constructor WithCapacity(capacity: nat)
      ensures fresh(list) && list.elems == []
    {
      list := new ValueList([]);
    }

    /** `Instance(ArrayList<Value>)`: adopts the caller's list itself. */
    constructor Wrap(values: ValueList)
      ensures list == values
    {
      list := values;
    }

    function Values(): seq<Value>
      reads this, list
    {
      list.elems
    }

    function Size(): (n: nat)
      reads this, list
      ensures n == |Values()|
    {
      |list.elems|
    }

    /** `addValue`: appends at the end, the earlier values untouched. */
    method AddValue(v: Value)
      modifies list
      ensures Values() == old(Values()) + [v]
      ensures Size() == old(Size()) + 1 && Values()[Size() - 1] == v
      ensures forall i :: 0 <= i < old(Size()) ==> Values()[i] == old(Values())[i]
    {
      list.elems := list.elems + [v];
    }

    /** `getValueAtIndex`: element i, or IndexOutOfBoundsException. */
    function ValueAt(i: int): (r: Result<Value>)
      reads this, list
      ensures r.Ok? <==> 0 <= i < Size()
      ensures r.Ok? ==> r.value == Values()[i]
      ensures r.Err? ==> r.error == IndexOutOfBounds
    {
      if 0 <= i < |list.elems| then Ok(list.elems[i]) else Err(IndexOutOfBounds)
    }

    /** `setValueAtIndex`: replaces position i only; out of range it throws
        and changes nothing. */
    method SetValueAt(i: int, v: Value) returns (r: Outcome)
      modifies list
      ensures r.Pass? <==> 0 <= i < old(Size())
      ensures r.Fail? ==> r.error == IndexOutOfBounds && Values() == old(Values())
      ensures r.Pass? ==> Values() == old(Values())[i := v]
      ensures Size() == old(Size())
    {
      if 0 <= i < |list.elems| {
        list.elems := list.elems[i := v];
        r := Pass;
      } else {
        r := Fail(IndexOutOfBounds);
      }
    }
  }

  /** The adopting constructor shares the list: a value added through one
      instance is seen by every other instance wrapping the same list. */
  method SharedListSeesAppend(values: ValueList, v: Value) returns (a: Instance, b: Instance)
    modifies values
    ensures a.list == values && b.list == values
    ensures a.Values() == b.Values() == old(values.elems) + [v]
  {
    a := new Instance.Wrap(values);
    b := new Instance.Wrap(values);
    a.AddValue(v);
  }

  /** Java's `ArrayList<Instance>` as the training calls see it: the value
      lists of the instances, in order. DensityClustering removes from it. */
  class InstanceList {
    var rows: seq<seq<Value>>

    constructor (initial: seq<seq<Value>>)
      ensures rows == initial
    {
      rows := initial;
    }
  }
}
