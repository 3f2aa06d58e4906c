/** The two-tier vector that holds task slots and sockets (src/collections/vec.rs). */
module DynamicVecs {
  import opened Options

  /** The first STACK_SIZE elements live in `stack`, the rest in `heap`. */
  class DynamicVec<T> {
    const STACK_SIZE: nat
    var stack: seq<T>
    var heap: seq<T>

    ghost predicate Valid()
      reads this
    {
      |stack| <= STACK_SIZE && (heap != [] ==> |stack| == STACK_SIZE)
    }

    ghost function Contents(): seq<T>
      reads this
    {
      stack + heap
    }

    constructor (stackSize: nat)
      ensures Valid() && Contents() == [] && STACK_SIZE == stackSize
    {
      STACK_SIZE := stackSize;
      stack, heap := [], [];
    }

    method Get(index: nat) returns (item: Option<T>)
      requires Valid()
      ensures item == if index < |Contents()| then Some(Contents()[index]) else None
    {
      if index < |stack| {
        item := Some(stack[index]);
      } else if index - |stack| < |heap| {
        item := Some(heap[index - |stack|]);
      } else {
        item := None;
      }
    }

    // Out of range, the code panics.
    method Set(index: nat, value: T)
      requires Valid() && index < |Contents()|
      modifies this
      ensures Valid() && Contents() == old(Contents())[index := value]
    {
      if index < |stack| {
        stack := stack[index := value];
      } else {
        heap := heap[index - |stack| := value];
      }
    }

    method PushStack(value: T) returns (ok: bool)
      requires Valid()
      modifies this
      ensures Valid() && ok == (|old(Contents())| < STACK_SIZE)
      ensures Contents() == if ok then old(Contents()) + [value] else old(Contents())
    {
      ok := |stack| < STACK_SIZE;
      if ok {
        stack := stack + [value];
      }
    }

    method Push(value: T)
      requires Valid()
      modifies this
      ensures Valid() && Contents() == old(Contents()) + [value]
    {
      if |stack| < STACK_SIZE {
        stack := stack + [value];
      } else {
        heap := heap + [value];
      }
    }

    method Pop() returns (item: Option<T>)
      requires Valid()
      modifies this
      ensures Valid()
      ensures old(Contents()) == [] ==> item == None && Contents() == []
      ensures old(Contents()) != [] ==> item.Some? && Contents() + [item.value] == old(Contents())
    {
      if heap != [] {
        item := Some(heap[|heap| - 1]);
        heap := heap[..|heap| - 1];
      } else if stack != [] {
        item := Some(stack[|stack| - 1]);
        stack := stack[..|stack| - 1];
      } else {
        item := None;
      }
    }

    method Last() returns (item: Option<T>)
      requires Valid()
      ensures item == if Contents() == [] then None else Some(Contents()[|Contents()| - 1])
    {
      if heap != [] {
        item := Some(heap[|heap| - 1]);
      } else if stack != [] {
        item := Some(stack[|stack| - 1]);
      } else {
        item := None;
      }
    }

    // The test looks at the stack part only, so without a stack part it may lie.
    method IsEmpty() returns (empty: bool)
      requires Valid()
      ensures STACK_SIZE > 0 ==> (empty <==> Contents() == [])
      ensures STACK_SIZE == 0 ==> empty
    {
      empty := stack == [];
    }

    method Len() returns (n: nat)
      ensures n == |Contents()|
    {
      n := |stack| + |heap|;
    }
  }
}
