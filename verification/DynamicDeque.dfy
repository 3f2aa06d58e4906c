/** The two-tier queue under every bus leg and every output queue (src/collections/dequeue.rs). */
module DynamicDeques {
  import opened Options

  /** The oldest elements live in `stack`, at most STACK_SIZE of them, the younger ones in `heap`. */
  class DynamicDeque<T> {
    const STACK_SIZE: nat
    var stack: seq<T>
    var heap: seq<T>

    ghost predicate Valid()
      reads this
    {
      |stack| <= STACK_SIZE && (heap != [] ==> |stack| == STACK_SIZE)
    }

    ghost function Contents(): seq<T>
      reads this
    {
      stack + heap
    }

    constructor (stackSize: nat)
      ensures Valid() && Contents() == [] && STACK_SIZE == stackSize
    {
      STACK_SIZE := stackSize;
      stack, heap := [], [];
    }

    // Refused exactly when the queue holds STACK_SIZE elements or more: it never overtakes the heap part.
    method PushBackStack(value: T) returns (ok: bool)
      requires Valid()
      modifies this
      ensures Valid() && ok == (|old(Contents())| < STACK_SIZE)
      ensures Contents() == if ok then old(Contents()) + [value] else old(Contents())
    {
      ok := |stack| < STACK_SIZE;
      if ok {
        stack := stack + [value];
      }
    }

    method PushBack(value: T)
      requires Valid()
      modifies this
      ensures Valid() && Contents() == old(Contents()) + [value]
    {
      if |stack| < STACK_SIZE {
        stack := stack + [value];
      } else {
        heap := heap + [value];
      }
    }

    // First in, first out, as long as there is a stack part; without one nothing can ever be popped.
    method PopFront() returns (item: Option<T>)
      requires Valid()
      modifies this
      ensures Valid()
      ensures STACK_SIZE > 0 && old(Contents()) != [] ==> item.Some? && [item.value] + Contents() == old(Contents())
      ensures STACK_SIZE == 0 || old(Contents()) == [] ==> item == None && Contents() == old(Contents())
    {
      if stack == [] {
        item := None;
      } else {
        item := Some(stack[0]);
        stack := stack[1..];
      }
      if |stack| < STACK_SIZE && heap != [] {
        var front := heap[0];
        heap := heap[1..];
        stack := stack + [front];
      }
    }

    method IsEmpty() returns (empty: bool)
      requires Valid()
      ensures STACK_SIZE > 0 ==> (empty <==> Contents() == [])
      ensures STACK_SIZE == 0 ==> empty
    {
      empty := stack == [];
    }

    method Len() returns (n: nat)
      ensures n == |Contents()|
    {
      n := |stack| + |heap|;
    }

    // Push to the back and pop from the front in one go; on an empty queue the element passes straight through.
    method Pop2(e: T) returns (out: T)
      requires Valid()
      modifies this
      ensures Valid()
      ensures STACK_SIZE > 0 ==> [out] + Contents() == old(Contents()) + [e]
      ensures STACK_SIZE == 0 ==> out == e && Contents() == old(Contents())
    {
      var empty := IsEmpty();
      if empty {
        out := e;
      } else {
        var front := PopFront();
        out := front.value;
        PushBack(e);
      }
    }
  }
}
