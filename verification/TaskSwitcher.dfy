/** The bitmap that says which tasks still have to be polled (src/task/switcher.rs). */
module TaskSwitchers {
  import opened Options
  import opened BitVectors

  class TaskSwitcher {
    const bits: BitVec

    ghost predicate Valid()
      reads bits
    {
      bits.Valid()
    }

    ghost function Bits(): seq<bool>
      reads bits
    {
      bits.Bits()
    }

    ghost function Tasks(): nat
      reads bits
    {
      bits.len
    }

    // The tasks waiting to be polled.
    ghost function Waiting(): set<nat>
      reads bits
      requires Valid()
    {
      bits.Flags()
    }

    constructor (len: nat)
      ensures Valid() && fresh(bits) && Tasks() == len
      ensures Bits() == seq(8 * (len / 8 + 1), _ => false)
    {
      bits := new BitVec.News(len);
    }

    method SetTasks(tasks: nat)
      requires Valid()
      modifies bits
      ensures Valid() && Tasks() == tasks
      ensures old(Bits()) <= Bits()
      ensures forall i :: |old(Bits())| <= i < |Bits()| ==> !Bits()[i]
      ensures tasks <= |old(Bits())| ==> Bits() == old(Bits())
    {
      bits.SetLen(tasks);
    }

    method Current() returns (index: Option<nat>)
      requires Valid()
      ensures index.None? <==> Waiting() == {}
      ensures index.Some? ==> index.value in Waiting() && forall i :: i in Waiting() ==> index.value <= i
    {
      index := bits.FirstSetIndex();
    }

    method FlagAll()
      requires Valid()
      modifies bits
      ensures Valid() && Tasks() == old(Tasks())
      ensures Bits() == seq(|old(Bits())|, _ => true)
    {
      bits.SetAll(true);
    }

    method Finished(index: nat)
      requires Valid() && index < Tasks()
      modifies bits
      ensures Valid() && Tasks() == old(Tasks())
      ensures Bits() == old(Bits())[index := false]
      ensures Waiting() == old(Waiting()) - {index}
    {
      bits.SetBit(index, false);
    }

    method FlagTask(index: nat)
      requires Valid() && index < Tasks()
      modifies bits
      ensures Valid() && Tasks() == old(Tasks())
      ensures Bits() == old(Bits())[index := true]
      ensures Waiting() == old(Waiting()) + {index}
    {
      bits.SetBit(index, true);
    }
  }
}
