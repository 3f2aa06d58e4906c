/** The bit vector behind the task switchers (src/collections/bit_vec.rs). */
module BitVectors {
  import opened Options
  import opened Bytes

  // Bit k of a byte, as the code tests it.
  predicate Bit(b: bv8, k: nat) {
    k < 8 && b & (1 << k) != 0
  }

  // Cells of eight bits laid out in one row. Generic, so that facts about the layout need no bit arithmetic.
  function Unpack<Cell>(bit: (Cell, nat) -> bool, cells: seq<Cell>): (bits: seq<bool>)
    ensures |bits| == 8 * |cells|
  {
    seq(8 * |cells|, i requires 0 <= i < 8 * |cells| => bit(cells[i / 8], i % 8))
  }

  lemma UnpackUpdate<Cell>(bit: (Cell, nat) -> bool, cells: seq<Cell>, index: nat, cell: Cell, value: bool)
    requires index < 8 * |cells|
    requires forall j: nat :: j < 8 ==> bit(cell, j) == if j == index % 8 then value else bit(cells[index / 8], j)
    ensures Unpack(bit, cells[index / 8 := cell]) == Unpack(bit, cells)[index := value]
  {
    var left, right := Unpack(bit, cells[index / 8 := cell]), Unpack(bit, cells)[index := value];
    forall i | 0 <= i < 8 * |cells|
      ensures left[i] == right[i]
    {
      assert i / 8 == index / 8 && i % 8 == index % 8 ==> i == index;
    }
  }

  lemma UnpackConstant<Cell>(bit: (Cell, nat) -> bool, cells: seq<Cell>, value: bool)
    requires forall i, j: nat :: 0 <= i < |cells| && j < 8 ==> bit(cells[i], j) == value
    ensures Unpack(bit, cells) == seq(8 * |cells|, _ => value)
  {
  }

  lemma UnpackConcat<Cell>(bit: (Cell, nat) -> bool, a: seq<Cell>, b: seq<Cell>)
    ensures Unpack(bit, a + b) == Unpack(bit, a) + Unpack(bit, b)
  {
    var left, right := Unpack(bit, a + b), Unpack(bit, a) + Unpack(bit, b);
    forall i | 0 <= i < 8 * (|a| + |b|)
      ensures left[i] == right[i]
    {
      assert i >= 8 * |a| ==> (i - 8 * |a|) / 8 == i / 8 - |a| && (i - 8 * |a|) % 8 == i % 8;
    }
  }

  lemma DisjointMasks(k: nat, j: nat)
    requires k < 8 && j < 8
    ensures (1 as bv8 << k) & (1 << j) == if j == k then 1 << j else 0
    ensures 1 as bv8 << k != 0
  {
    assert k == 0 || k == 1 || k == 2 || k == 3 || k == 4 || k == 5 || k == 6 || k == 7;
    assert j == 0 || j == 1 || j == 2 || j == 3 || j == 4 || j == 5 || j == 6 || j == 7;
  }

  lemma SetOneBit(b: bv8, k: nat, j: nat)
    requires k < 8 && j < 8
    ensures Bit(b | (1 << k), j) == (j == k || Bit(b, j))
  {
    DisjointMasks(k, j);
    assert (b | (1 << k)) & (1 << j) == (b & (1 << j)) | ((1 << k) & (1 << j));
  }

  lemma ClearOneBit(b: bv8, k: nat, j: nat)
    requires k < 8 && j < 8
    ensures Bit(b & !(1 << k), j) == (j != k && Bit(b, j))
  {
    DisjointMasks(k, j);
    assert (b & !(1 << k)) & (1 << j) == (b & (1 << j)) & !((1 << k) & (1 << j));
  }

  lemma ConstantByte(value: bool, j: nat)
    requires j < 8
    ensures Bit(if value then 0xff else 0, j) == value
  {
    assert j == 0 || j == 1 || j == 2 || j == 3 || j == 4 || j == 5 || j == 6 || j == 7;
  }

  // The byte that the code stores to change bit k.
  function WithBit(b: bv8, k: nat, value: bool): bv8
    requires k < 8
  {
    if value then b | (1 << k) else b & !(1 << k)
  }

  lemma WithBitChangesOne(b: bv8, k: nat, value: bool)
    requires k < 8
    ensures forall j: nat :: j < 8 ==> Bit(WithBit(b, k, value), j) == if j == k then value else Bit(b, j)
  {
    forall j: nat | j < 8
      ensures Bit(WithBit(b, k, value), j) == if j == k then value else Bit(b, j)
    {
      SetOneBit(b, k, j);
      ClearOneBit(b, k, j);
    }
  }

  lemma UnpackZeros(n: nat)
    ensures Unpack(Bit, Zeros(n)) == seq(8 * n, _ => false)
  {
    forall j: nat | j < 8 ensures !Bit(0, j) { ConstantByte(false, j); }
    UnpackConstant(Bit, Zeros(n), false);
  }

  /** A set of small naturals under a length window: bits at or beyond `len` stay stored, but are not seen. */
  class BitVec {
    var bytes: seq<bv8>
    var len: nat

    ghost predicate Valid()
      reads this
    {
      len <= 8 * |bytes|
    }

    // Every stored bit, also those beyond the window.
    ghost function Bits(): (bits: seq<bool>)
      reads this
      ensures |bits| == 8 * |bytes|
    {
      Unpack(Bit, bytes)
    }

    // The set the vector stands for.
    ghost function Flags(): (flags: set<nat>)
      reads this
      requires Valid()
      ensures forall i :: i in flags <==> 0 <= i < len && Bits()[i]
    {
      set i | 0 <= i < len && Bits()[i]
    }

    constructor News(len: nat)
      ensures Valid() && this.len == len
      ensures Bits() == seq(8 * (len / 8 + 1), _ => false)
    {
      this.bytes := Zeros(len / 8 + 1);
      this.len := len;
      new;
      UnpackZeros(len / 8 + 1);
    }

    // Growing keeps every stored bit, so only positions beyond the old byte capacity are sure to be clear.
    method SetLen(len: nat)
      requires Valid()
      modifies this
      ensures Valid() && this.len == len
      ensures old(Bits()) <= Bits()
      ensures forall i :: |old(Bits())| <= i < |Bits()| ==> !Bits()[i]
      ensures len <= |old(Bits())| ==> Bits() == old(Bits())
      ensures len > |old(Bits())| ==> |Bits()| == 8 * (len / 8 + 1)
    {
      if len > |bytes| * 8 {
        UnpackZeros(len / 8 + 1 - |bytes|);
        UnpackConcat(Bit, bytes, Zeros(len / 8 + 1 - |bytes|));
        bytes := bytes + Zeros(len / 8 + 1 - |bytes|);
      }
      this.len := len;
    }

    method Len() returns (n: nat)
      ensures n == len
    {
      n := len;
    }

    method GetBit(index: nat) returns (value: bool)
      requires Valid() && index < len
      ensures value <==> index in Flags()
    {
      assert Bits()[index] == Bit(bytes[index / 8], index % 8);
      value := bytes[index / 8] & (1 << (index % 8)) != 0;
    }

    // Exactly one stored bit changes.
    method SetBit(index: nat, value: bool)
      requires Valid() && index < len
      modifies this`bytes
      ensures Valid()
      ensures Bits() == old(Bits())[index := value]
      ensures Flags() == if value then old(Flags()) + {index} else old(Flags()) - {index}
    {
      ghost var b := bytes[index / 8];
      WithBitChangesOne(b, index % 8, value);
      UnpackUpdate(Bit, bytes, index, WithBit(b, index % 8, value), value);
      bytes := bytes[index / 8 := WithBit(bytes[index / 8], index % 8, value)];
    }

    // The least member, or nothing exactly when the set is empty.
    method FirstSetIndex() returns (first: Option<nat>)
      requires Valid()
      ensures first.None? <==> Flags() == {}
      ensures first.Some? ==> first.value in Flags() && forall i :: i in Flags() ==> first.value <= i
    {
      for byteIndex := 0 to |bytes|
        invariant forall i :: 0 <= i < 8 * byteIndex ==> !Bits()[i]
      {
        var byte := bytes[byteIndex];
        if byte != 0 {
          for bitIndex := 0 to 8
            invariant forall i :: 0 <= i < 8 * byteIndex + bitIndex ==> !Bits()[i]
          {
            var index := byteIndex * 8 + bitIndex;
            assert Bits()[index] == Bit(byte, bitIndex);
            if index >= len {
              return None;
            }
            if byte & (1 << bitIndex) != 0 {
              return Some(index);
            }
          }
        } else {
          forall i | 8 * byteIndex <= i < 8 * byteIndex + 8
            ensures !Bits()[i]
          {
            ConstantByte(false, i % 8);
          }
        }
      }
      first := None;
    }

    // All stored bits change, also those beyond the window.
    method SetAll(value: bool)
      requires Valid()
      modifies this`bytes
      ensures Valid()
      ensures Bits() == seq(|old(Bits())|, _ => value)
    {
      var cell: bv8 := if value then 0xff else 0;
      bytes := seq(|bytes|, _ => cell);
      forall j: nat | j < 8 ensures Bit(cell, j) == value { ConstantByte(value, j); }
      UnpackConstant(Bit, bytes, value);
    }
  }
}
