/** The growing byte buffer of src/cNBT/buffer.c; allocation is taken to succeed. */
module Buffer {
  import opened Bits

  class Buf {
    var data: array?<byte>
    var len: nat
    var cap: nat

    ghost predicate Valid()
      reads this, data
    {
      if data == null then len == 0 && cap == 0
      else data.Length == cap && len <= cap && cap >= 1024
    }

    ghost function Contents(): seq<byte>
      requires Valid()
      reads this, data
    {
      if data == null then [] else data[..len]
    }

    /** BUFFER_INIT. */
    constructor ()
      ensures Valid() && data == null && Contents() == []
    {
      data, len, cap := null, 0, 0;
    }

    method LazyInit()
      requires Valid() && data == null
      modifies this
      ensures Valid() && data != null && fresh(data) && Contents() == []
    {
      data, len, cap := new byte[1024], 0, 1024;
    }

    /** Makes room for `amount` bytes in all by doubling; the contents stay. */
    method Reserve(amount: nat)
      requires Valid()
      modifies this
      ensures Valid() && data != null && cap >= amount
      ensures data == old(data) || fresh(data)
      ensures Contents() == old(Contents())
    {
      if data == null { LazyInit(); }
      if cap >= amount { return; }
      var c := cap;
      while c < amount
        invariant c >= cap
        decreases amount - c
      {
        c := c * 2;
      }
      var temp := new byte[c];
      forall i | 0 <= i < cap { temp[i] := data[i]; }
      assert temp[..len] == data[..len];
      data, cap := temp, c;
    }

    method Append(bytes: seq<byte>)
      requires Valid()
      modifies this, data
      ensures Valid() && data != null
      ensures data == old(data) || fresh(data)
      ensures Contents() == old(Contents()) + bytes
    {
      ghost var before := Contents();
      Reserve(len + |bytes|);
      forall i | 0 <= i < |bytes| { data[len + i] := bytes[i]; }
      len := len + |bytes|;
      assert data[..len] == before + bytes;
    }
  }
}
