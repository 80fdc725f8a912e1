/** The growable byte array of buffer.c, used for both transfers. */
module Buffers {
  import opened Wrappers

  /** The capacity `buf_resize` asks for: `(len + extra + 63) & ~31`. */
  function Capacity(len: nat, extra: nat): (size: nat)
    ensures size % 32 == 0
    ensures len + extra + 32 <= size <= len + extra + 63
  {
    (len + extra + 63) / 32 * 32
  }

  class Buffer {
    var p: array<Byte>
    var len: nat
    var beginOffset: nat

    ghost predicate Valid()
      reads this
    {
      len <= p.Length
    }

    ghost function Contents(): seq<Byte>
      reads this, p
      requires Valid()
    {
      p[..len]
    }

    /** The first offset after the buffered window. */
    function End(): nat
      reads this
    {
      beginOffset + len
    }

    constructor ()
      ensures Valid() && len == 0 && beginOffset == 0 && fresh(p) && Contents() == []
    {
      p := new Byte[0];
      len := 0;
      beginOffset := 0;
    }

    /** `buf_clear`: drop the memory and start again at offset 0. */
    method Clear()
      modifies this
      ensures Valid() && Contents() == [] && len == 0 && beginOffset == 0 && fresh(p)
    {
      p := new Byte[0];
      len := 0;
      beginOffset := 0;
    }

    /** `buf_resize`: the contents move to a larger block. */
    method Resize(extra: nat)
      requires Valid()
      modifies this
      ensures Valid() && fresh(p) && p.Length == Capacity(old(len), extra)
      ensures Contents() == old(Contents()) && len == old(len) && beginOffset == old(beginOffset)
    {
      var size := Capacity(len, extra);
      var q := new Byte[size](_ => 0);
      forall i | 0 <= i < len {
        q[i] := p[i];
      }
      p := q;
    }

    /** `buf_add_mem`: append, growing only when the data does not fit. */
    method AddMem(data: seq<Byte>)
      requires Valid()
      modifies this, p
      ensures Valid() && Contents() == old(Contents()) + data
      ensures len == old(len) + |data| && beginOffset == old(beginOffset)
      ensures p == old(p) || fresh(p)
      ensures fresh(p) <==> old(len) + |data| > old(p.Length)
    {
      if len + |data| > p.Length {
        Resize(|data|);
      }
      label before:
      forall i | 0 <= i < |data| {
        p[len + i] := data[i];
      }
      assert p[..len] == old@before(p[..len]);
      len := len + |data|;
    }

    /** The `memcpy` of `n` bytes to a reader. */
    method Copy(from: nat, n: nat) returns (bytes: seq<Byte>)
      requires Valid() && from + n <= len
      ensures bytes == Contents()[from..from + n]
    {
      bytes := p[from..from + n];
    }

    /** The `memmove` that shrinks a read window: the first `n` bytes go, the rest moves to the
        front, and the window now starts `n` bytes later. */
    method DropFront(n: nat)
      requires Valid() && n <= len
      modifies this, p
      ensures Valid() && p == old(p) && Contents() == old(Contents())[n..]
      ensures len == old(len) - n && beginOffset == old(beginOffset) + n
    {
      forall i | 0 <= i < len - n {
        p[i] := p[n + i];
      }
      len := len - n;
      beginOffset := beginOffset + n;
    }
  }
}
