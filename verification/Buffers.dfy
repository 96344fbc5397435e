/**
 The growable buffers of src/crypto.c. A buffer's capacity is the length of its data; its content
 is the len bytes from idx.
 */
module Buffers {
  import opened Bytes

  /** CRYPTO_OK, CRYPTO_NEED_MORE and CRYPTO_ERROR. */
  datatype Status = OK | NeedMore | Error

  function Max(a: nat, b: nat): nat {
    if a > b then a else b
  }

  class Buffer {
    var data: seq<byte>
    var len: nat
    var idx: nat

    predicate Valid()
      reads this
    {
      idx + len <= |data|
    }

    function Content(): seq<byte>
      requires Valid()
      reads this
    {
      data[idx..idx + len]
    }

    /** balloc */
    constructor (capacity: nat)
      ensures Valid() && len == 0 && idx == 0 && |data| == capacity
    {
      data := seq(capacity, _ => 0);
      len, idx := 0, 0;
    }

    /** brealloc: the bytes already there stay, and at least n fit. */
    method Realloc(n: nat, capacity: nat)
      modifies `data
      ensures old(data) <= data && |data| >= n && |data| >= capacity
    {
      var wanted := Max(n, capacity);
      if |data| < wanted {
        data := data + seq(wanted - |data|, _ => 0);
      }
    }

    /** memcpy or memmove of src to offset at; the requires is that it stays inside the allocation. */
    method Write(at: nat, src: seq<byte>)
      requires at + |src| <= |data|
      modifies `data
      ensures |data| == |old(data)|
      ensures data[..at + |src|] == old(data[..at]) + src
      ensures data[at + |src|..] == old(data[at + |src|..])
    {
      data := data[..at] + src + data[at + |src|..];
    }

    /** Move the first n bytes up by |src| and copy src below them. */
    method PushFront(src: seq<byte>, n: nat, capacity: nat)
      requires n <= |data|
      modifies `data
      ensures |src| + n <= |data| && data[..|src| + n] == src + old(data[..n])
    {
      ghost var was := data[..n];
      Realloc(n + |src|, capacity);
      Write(|src|, data[..n]);
      assert data[|src|..|src| + n] == data[..|src| + n][|src|..] == was;
      ghost var upper := data[|src|..];
      Write(0, src);
      assert data[|src|..] == upper;
      assert data[..|src| + n] == data[..|src|] + data[|src|..][..n];
    }

    /** bprepend: src is put in front of this buffer, which is at offset zero. */
    method Prepend(src: Buffer, capacity: nat)
      requires src != this && idx == 0 && Valid() && src.len <= |src.data|
      modifies `data, `len
      ensures Valid() && Content() == src.data[..src.len] + old(Content())
    {
      PushFront(src.data[..src.len], len, capacity);
      len := len + src.len;
    }
  }

  /** bswap_data: exchange the allocations, not the lengths. */
  method SwapData(a: Buffer, b: Buffer)
    requires a != b
    modifies a`data, b`data
    ensures a.data == old(b.data) && b.data == old(a.data)
  {
    a.data, b.data := b.data, a.data;
  }
}
