/** The growable, NUL-terminated byte buffer that accumulates the text of a stream. */
module GrowBuffer {
  import opened Bytes

  class Buffer {
    /** Capacity of the first allocation. */
    const firstCap: nat
    var data: array?<Byte>
    var len: nat

    ghost predicate Valid()
      reads this, data
    {
      && firstCap > 0
      && (data == null ==> len == 0)
      && (data != null ==> len < data.Length)
      && (len > 0 ==> data[len] == 0)
    }

    ghost function Contents(): (s: seq<Byte>)
      requires Valid()
      reads this, data
      ensures |s| == len
    {
      if data == null then [] else data[..len]
    }

    constructor (cap: nat)
      requires cap > 0
      ensures Valid() && Contents() == [] && data == null
    {
      firstCap, data, len := cap, null, 0;
    }

    /** Doubles the capacity until `add` more bytes and a terminating NUL fit, if `memory` allows. */
    method Grow(add: nat, memory: bool) returns (ok: bool)
      requires Valid()
      modifies this`data
      ensures Valid() && Contents() == old(Contents()) && len == old(len)
      ensures ok ==> data != null && len + add + 1 <= data.Length
      ensures data != old(data) ==> data != null && fresh(data)
      ensures !ok ==> data == old(data)
      ensures ok == (memory || old(data != null && len + add + 1 <= data.Length))
    {
      var cap := if data == null then 0 else data.Length;
      if len + add + 1 > cap {
        var grown := if cap == 0 then firstCap else cap;
        while grown < len + add + 1
          invariant grown > 0
          decreases len + add + 1 - grown
        {
          grown := grown * 2;
        }
        if !memory {
          return false;
        }
        var bigger := new Byte[grown](i => 0);
        if data != null {
          forall k | 0 <= k < len {
            bigger[k] := data[k];
          }
          assert bigger[..len] == data[..len];
        }
        data := bigger;
      }
      return true;
    }

    /** Appends, or leaves everything as it was; the byte after the contents is NUL. */
    method Add(bytes: seq<Byte>, memory: bool) returns (ok: bool)
      requires Valid()
      modifies this, data
      ensures Valid() && Contents() == if ok then old(Contents()) + bytes else old(Contents())
      ensures data != old(data) ==> data != null && fresh(data)
      ensures bytes == [] || !ok ==> data == old(data)
      ensures ok == (bytes == [] || memory || old(data != null && len + |bytes| + 1 <= data.Length))
    {
      if bytes == [] {
        return true;
      }
      ok := Grow(|bytes|, memory);
      if !ok {
        return;
      }
      var n := len;
      ghost var before := data[..n];
      forall k | 0 <= k < |bytes| {
        data[n + k] := bytes[k];
      }
      assert data[..n] == before;
      assert data[n..n + |bytes|] == bytes;
      len := n + |bytes|;
      data[len] := 0;
      assert data[..n] == before && data[n..len] == bytes;
      assert data[..len] == data[..n] + data[n..len];
    }

    /** AIRY_FREE and zeroed bookkeeping. */
    method Free()
      requires Valid()
      modifies this
      ensures Valid() && Contents() == [] && data == null
    {
      data, len := null, 0;
    }
  }
}
