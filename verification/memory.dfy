/** A resizable block of memory. */
module Memory {
  import opened Pattern

  class MemBlock {
    var data: array<byte>
    var size: nat

    /** The bytes in use never exceed the bytes allocated. */
    ghost predicate Valid()
      reads this
    {
      size <= data.Length
    }

    ghost function Contents(): seq<byte>
      reads this, data
      requires Valid()
    {
      data[..size]
    }

    constructor (capacity: nat)
      ensures Valid() && size == 0 && data.Length == capacity && fresh(data)
    {
      data := new byte[capacity];
      size := 0;
    }

    /** Makes `newSize` bytes available; the memory is replaced only when it is too small. */
    method Resize(newSize: nat)
      requires Valid()
      modifies this
      ensures Valid() && size == newSize
      ensures newSize <= old(data.Length) ==> data == old(data)
      ensures newSize > old(data.Length) ==> fresh(data) && data.Length == newSize
    {
      if data.Length < newSize {
        data := new byte[newSize];
      }
      size := newSize;
    }
  }
}
