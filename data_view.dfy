/** `sg::DataView`: a window `[offset, offset + size)` onto a shared byte buffer. */
module DataViews {
  import opened Vk

  /** The shared `std::vector<uint8_t>` is held as its contents. */
  datatype DataView = DataView(raw: seq<byte>, offset: nat, size: nat)

  /** The window lies inside the buffer. */
  predicate InBounds(v: DataView) {
    v.offset + v.size <= |v.raw|
  }

  /** The bytes a view stands for. */
  function Viewed(v: DataView): (bytes: seq<byte>)
    requires InBounds(v)
    ensures |bytes| == v.size
  {
    v.raw[v.offset..v.offset + v.size]
  }

  /** `from_memory`: takes the bytes over and views all of them. */
  function FromMemory(data: seq<byte>): (v: DataView)
    ensures v.offset == 0 && v.size == |data| && v.raw == data
    ensures InBounds(v) && v.offset + v.size == |v.raw|
  {
    DataView(data, 0, |data|)
  }

  /** Viewing what `from_memory` built gives back exactly the input bytes. */
  lemma FromMemoryRoundTrip(data: seq<byte>)
    ensures Viewed(FromMemory(data)) == data
  {
    assert data[0..|data|] == data;
  }
}
