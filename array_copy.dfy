/** The two-phase "query the count, then fill the buffer" copy behind every enumeration
    entrypoint (VulkanArrayCopyMeme in mirv.h). */
module ArrayCopy {
  import opened VkTypes

  /** Copies `src` out through the pair (*out_count, out_begin). `count` is the value of
      *out_count on entry (the buffer's capacity when a buffer is given) and `outCount` its
      value on return; a null `out` asks only for the count. The caller promises that a
      buffer holds at least `count` elements. */
  method CopyOut<T>(src: seq<T>, count: uint32, out: array?<T>) returns (res: VkResult, outCount: uint32)
    requires out != null ==> count <= out.Length
    modifies out
    ensures out == null ==> res == Success && outCount == |src| % 0x1_0000_0000
    ensures out != null && count < |src| ==> res == Incomplete && outCount == count
    ensures out != null && |src| <= count ==> res == Success && outCount == |src|
    ensures out != null ==> forall k :: 0 <= k < outCount ==> out[k] == src[k]
    ensures out != null ==> forall k :: outCount <= k < out.Length ==> out[k] == old(out[k])
  {
    if out == null {
      // the size_t to uint32_t cast keeps the low 32 bits
      return Success, |src| % 0x1_0000_0000;
    }
    if count < |src| {
      res, outCount := Incomplete, count;
    } else {
      res, outCount := Success, |src|;
    }
    var i := 0;
    while i < outCount
      invariant 0 <= i <= outCount
      invariant forall k :: 0 <= k < i ==> out[k] == src[k]
      invariant forall k :: i <= k < out.Length ==> out[k] == old(out[k])
    {
      out[i] := src[i];
      i := i + 1;
    }
  }
}
