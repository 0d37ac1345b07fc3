/** MirvInstance's lazy backend probing and physical-device aggregation (mirv.cpp). */
module Instances {
  import opened VkTypes
  import opened D3D12

  /** The probed backends that exist, in probe order. */
  function NonNull(probes: seq<Backend?>): (r: seq<Backend>)
    ensures |r| <= |probes|
    ensures forall i :: 0 <= i < |r| ==> r[i] in probes
    ensures forall i :: 0 <= i < |probes| && probes[i] != null ==> probes[i] in r
    ensures null !in probes ==> r == probes
  {
    if probes == [] then []
    else
      var last := probes[|probes| - 1];
      NonNull(probes[..|probes| - 1]) + if last != null then [last] else []
  }

  /** With only the D3D12 backend compiled in, the Metal and Vulkan probes return null and add
      nothing: the backends are the D3D12 one, if its factory could be made. */
  lemma StubBackendsAddNothing(d3d12: Backend?)
    ensures NonNull([d3d12, null, null]) == if d3d12 == null then [] else [d3d12]
  {
    NonNullOfThree(d3d12, null, null);
  }

  /** NonNull over three probes, spelled out. */
  lemma NonNullOfThree(a: Backend?, b: Backend?, c: Backend?)
    ensures NonNull([a, b, c]) ==
      (if a != null then [a] else []) + (if b != null then [b] else []) + (if c != null then [c] else [])
  {
    assert [a, b, c][..2] == [a, b];
    assert [a, b][..1] == [a];
    assert [a][..0] == [];
    assert NonNull([a]) == NonNull([]) + (if a != null then [a] else []);
  }

  /** Every physical device the backends enumerate, backend by backend in order. */
  function AllDevices(backends: seq<Backend>): seq<PhysicalDeviceInfo> {
    if backends == [] then []
    else AllDevices(backends[..|backends| - 1]) + BackendDevices(backends[|backends| - 1].adapters)
  }

  lemma {:induction false} InfosConcat(a: seq<PhysicalDevice>, b: seq<PhysicalDevice>)
    ensures Infos(a + b) == Infos(a) + Infos(b)
  {
    if b != [] {
      var b' := b[..|b| - 1];
      assert a + b == (a + b') + [b[|b| - 1]];
      InfosConcat(a, b');
      InfosAppend(a + b', b[|b| - 1]);
      InfosAppend(b', b[|b| - 1]);
      assert b == b' + [b[|b| - 1]];
    } else {
      assert a + b == a;
    }
  }

  /** A MirvInstance: its backends and the physical devices it tracks. */
  class Instance {
    var backends: seq<Backend>
    var physicalDevices: seq<PhysicalDevice>

    constructor ()
      ensures backends == [] && physicalDevices == []
    {
      backends, physicalDevices := [], [];
    }

    /** EnsureBackends: with no backend held, keeps the results of the D3D12, Metal and Vulkan
        constructors that are not null, in that order; with one or more, does nothing. The
        arguments are what the three constructors return on this call. */
    method EnsureBackends(d3d12: Backend?, metal: Backend?, vulkan: Backend?)
      modifies this`backends
      ensures backends == if |old(backends)| > 0 then old(backends) else NonNull([d3d12, metal, vulkan])
    {
      if |backends| > 0 {
        return;
      }
      NonNullOfThree(d3d12, metal, vulkan);
      if d3d12 != null {
        backends := backends + [d3d12];
      }
      if metal != null {
        backends := backends + [metal];
      }
      if vulkan != null {
        backends := backends + [vulkan];
      }
    }

    /** The inner loop of EnsurePhysicalDevices: tracks each of `pds`, in order. */
    method TrackEach(pds: seq<PhysicalDevice>)
      modifies this`physicalDevices
      ensures physicalDevices == old(physicalDevices) + pds
    {
      var j := 0;
      while j < |pds|
        invariant 0 <= j <= |pds|
        invariant physicalDevices == old(physicalDevices) + pds[..j]
      {
        assert pds[..j + 1] == pds[..j] + [pds[j]];
        physicalDevices := physicalDevices + [pds[j]];
        j := j + 1;
      }
      assert pds[..j] == pds;
    }

    /** EnsurePhysicalDevices: with no physical device tracked, ensures the backends and tracks
        every device each backend enumerates, backend by backend; otherwise does nothing. */
    method EnsurePhysicalDevices(d3d12: Backend?, metal: Backend?, vulkan: Backend?)
      modifies this`backends, this`physicalDevices
      ensures |old(physicalDevices)| > 0 ==>
        backends == old(backends) && physicalDevices == old(physicalDevices)
      ensures |old(physicalDevices)| == 0 ==>
        && backends == (if |old(backends)| > 0 then old(backends) else NonNull([d3d12, metal, vulkan]))
        && Infos(physicalDevices) == AllDevices(backends)
      ensures forall p :: p in physicalDevices ==> p in old(physicalDevices) || fresh(p)
    {
      if |physicalDevices| > 0 {
        return;
      }
      EnsureBackends(d3d12, metal, vulkan);
      var bs := backends;
      var i := 0;
      while i < |bs|
        invariant 0 <= i <= |bs|
        invariant backends == bs
        invariant Infos(physicalDevices) == AllDevices(bs[..i])
        invariant forall p :: p in physicalDevices ==> fresh(p)
      {
        assert bs[..i + 1][..i] == bs[..i];
        var pds := bs[i].EnumeratePhysicalDevices();
        InfosConcat(physicalDevices, pds);
        TrackEach(pds);
        i := i + 1;
      }
      assert bs[..i] == bs;
    }
  }
}
