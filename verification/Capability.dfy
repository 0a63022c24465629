/** V4L2 capability words as the coordinator and the discoverer read them
    (v4l2_camera_discoverer.go). The ioctl that fills them is an oracle. */
module Capability {
  import opened Events

  const V4L2_CAP_VIDEO_CAPTURE: bv32 := 0x0000_0001
  const V4L2_CAP_DEVICE_CAPS: bv32 := 0x8000_0000

  datatype V4L2Capability = V4L2Capability(
    card: seq<u8>, busInfo: seq<u8>, capabilities: bv32, deviceCaps: bv32)

  /** What V4L2DeviceCapability returns: an error, or a capability record. */
  datatype QueryResult = QueryFailed | Queried(capability: V4L2Capability)

  predicate Meets(word: bv32, mask: bv32) {
    word & mask != 0
  }

  /** The mask meets the per-device word when the driver supplies one, and the
      per-driver word otherwise. */
  predicate Offers(c: V4L2Capability, mask: bv32) {
    if Meets(c.capabilities, V4L2_CAP_DEVICE_CAPS) then Meets(c.deviceCaps, mask) else Meets(c.capabilities, mask)
  }

  /** Every requested mask is offered; asking for nothing is refused. */
  predicate HasAll(c: V4L2Capability, caps: seq<bv32>) {
    caps != [] && forall k :: 0 <= k < |caps| ==> Offers(c, caps[k])
  }

  predicate IsCapture(c: V4L2Capability) {
    HasAll(c, [V4L2_CAP_VIDEO_CAPTURE])
  }

  lemma OffersOnFields(c: V4L2Capability, mask: bv32)
    ensures c.capabilities & 0x8000_0000 != 0 ==> (Offers(c, mask) <==> c.deviceCaps & mask != 0)
    ensures c.capabilities & 0x8000_0000 == 0 ==> (Offers(c, mask) <==> c.capabilities & mask != 0)
  {
  }

  /** On the fields: with bit 31 of the per-driver word set only the per-device word
      counts, and with it clear only the per-driver word does. */
  lemma HasAllOnFields(c: V4L2Capability, mask: bv32)
    ensures c.capabilities & 0x8000_0000 != 0 ==> (HasAll(c, [mask]) <==> c.deviceCaps & mask != 0)
    ensures c.capabilities & 0x8000_0000 == 0 ==> (HasAll(c, [mask]) <==> c.capabilities & mask != 0)
  {
    assert HasAll(c, [mask]) <==> Offers(c, mask) by {
      assert [mask][0] == mask;
    }
    OffersOnFields(c, mask);
  }

  /** Several masks are each asked for alone, and no mask is refused. */
  lemma HasAllIsEach(c: V4L2Capability, caps: seq<bv32>)
    ensures HasAll(c, caps) <==> caps != [] && forall k :: 0 <= k < |caps| ==> HasAll(c, [caps[k]])
  {
    forall k | 0 <= k < |caps| ensures HasAll(c, [caps[k]]) <==> Offers(c, caps[k]) {
      assert [caps[k]][0] == caps[k];
    }
  }

  /** Video capture is bit 0. */
  lemma CaptureOnFields(c: V4L2Capability)
    ensures c.capabilities & 0x8000_0000 != 0 ==> (IsCapture(c) <==> c.deviceCaps & 0x1 != 0)
    ensures c.capabilities & 0x8000_0000 == 0 ==> (IsCapture(c) <==> c.capabilities & 0x1 != 0)
  {
    HasAllOnFields(c, 0x1);
  }

  /** True exactly when something is asked for and each mask, asked for alone, is
      had; HasAllOnFields says when one mask is. */
  method HasCapabilities(c: V4L2Capability, caps: seq<bv32>) returns (ok: bool)
    ensures ok == HasAll(c, caps)
    ensures ok <==> caps != [] && forall k :: 0 <= k < |caps| ==> HasAll(c, [caps[k]])
  {
    HasAllIsEach(c, caps);
    if |caps| == 0 {
      return false;
    }
    var effectiveCaps := c.capabilities;
    if Meets(c.capabilities, V4L2_CAP_DEVICE_CAPS) {
      effectiveCaps := c.deviceCaps;
    }
    for k := 0 to |caps|
      invariant forall j :: 0 <= j < k ==> Meets(effectiveCaps, caps[j])
    {
      if !Meets(effectiveCaps, caps[k]) {
        return false;
      }
    }
    return true;
  }
}
