/** The value types that travel through the pipeline: event types, camera
    events and the C strings inside kernel and driver records. */
module Events {

  newtype u8 = n: int | 0 <= n < 0x100
  newtype u32 = n: int | 0 <= n < 0x1_0000_0000

  datatype Option<+T> = None | Some(value: T)

  const RECORDING_ON: u32 := 1
  const RECORDING_OFF: u32 := 2

  datatype CameraEvent = CameraEvent(
    detector: string, kind: u32, videoDevice: string, card: string, busInfo: string)

  /** The bytes up to the first NUL, or all of them when there is none. */
  function CString(bytes: seq<u8>): seq<u8> {
    if bytes == [] || bytes[0] == 0 then [] else [bytes[0]] + CString(bytes[1..])
  }

  /** A Go string holding these bytes; each char stands for one byte. */
  function GoString(bytes: seq<u8>): string {
    seq(|bytes|, i requires 0 <= i < |bytes| => bytes[i] as char)
  }

  /** unix.ByteSliceToString. */
  function ByteSliceToString(bytes: seq<u8>): string {
    GoString(CString(bytes))
  }

  /** The string has one char for each byte before the first NUL, in order. */
  lemma {:induction false} StringChars(bytes: seq<u8>)
    ensures var s := ByteSliceToString(bytes);
            && |s| <= |bytes| && (|s| < |bytes| ==> bytes[|s|] == 0)
            && forall i :: 0 <= i < |s| ==> bytes[i] != 0 && s[i] == bytes[i] as char
  {
    if bytes != [] && bytes[0] != 0 {
      StringChars(bytes[1..]);
      var s := ByteSliceToString(bytes);
      assert |s| == 1 + |ByteSliceToString(bytes[1..])|;
      forall i | 0 < i < |s| ensures bytes[i] != 0 && s[i] == bytes[i] as char {
        assert s[i] == ByteSliceToString(bytes[1..])[i - 1];
      }
    }
  }

  lemma GoStringInjective(a: seq<u8>, b: seq<u8>)
    requires GoString(a) == GoString(b)
    ensures a == b
  {
    assert |a| == |GoString(a)| == |b|;
    forall i | 0 <= i < |a| ensures a[i] == b[i] {
      assert GoString(a)[i] == GoString(b)[i];
    }
  }
}
