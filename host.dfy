/** Types shared by every part of the model: native addresses, the integer
    widths the C# code uses, the rendering-event payload and the faults that the
    host runtime raises. */
module Host {

  /** A native address (IntPtr or void*). Zero is IntPtr.Zero, the "not ready"
      and "nothing to upload" sentinel. */
  type Ptr = nat

  const Null: Ptr := 0

  const UShortModulus: nat := 0x1_0000
  const UIntModulus: nat := 0x1_0000_0000

  /** A renderer id: a C# ushort. */
  type Id = x: nat | x < 0x1_0000

  /** A C# uint. */
  type UInt = x: nat | x < 0x1_0000_0000

  /** A texture dimension: a non-negative C# int. */
  type Size = x: nat | x < 0x8000_0000

  /** The C# cast (ushort)x of a uint: the low 16 bits. */
  function ToUShort(x: UInt): Id
  {
    x % UShortModulus
  }

  datatype Option<T> = None | Some(value: T)

  /** The texture-update events of the host's native-plugin interface that the
      core distinguishes; every other event id is OtherEvent. */
  datatype RenderingEvent =
    | UpdateTextureBeginV2
    | UpdateTextureEndV2
    | OtherEvent(code: int)

  /** The fields of the host's texture-update parameter struct that the core
      reads or writes. */
  datatype UpdateParams = UpdateParams(texData: Ptr, width: UInt, height: UInt, bpp: UInt, userData: UInt)

  /** A block of native memory holding one parameter struct; the callbacks
      receive it by address and write texData through it. */
  class ParamsBlock {
    var value: UpdateParams

    constructor (v: UpdateParams)
      ensures value == v
    {
      value := v;
    }
  }

  /** Calls the background thread makes into code outside the core. */
  datatype ThreadCall =
    | RawFill(data: Ptr, width: Size, height: Size, bytesPerPixel: nat)
    | CustomUpdate(eventId: RenderingEvent, params: UpdateParams)
    | Sleep(milliseconds: nat)

  /** The sleep that follows an iteration, if any. */
  function SleepCalls(milliseconds: nat): seq<ThreadCall>
  {
    if milliseconds > 0 then [Sleep(milliseconds)] else []
  }

  /** What a raw fill callback does with the buffer it is given: it writes one
      frame of pixels. */
  method Fill(buffer: array<UInt>, pixels: seq<UInt>)
    requires |pixels| == buffer.Length
    modifies buffer
    ensures buffer[..] == pixels
  {
    forall j | 0 <= j < buffer.Length {
      buffer[j] := pixels[j];
    }
  }

  /** Texture formats of a Texture2D that the core tests for. */
  datatype TextureFormat = RGBA32 | OtherTextureFormat(code: int)

  /** Formats of a RenderTexture that the core tests for. */
  datatype RenderTextureFormat = ARGB32 | OtherRenderTextureFormat(code: int)

  /** A texture object's identity-free description: its size and format. */
  datatype Texture = Texture(width: nat, height: nat, format: TextureFormat)

  /** Exceptions the runtime raises in the modelled code paths. */
  datatype Fault =
    | NullReference    // a member called through a null reference
    | InvalidHandle    // GCHandle.Free on a handle that is not allocated

  /** How a call ended: normally, or by an exception (whose earlier effects stay). */
  datatype Outcome = Completed | Threw(fault: Fault)
}
