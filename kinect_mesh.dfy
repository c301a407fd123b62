/**
 * The Kinect mesh pipeline's own state: its fixed scan extents, the host
 * scan buffer sized from them, and the buffer-generation callback whose
 * presence decides whether the pipeline is usable.
 */
module KinectMesh {
  import opened Common

  /** `kDefaultScanExtents`. */
  const DEFAULT_SCAN_EXTENTS: Extent2D := Extent2D(512, 512)

  /** A `glm::vec4` of the scan buffer. */
  datatype Vec4 = Vec4(x: real, y: real, z: real, w: real)

  /** `BufferGenFunc`: an empty `std::function`, or a callable known by its identity. */
  datatype BufferGenFunc = Empty | Callable(id: nat)

  /** `sizeof(glm::vec4)`. */
  const VEC4_BYTES: nat := 16

  class KinectMeshPipeline {
    /** `m_scanExtents`: a `const` member initialised from the defaults. */
    const scanExtents: Extent2D := DEFAULT_SCAN_EXTENTS
    /** `m_scanBuffer`. */
    var scanBuffer: seq<Vec4>
    /** `m_bufferGenCb`. */
    var bufferGenCb: BufferGenFunc

    /** Default construction: default extents, a zeroed scan buffer of width × height points, no callback. */
    constructor ()
      ensures scanExtents == DEFAULT_SCAN_EXTENTS
      ensures |scanBuffer| == scanExtents.width * scanExtents.height
      ensures forall i :: 0 <= i < |scanBuffer| ==> scanBuffer[i] == Vec4(0.0, 0.0, 0.0, 0.0)
      ensures bufferGenCb == Empty
    {
      scanBuffer := seq(DEFAULT_SCAN_EXTENTS.width * DEFAULT_SCAN_EXTENTS.height, _ => Vec4(0.0, 0.0, 0.0, 0.0));
      bufferGenCb := Empty;
    }

    /** `IsValid`: both scan dimensions are non-zero and a callback is installed. */
    predicate IsValid()
      reads this
    {
      scanExtents.width != 0 && scanExtents.height != 0 && bufferGenCb.Callable?
    }

    /** `GetScanExtents`. */
    function GetScanExtents(): (e: Extent2D)
      reads this
      ensures e == DEFAULT_SCAN_EXTENTS && e.width * e.height == 262_144
    {
      scanExtents
    }

    /** `SetupBufferCallback`: installs the callback and changes nothing else. */
    method SetupBufferCallback(cb: BufferGenFunc)
      modifies this
      ensures bufferGenCb == cb
      ensures scanBuffer == old(scanBuffer)
    {
      bufferGenCb := cb;
    }

    /**
     * The byte size of the scan vertex buffer created in `SetupVertexShader`:
     * three `vec4` vertices for every point of the host scan buffer.
     */
    function ScanBufferBytes(): (b: nat)
      requires |scanBuffer| == scanExtents.width * scanExtents.height
      reads this
      ensures b == VEC4_BYTES * 3 * |scanBuffer|
      ensures b == 12_582_912
    {
      VEC4_BYTES * scanExtents.width * scanExtents.height * 3
    }
  }

  /**
   * With the default extents, validity depends on the callback alone: a
   * freshly built pipeline is not valid, and installing a non-empty
   * callback makes it valid.
   */
  method ValidityFollowsCallback(cb: BufferGenFunc) returns (before: bool, after: bool)
    ensures !before
    ensures after <==> cb.Callable?
  {
    var mesh := new KinectMeshPipeline();
    before := mesh.IsValid();
    mesh.SetupBufferCallback(cb);
    after := mesh.IsValid();
  }
}
