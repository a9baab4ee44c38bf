// RenderTargetBinding: which render target, which slice of it, and the
// depth format the device must provide when the binding is set.

module RenderTargets {
  import opened Wrappers

  datatype DepthFormat = NoDepth | Depth16 | Depth24 | Depth24Stencil8

  // CubeMapFace values; a face is an int because any int can be cast to the enum.
  const POSITIVE_X: int := 0
  const NEGATIVE_X: int := 1
  const POSITIVE_Y: int := 2
  const NEGATIVE_Y: int := 3
  const POSITIVE_Z: int := 4
  const NEGATIVE_Z: int := 5

  /** A 2D render target: its array size and whether its device supports texture arrays. */
  datatype RenderTarget2D = RenderTarget2D(id: nat, arraySize: int, depthStencilFormat: DepthFormat, supportsTextureArrays: bool)
  datatype RenderTargetCube = RenderTargetCube(id: nat, depthStencilFormat: DepthFormat)
  datatype RenderTarget3D = RenderTarget3D(id: nat, depth: int, depthStencilFormat: DepthFormat)

  /** The texture a binding refers to. */
  datatype Texture = Texture2D(t2: RenderTarget2D) | TextureCube(tc: RenderTargetCube) | Texture3D(t3: RenderTarget3D)

  datatype Binding = Binding(renderTarget: Texture, arraySlice: int, depthFormat: DepthFormat)

  function DepthStencilFormat(t: Texture): DepthFormat {
    match t
    case Texture2D(r) => r.depthStencilFormat
    case TextureCube(r) => r.depthStencilFormat
    case Texture3D(r) => r.depthStencilFormat
  }

  /**
   * The slices a target has: a 2D target slice 0, or one per array element;
   * a cube target one per face; a 3D target slice 0, or one per depth layer.
   */
  predicate AddressesSlice(t: Texture, slice: int) {
    match t
    case Texture2D(r) => slice == 0 || 0 <= slice < r.arraySize
    case TextureCube(_) => POSITIVE_X <= slice <= NEGATIVE_Z
    case Texture3D(r) => slice == 0 || 0 <= slice < r.depth
  }

  /** What every constructor guarantees of the binding it builds. */
  predicate WellFormed(b: Binding) {
    && AddressesSlice(b.renderTarget, b.arraySlice)
    && b.depthFormat == DepthStencilFormat(b.renderTarget)
  }

  /** Binding a whole 2D target: slice PositiveX, which is 0. Null is rejected. */
  function BindTarget2D(renderTarget: Option<RenderTarget2D>): (r: Result<Binding, Exception>)
    ensures renderTarget.None? <==> r == Failure(ArgumentNullException)
    ensures r.Success? ==> r.value == Binding(Texture2D(renderTarget.value), 0, renderTarget.value.depthStencilFormat)
  {
    if renderTarget.None? then Failure(ArgumentNullException)
    else Success(Binding(Texture2D(renderTarget.value), POSITIVE_X, renderTarget.value.depthStencilFormat))
  }

  /** Binding one face of a cube target; a value outside PositiveX..NegativeZ is out of range. */
  function BindCubeFace(renderTarget: Option<RenderTargetCube>, cubeMapFace: int): (r: Result<Binding, Exception>)
    ensures renderTarget.None? ==> r == Failure(ArgumentNullException)
    ensures renderTarget.Some? ==>
      (r == Failure(ArgumentOutOfRangeException) <==> cubeMapFace < POSITIVE_X || NEGATIVE_Z < cubeMapFace)
    ensures r.Success? ==> r.value == Binding(TextureCube(renderTarget.value), cubeMapFace, renderTarget.value.depthStencilFormat)
  {
    if renderTarget.None? then Failure(ArgumentNullException)
    else if cubeMapFace < POSITIVE_X || cubeMapFace > NEGATIVE_Z then Failure(ArgumentOutOfRangeException)
    else Success(Binding(TextureCube(renderTarget.value), cubeMapFace, renderTarget.value.depthStencilFormat))
  }

  /**
   * Binding one slice of a 2D texture array (a DirectX-only constructor):
   * the slice must lie in [0, ArraySize), and only then is the device asked
   * whether it supports texture arrays.
   */
  function BindArraySlice(renderTarget: Option<RenderTarget2D>, arraySlice: int): (r: Result<Binding, Exception>)
    ensures renderTarget.None? ==> r == Failure(ArgumentNullException)
    ensures renderTarget.Some? ==>
      (r == Failure(ArgumentOutOfRangeException) <==> arraySlice < 0 || renderTarget.value.arraySize <= arraySlice)
    ensures renderTarget.Some? && 0 <= arraySlice < renderTarget.value.arraySize ==>
      (r == Failure(InvalidOperationException) <==> !renderTarget.value.supportsTextureArrays)
    ensures r.Success? ==> r.value == Binding(Texture2D(renderTarget.value), arraySlice, renderTarget.value.depthStencilFormat)
  {
    if renderTarget.None? then Failure(ArgumentNullException)
    else if arraySlice < 0 || arraySlice >= renderTarget.value.arraySize then Failure(ArgumentOutOfRangeException)
    else if !renderTarget.value.supportsTextureArrays then Failure(InvalidOperationException)
    else Success(Binding(Texture2D(renderTarget.value), arraySlice, renderTarget.value.depthStencilFormat))
  }

  /** Binding a whole 3D target (DirectX only): slice 0, with no check against its depth. */
  function BindTarget3D(renderTarget: Option<RenderTarget3D>): (r: Result<Binding, Exception>)
    ensures renderTarget.None? <==> r == Failure(ArgumentNullException)
    ensures r.Success? ==> r.value == Binding(Texture3D(renderTarget.value), 0, renderTarget.value.depthStencilFormat)
  {
    if renderTarget.None? then Failure(ArgumentNullException)
    else Success(Binding(Texture3D(renderTarget.value), 0, renderTarget.value.depthStencilFormat))
  }

  /** Binding one depth slice of a 3D target (DirectX only): the slice must lie in [0, Depth). */
  function BindDepthSlice(renderTarget: Option<RenderTarget3D>, arraySlice: int): (r: Result<Binding, Exception>)
    ensures renderTarget.None? ==> r == Failure(ArgumentNullException)
    ensures renderTarget.Some? ==>
      (r == Failure(ArgumentOutOfRangeException) <==> arraySlice < 0 || renderTarget.value.depth <= arraySlice)
    ensures r.Success? ==> r.value == Binding(Texture3D(renderTarget.value), arraySlice, renderTarget.value.depthStencilFormat)
  {
    if renderTarget.None? then Failure(ArgumentNullException)
    else if arraySlice < 0 || arraySlice >= renderTarget.value.depth then Failure(ArgumentOutOfRangeException)
    else Success(Binding(Texture3D(renderTarget.value), arraySlice, renderTarget.value.depthStencilFormat))
  }

  /** The implicit conversions from a 2D and a 3D target. */
  function FromTarget2D(renderTarget: Option<RenderTarget2D>): Result<Binding, Exception> {
    BindTarget2D(renderTarget)
  }

  function FromTarget3D(renderTarget: Option<RenderTarget3D>): Result<Binding, Exception> {
    BindTarget3D(renderTarget)
  }

  /**
   * Every binding a constructor or conversion builds names a slice its target
   * has and carries its target's depth format; each constructor fails on null.
   */
  lemma BindingsAreWellFormed(t2: Option<RenderTarget2D>, tc: Option<RenderTargetCube>, t3: Option<RenderTarget3D>,
                              face: int, slice: int)
    ensures forall r :: r in {BindTarget2D(t2), BindCubeFace(tc, face), BindArraySlice(t2, slice),
                              BindTarget3D(t3), BindDepthSlice(t3, slice), FromTarget2D(t2), FromTarget3D(t3)} ==>
      r.Success? ==> WellFormed(r.value)
    ensures t2.None? ==> BindTarget2D(t2) == BindArraySlice(t2, slice) == FromTarget2D(t2) == Failure(ArgumentNullException)
    ensures tc.None? ==> BindCubeFace(tc, face) == Failure(ArgumentNullException)
    ensures t3.None? ==> BindTarget3D(t3) == BindDepthSlice(t3, slice) == FromTarget3D(t3) == Failure(ArgumentNullException)
  {
  }

  /**
   * The slice-less constructors agree with binding slice 0, except that they
   * skip the checks: a whole 3D target of depth 0 still binds, and a whole 2D
   * target binds on a device without texture arrays.
   */
  lemma WholeTargetIsSliceZero(t2: RenderTarget2D, t3: RenderTarget3D)
    ensures t2.arraySize > 0 && t2.supportsTextureArrays ==> BindTarget2D(Some(t2)) == BindArraySlice(Some(t2), 0)
    ensures t3.depth > 0 ==> BindTarget3D(Some(t3)) == BindDepthSlice(Some(t3), 0)
    ensures t3.depth <= 0 ==> BindTarget3D(Some(t3)).Success? && BindDepthSlice(Some(t3), 0) == Failure(ArgumentOutOfRangeException)
    ensures !t2.supportsTextureArrays ==> BindTarget2D(Some(t2)).Success? && BindArraySlice(Some(t2), 0).Failure?
  {
  }
}
