/**
 * The uniform flags of `WorldMaterial` (`WorldMaterialFlags` and
 * `as_bind_group_shader_type`): a 32-bit word whose bits 0-3 say which
 * textures are present and whose top three bits hold the alpha-mode code.
 * Colours are converted to linear floats by the engine and are not
 * modelled; the mask cutoff is carried as an opaque real.
 */
module Material {
  import opened Common

  /** `ALPHA_MODE_MASK_BITS`, binary 111: three bits of alpha-mode code. */
  const AlphaModeMaskBits: bv32 := 7

  /** The number of set bits among the lowest `k` bits of `b` (`count_ones` when `k` is 32). */
  function CountOnes(b: bv32, k: nat): (n: nat)
    ensures n <= k
  {
    if k == 0 then 0
    else (if b & 1 == 1 then 1 else 0) + CountOnes(b >> 1, k - 1)
  }

  /**
   * `ALPHA_MODE_SHIFT_BITS`: the mode code sits in the top bits of the word.
   * The source computes it as 32 minus the mask's population count;
   * `ShiftIsPopcount` shows that this is 29.
   */
  const AlphaModeShiftBits: bv32 := 29

  const BaseColorTexture: bv32 := 1 << 0
  const NormalTexture: bv32 := 1 << 1
  const EmissiveTexture: bv32 := 1 << 2
  const LightingTexture: bv32 := 1 << 3

  /** `ALPHA_MODE_RESERVED_BITS`. */
  const AlphaModeReservedBits: bv32 := AlphaModeMaskBits << AlphaModeShiftBits

  /** `NONE`. */
  const NoFlags: bv32 := 0

  /** The shift is the number of bits the three-bit mask leaves free in a 32-bit word. */
  lemma ShiftIsPopcount()
    ensures 32 - CountOnes(AlphaModeMaskBits, 32) == AlphaModeShiftBits as int
  {
    NoOnes(29);
    assert CountOnes(AlphaModeMaskBits, 32) == 3 + CountOnes(0, 29);
  }

  /** The reserved bits are the top three, clear of every texture flag. */
  lemma ReservedBits()
    ensures AlphaModeReservedBits == 0xE000_0000
    ensures (BaseColorTexture | NormalTexture | EmissiveTexture | LightingTexture) & AlphaModeReservedBits == 0
  {
  }

  /** A zero word has no set bits. */
  lemma {:induction false} NoOnes(k: nat)
    ensures CountOnes(0, k) == 0
  {
    if k > 0 {
      NoOnes(k - 1);
    }
  }

  /** Bevy's `AlphaMode`; the mask cutoff is an `f32` in the source. */
  datatype AlphaMode = Opaque | Mask(cutoff: real) | Blend | Premultiplied | Add | Multiply

  /** The alpha-mode code written to the reserved bits. */
  function ModeCode(m: AlphaMode): (c: bv32)
    ensures c <= AlphaModeMaskBits
  {
    match m
    case Opaque => 0
    case Mask(_) => 1
    case Blend => 2
    case Premultiplied => 3
    case Add => 4
    case Multiply => 5
  }

  /** `ALPHA_MODE_OPAQUE` ... `ALPHA_MODE_MULTIPLY`: the code shifted into place. */
  function ModeFlag(m: AlphaMode): bv32
  {
    ModeCode(m) << AlphaModeShiftBits
  }

  /** An image handle; only its presence matters here. */
  type Handle = nat

  /** The fields of `WorldMaterial` that reach the flags and the cutoff. */
  datatype WorldMaterial = WorldMaterial(
    baseColorTexture: Option<Handle>,
    normalTexture: Option<Handle>,
    emissiveTexture: Option<Handle>,
    lightingTexture: Option<Handle>,
    alphaMode: AlphaMode)

  /** `WorldMaterial::default()`: no textures, opaque. */
  const DefaultMaterial: WorldMaterial := WorldMaterial(None, None, None, None, Opaque)

  /** `WorldMaterialUniform` without its colours. */
  datatype MaterialUniform = MaterialUniform(flags: bv32, alphaCutoff: real)

  /** One flag if the texture is present, nothing otherwise. */
  function Presence(t: Option<Handle>, flag: bv32): bv32
  {
    if t.Some? then flag else 0
  }

  /** The flags word of a material. */
  function Flags(mat: WorldMaterial): bv32
  {
    Presence(mat.baseColorTexture, BaseColorTexture)
      | Presence(mat.normalTexture, NormalTexture)
      | Presence(mat.emissiveTexture, EmissiveTexture)
      | Presence(mat.lightingTexture, LightingTexture)
      | ModeFlag(mat.alphaMode)
  }

  /** The alpha cutoff: the mask's own for `Mask`, one half otherwise. */
  function Cutoff(m: AlphaMode): real
  {
    if m.Mask? then m.cutoff else 0.5
  }

  /**
   * `as_bind_group_shader_type`, flags and cutoff: a texture flag is or-ed
   * in for every present texture, then the alpha mode's flag, and a mask
   * replaces the default cutoff.
   */
  method AsBindGroupShaderType(mat: WorldMaterial) returns (u: MaterialUniform)
    ensures u.flags == Flags(mat)
    ensures u.alphaCutoff == Cutoff(mat.alphaMode)
  {
    var flags := NoFlags;
    if mat.baseColorTexture.Some? {
      flags := flags | BaseColorTexture;
    }
    if mat.normalTexture.Some? {
      flags := flags | NormalTexture;
    }
    if mat.emissiveTexture.Some? {
      flags := flags | EmissiveTexture;
    }
    if mat.lightingTexture.Some? {
      flags := flags | LightingTexture;
    }
    var alphaCutoff := 0.5;
    match mat.alphaMode {
      case Opaque => flags := flags | ModeFlag(Opaque);
      case Mask(c) =>
        alphaCutoff := c;
        flags := flags | ModeFlag(Mask(c));
      case Blend => flags := flags | ModeFlag(Blend);
      case Premultiplied => flags := flags | ModeFlag(Premultiplied);
      case Add => flags := flags | ModeFlag(Add);
      case Multiply => flags := flags | ModeFlag(Multiply);
    }
    u := MaterialUniform(flags, alphaCutoff);
  }

  /** The shader's read-back of the alpha-mode code. */
  function DecodeMode(flags: bv32): bv32
  {
    (flags >> 29) & AlphaModeMaskBits
  }

  /**
   * Decoding the flags: each texture bit is set exactly when that texture is
   * present, the top three bits give back the mode code, and no other bit
   * is set.
   */
  lemma FlagsDecode(mat: WorldMaterial)
    ensures (Flags(mat) & BaseColorTexture != 0) <==> mat.baseColorTexture.Some?
    ensures (Flags(mat) & NormalTexture != 0) <==> mat.normalTexture.Some?
    ensures (Flags(mat) & EmissiveTexture != 0) <==> mat.emissiveTexture.Some?
    ensures (Flags(mat) & LightingTexture != 0) <==> mat.lightingTexture.Some?
    ensures DecodeMode(Flags(mat)) == ModeCode(mat.alphaMode)
    ensures Flags(mat) & !(0xF | AlphaModeReservedBits) == 0
  {
  }

  /** The six alpha modes have six distinct codes (the cutoff aside). */
  lemma ModeCodesDistinct(m: AlphaMode, n: AlphaMode)
    requires !(m.Mask? && n.Mask?)
    ensures ModeCode(m) == ModeCode(n) ==> m == n
  {
  }

  /** The default material's flags are all clear and its cutoff is one half. */
  lemma DefaultMaterialFlags()
    ensures Flags(DefaultMaterial) == NoFlags
    ensures Cutoff(DefaultMaterial.alphaMode) == 0.5
  {
  }
}
