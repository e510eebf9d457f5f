/** Steps 1 and 2 of composing an ABS theme: choosing light or dark from the
    theme selector, and building the palette of colour roles from the colour
    source's named scales. */
module Palette {
  import opened Wrappers

  /** A colour value as the colour source supplies it (a hex string); never interpreted. */
  type Color = string

  /** Named colour scales: hue name to its ordered shades, index 0 the faintest. */
  type Scales = map<string, seq<Color>>

  /** What the colour source returns for a base theme: its `scale` object and `fg.default`. */
  datatype ColorSource = ColorSource(scale: Scales, fgDefault: Color)

  datatype Mode = Light | Dark

  /** Reading `scale.<hue>` when the hue is absent and then indexing it throws. */
  datatype LookupError = MissingScale(hue: string)

  /** Light only for the exact selector "light_abs"; every other string is dark. */
  function ModeOf(theme: string): (mode: Mode)
    ensures mode == Light <==> theme == "light_abs"
  {
    if theme == "light_abs" then Light else Dark
  }

  /** The base theme (and colour source) variant requested for a mode. */
  function BaseThemeName(mode: Mode): (name: string)
    ensures name == "light" <==> mode == Light
    ensures name == "dark" <==> mode == Dark
  {
    match mode
    case Light => "light"
    case Dark => "dark"
  }

  lemma ModeChoice(theme: string)
    ensures ModeOf(theme) == Light <==> theme == "light_abs"
    ensures BaseThemeName(ModeOf(theme)) == "light" <==> theme == "light_abs"
    ensures theme != "light_abs" ==> BaseThemeName(ModeOf(theme)) == "dark"
    ensures ModeOf("light") == Dark && ModeOf("dark_abs") == Dark
  {
  }

  /** `scale.<hue>[index]`: a missing hue is an error, an index past the end
      of the scale reads `undefined`. */
  function ReadShade(scales: Scales, hue: string, index: nat): Result<Option<Color>, LookupError> {
    if hue !in scales then Failure(MissingScale(hue)) else Success(ShadeAt(scales[hue], index))
  }

  /** `shades[index]` of a scale that exists: `undefined` past its end. */
  function ShadeAt(shades: seq<Color>, index: nat): Option<Color> {
    if index < |shades| then Some(shades[index]) else None
  }

  /** The scales the palette reads, in the order it first reads them. */
  const HUES: seq<string> := ["purple", "green", "yellow", "blue", "gray", "red", "orange"]

  /** Every scale the palette reads exists, however short. */
  predicate AllScalesPresent(scales: Scales) {
    forall hue | hue in HUES :: hue in scales
  }

  /** The colour roles of the palette, in the order the palette literal lists them. */
  datatype Role =
    | Comment | StringConstant | FunctionDeclaration | Declaration | Punctuation | Base
    | Error | DiffAdded | DiffDeleted | DiffChanged | DiffAddedBg | DiffDeletedBg | DiffChangedBg

  const ROLE_ORDER: seq<Role> := [
    Comment, StringConstant, FunctionDeclaration, Declaration, Punctuation, Base,
    Error, DiffAdded, DiffDeleted, DiffChanged, DiffAddedBg, DiffDeletedBg, DiffChangedBg
  ]

  /** The resolved palette; a role is `None` when its shade index lies past the end of its scale. */
  datatype Palette = Palette(
    comment: Option<Color>,
    stringConstant: Option<Color>,
    functionDeclaration: Option<Color>,
    declaration: Option<Color>,
    punctuation: Option<Color>,
    base: Option<Color>,
    error: Option<Color>,
    diffAdded: Option<Color>,
    diffDeleted: Option<Color>,
    diffChanged: Option<Color>,
    diffAddedBg: Option<Color>,
    diffDeletedBg: Option<Color>,
    diffChangedBg: Option<Color>)
  {
    function Get(role: Role): Option<Color> {
      match role
      case Comment => comment
      case StringConstant => stringConstant
      case FunctionDeclaration => functionDeclaration
      case Declaration => declaration
      case Punctuation => punctuation
      case Base => base
      case Error => error
      case DiffAdded => diffAdded
      case DiffDeleted => diffDeleted
      case DiffChanged => diffChanged
      case DiffAddedBg => diffAddedBg
      case DiffDeletedBg => diffDeletedBg
      case DiffChangedBg => diffChangedBg
    }

    /** No role reads `undefined`. */
    predicate FullyDefined() {
      forall role: Role :: Get(role).Some?
    }
  }

  /** Where a role's colour comes from: one shade of a named scale, or `fg.default`. */
  datatype ColorRef = Shade(hue: string, index: nat) | ForegroundDefault

  /** The design table: for each role and mode, the fixed (scale, shade index) pair. */
  function RoleSource(role: Role, mode: Mode): ColorRef {
    var light := mode == Light;
    match role
    case Comment => Shade("purple", if light then 5 else 2)
    case StringConstant => Shade("green", if light then 6 else 2)
    case FunctionDeclaration => Shade("yellow", if light then 6 else 2)
    case Declaration => Shade("blue", if light then 6 else 2)
    case Punctuation => Shade("gray", if light then 5 else 4)
    case Base => ForegroundDefault
    case Error => Shade("red", if light then 7 else 2)
    case DiffAdded => Shade("green", if light then 6 else 1)
    case DiffDeleted => Shade("red", if light then 7 else 2)
    case DiffChanged => Shade("orange", if light then 6 else 2)
    case DiffAddedBg => Shade("green", if light then 0 else 9)
    case DiffDeletedBg => Shade("red", if light then 0 else 9)
    case DiffChangedBg => Shade("orange", if light then 1 else 8)
  }

  function Resolve(src: ColorSource, ref: ColorRef): Result<Option<Color>, LookupError> {
    match ref
    case Shade(hue, index) => ReadShade(src.scale, hue, index)
    case ForegroundDefault => Success(Some(src.fgDefault))
  }

  /** The palette literal, evaluated role by role in source order; the first
      missing scale aborts it. A scale the literal reads a second time is
      already known to exist, so only its shade is read again. */
  function BuildPalette(mode: Mode, src: ColorSource): (r: Result<Palette, LookupError>)
    ensures r.Success? ==> forall role: Role :: Resolve(src, RoleSource(role, mode)) == Success(r.value.Get(role))
    ensures r.Failure? ==> r.error.hue !in src.scale
    ensures r.Failure? ==> r.error.hue in HUES
  {
    var isLight := mode == Light;
    var scale := src.scale;
    var comment :- ReadShade(scale, "purple", if isLight then 5 else 2);
    var stringConstant :- ReadShade(scale, "green", if isLight then 6 else 2);
    var functionDeclaration :- ReadShade(scale, "yellow", if isLight then 6 else 2);
    var declaration :- ReadShade(scale, "blue", if isLight then 6 else 2);
    var punctuation :- ReadShade(scale, "gray", if isLight then 5 else 4);
    var base := Some(src.fgDefault);
    var error :- ReadShade(scale, "red", if isLight then 7 else 2);
    var diffAdded := ShadeAt(scale["green"], if isLight then 6 else 1);
    var diffDeleted := ShadeAt(scale["red"], if isLight then 7 else 2);
    var diffChanged :- ReadShade(scale, "orange", if isLight then 6 else 2);
    var diffAddedBg := ShadeAt(scale["green"], if isLight then 0 else 9);
    var diffDeletedBg := ShadeAt(scale["red"], if isLight then 0 else 9);
    var diffChangedBg := ShadeAt(scale["orange"], if isLight then 1 else 8);
    Success(Palette(
      comment, stringConstant, functionDeclaration, declaration, punctuation, base, error,
      diffAdded, diffDeleted, diffChanged, diffAddedBg, diffDeletedBg, diffChangedBg))
  }

  /** Role `ROLE_ORDER[k]` is the first one, in evaluation order, whose lookup fails. */
  predicate FailsFirstAt(src: ColorSource, mode: Mode, k: nat)
    requires k < |ROLE_ORDER|
  {
    && Resolve(src, RoleSource(ROLE_ORDER[k], mode)).Failure?
    && forall j :: 0 <= j < k ==> Resolve(src, RoleSource(ROLE_ORDER[j], mode)).Success?
  }

  /** A built palette holds exactly the colour the design table names for every role. */
  lemma PaletteFollowsTable(mode: Mode, src: ColorSource)
    ensures BuildPalette(mode, src).Success? ==>
      forall role: Role :: Resolve(src, RoleSource(role, mode)) == Success(BuildPalette(mode, src).value.Get(role))
    ensures BuildPalette(mode, src).Failure? <==>
      exists role: Role :: Resolve(src, RoleSource(role, mode)).Failure?
  {
    if BuildPalette(mode, src).Failure? {
      PaletteFailsAtFirstMissing(mode, src);
    }
  }

  /** A failed palette reports the error of the first role, in the order the
      literal lists them, whose scale is missing. */
  lemma PaletteFailsAtFirstMissing(mode: Mode, src: ColorSource)
    requires BuildPalette(mode, src).Failure?
    ensures exists k ::
      (0 <= k < |ROLE_ORDER| && FailsFirstAt(src, mode, k) &&
       Resolve(src, RoleSource(ROLE_ORDER[k], mode)) == Failure(BuildPalette(mode, src).error))
  {
    var scale := src.scale;
    var k :=
      if "purple" !in scale then 0
      else if "green" !in scale then 1
      else if "yellow" !in scale then 2
      else if "blue" !in scale then 3
      else if "gray" !in scale then 4
      else if "red" !in scale then 6
      else 9;
    assert FailsFirstAt(src, mode, k);
  }

  /** The scale the design table names for this role, if any, exists and is long enough. */
  predicate RoleStocked(role: Role, mode: Mode, scales: Scales) {
    match RoleSource(role, mode)
    case Shade(hue, index) => hue in scales && index < |scales[hue]|
    case ForegroundDefault => true
  }

  /** Every scale the design table reads for this mode exists and is long enough. */
  predicate Stocked(mode: Mode, scales: Scales) {
    forall role: Role :: RoleStocked(role, mode, scales)
  }

  /** Stocked, hue by hue: the shortest scale each hue may have for the mode. */
  predicate LongEnough(mode: Mode, scales: Scales) {
    var light := mode == Light;
    && "purple" in scales && |scales["purple"]| > (if light then 5 else 2)
    && "green" in scales && |scales["green"]| > (if light then 6 else 9)
    && "yellow" in scales && |scales["yellow"]| > (if light then 6 else 2)
    && "blue" in scales && |scales["blue"]| > (if light then 6 else 2)
    && "gray" in scales && |scales["gray"]| > (if light then 5 else 4)
    && "red" in scales && |scales["red"]| > (if light then 7 else 9)
    && "orange" in scales && |scales["orange"]| > (if light then 6 else 8)
  }

  /** Light reads shades up to index 7 (`red[7]`), dark up to index 9 (`green[9]`, `red[9]`). */
  lemma StockedLengths(mode: Mode, scales: Scales)
    ensures Stocked(mode, scales) <==> LongEnough(mode, scales)
  {
    if Stocked(mode, scales) {
      assert RoleStocked(Comment, mode, scales) && RoleStocked(StringConstant, mode, scales);
      assert RoleStocked(FunctionDeclaration, mode, scales) && RoleStocked(Declaration, mode, scales);
      assert RoleStocked(Punctuation, mode, scales) && RoleStocked(Error, mode, scales);
      assert RoleStocked(DiffAddedBg, mode, scales) && RoleStocked(DiffDeletedBg, mode, scales);
      assert RoleStocked(DiffChanged, mode, scales) && RoleStocked(DiffChangedBg, mode, scales);
    }
  }

  /** The palette is built with no `undefined` role exactly when the colour
      source is stocked for the mode; otherwise it fails or holds an `undefined`. */
  lemma PaletteDefinedIffStocked(mode: Mode, src: ColorSource)
    ensures (BuildPalette(mode, src).Success? && BuildPalette(mode, src).value.FullyDefined())
      <==> Stocked(mode, src.scale)
  {
    PaletteFollowsTable(mode, src);
    if Stocked(mode, src.scale) {
      forall role: Role ensures Resolve(src, RoleSource(role, mode)).Success? {
        assert RoleStocked(role, mode, src.scale);
      }
      var p := BuildPalette(mode, src).value;
      forall role: Role ensures p.Get(role).Some? {
        assert RoleStocked(role, mode, src.scale);
      }
    }
  }
}
