/** The processing-options form: the options record, the preset table, the
    rules deciding what the form shows and the effective DPI it reports,
    and the updates its inputs make to the record. */
module ResizeOptions {
  import opened JsValue
  import opened JsString

  /** The resize part of the options. */
  datatype Resize = Resize(width: string, height: string, unit: Option<string>, lockAspect: bool)

  /** The options record sent with every process request. The form fields
      `dpi`, `width` and `height` hold the text typed into them. */
  datatype Options = Options(
    preset: Option<string>,
    format: Option<string>,
    quality: int,
    dpi: string,
    crop: bool,
    removeMetadata: bool,
    background: string,
    resize: Resize)

  /** The options the dashboard starts with. */
  const InitialOptions: Options :=
    Options(Some(""), Some("jpeg"), 80, "", false, true, "white", Resize("", "", Some("px"), true))

  /** One entry of the preset selector. */
  datatype Preset = Preset(value: string, title: string)

  const Presets: seq<Preset> := [
    Preset("", "Custom"),
    Preset("instagram_square", "Instagram Square (1080x1080)"),
    Preset("instagram_story", "Instagram Story (1080x1920)"),
    Preset("instagram_portrait", "Instagram Portrait (1080x1350)"),
    Preset("whatsapp_status", "WhatsApp Status (1080x1920)"),
    Preset("whatsapp_dp", "WhatsApp Display Pic (640x640)"),
    Preset("print_a4", "Print A4 @300DPI (2480x3508)"),
    Preset("print_letter", "Print Letter @300DPI (2550x3300)")
  ]

  /** The formats the output-format selector offers. */
  const OfferedFormats: seq<string> := ["jpeg", "png", "webp"]

  // ---------------------------------------------------------------------
  // Derived values

  /** The resize unit, `px` when absent. */
  function Unit(o: Options): (u: string)
    ensures u != ""
    ensures Truthy(o.resize.unit) ==> u == o.resize.unit.value
    ensures !Truthy(o.resize.unit) ==> u == "px"
  {
    OrElse(o.resize.unit, "px")
  }

  /** The DPI field is shown and editable: the unit is a physical one. */
  predicate ShowDpi(o: Options) {
    Unit(o) != "px" && Unit(o) != "%"
  }

  /** The options with the resize unit replaced. */
  function WithUnit(o: Options, unit: Option<string>): Options {
    o.(resize := o.resize.(unit := unit))
  }

  /** The DPI field for a missing unit and for each unit the form offers. */
  lemma DpiShownForPhysicalUnits(o: Options)
    ensures !ShowDpi(WithUnit(o, None)) && !ShowDpi(WithUnit(o, Some("")))
    ensures !ShowDpi(WithUnit(o, Some("px"))) && !ShowDpi(WithUnit(o, Some("%")))
    ensures ShowDpi(WithUnit(o, Some("mm"))) && ShowDpi(WithUnit(o, Some("cm")))
    ensures ShowDpi(WithUnit(o, Some("inch")))
  {
  }

  /** The preset, lower-cased, empty when absent. */
  function PresetValue(o: Options): (v: string)
    ensures forall j :: 0 <= j < |v| ==> !('A' <= v[j] <= 'Z')
    ensures v == "" <==> !Truthy(o.preset)
    ensures Truthy(o.preset) ==> v == Lower(o.preset.value)
  {
    Lower(OrElse(o.preset, ""))
  }

  /** A lower-cased preset value names a print size. */
  predicate IsPrint(v: string) {
    StartsWith(v, "print_") || Includes(v, "a4") || Includes(v, "letter")
  }

  /** A value with no `4`, no `l` and no `_` at index 5 is not a print
      preset. */
  lemma NotPrint(v: string)
    requires '4' !in v && 'l' !in v
    requires |v| < 6 || v[5] != '_'
    ensures !IsPrint(v)
  {
    AbsentCharNotIncluded(v, "a4", 1);
    AbsentCharNotIncluded(v, "letter", 0);
    if |v| >= 6 {
      assert v[..6][5] == v[5];
    }
  }

  /** The preset values are already lower case. */
  lemma PresetValuesLowerCase()
    ensures forall i :: 0 <= i < |Presets| ==> Lower(Presets[i].value) == Presets[i].value
  {
    forall i | 0 <= i < |Presets| ensures Lower(Presets[i].value) == Presets[i].value {
      LowerKeepsLowerCase(Presets[i].value);
    }
  }

  /** The custom entry and the Instagram sizes are not print values. */
  lemma NonPrintInstagramValues()
    ensures !IsPrint("") && !IsPrint("instagram_square")
    ensures !IsPrint("instagram_story") && !IsPrint("instagram_portrait")
  {
    NotPrint("");
    NotPrint("instagram_square");
    NotPrint("instagram_story");
    NotPrint("instagram_portrait");
  }

  /** The WhatsApp sizes are not print values. */
  lemma NonPrintWhatsAppValues()
    ensures !IsPrint("whatsapp_status") && !IsPrint("whatsapp_dp")
  {
    NotPrint("whatsapp_status");
    NotPrint("whatsapp_dp");
  }

  /** Of the preset table exactly the two print sizes are print presets. */
  lemma PrintPresetsInTable()
    ensures forall i :: 0 <= i < |Presets| ==>
              (IsPrint(Lower(Presets[i].value)) <==> Presets[i].value in {"print_a4", "print_letter"})
  {
    PresetValuesLowerCase();
    NonPrintInstagramValues();
    NonPrintWhatsAppValues();
    assert StartsWith("print_a4", "print_") && StartsWith("print_letter", "print_");
  }

  /** The custom width, height and unit inputs are shown: no preset is
      chosen. */
  predicate CustomSizeShown(o: Options) {
    !Truthy(o.preset)
  }

  /** The custom inputs are shown exactly when the lower-cased preset the
      DPI rule reads is empty. */
  lemma CustomSizeShownIffNoPreset(o: Options)
    ensures CustomSizeShown(o) <==> PresetValue(o) == ""
  {
  }

  /** `Number(dpi)` is truthy: a number other than zero (`None` stands for
      `NaN`). */
  predicate NonZero(parsedDpi: Option<real>) {
    parsedDpi.Some? && parsedDpi.value != 0.0
  }

  /** The effective DPI the form reports, given `Number(options.dpi)`. */
  function EffectiveDpi(o: Options, parsedDpi: Option<real>): (dpi: real)
    ensures NonZero(parsedDpi) ==> dpi == parsedDpi.value
    ensures !NonZero(parsedDpi) ==> dpi == 72.0 || dpi == 300.0
    ensures !NonZero(parsedDpi) ==>
              (dpi == 300.0 <==> IsPrint(PresetValue(o)) || (PresetValue(o) == "" && ShowDpi(o)))
  {
    var presetValue := PresetValue(o);
    var isPrint := IsPrint(presetValue);
    if NonZero(parsedDpi) then parsedDpi.value
    else if presetValue != "" && !isPrint then 72.0
    else if isPrint then 300.0
    else if ShowDpi(o) then 300.0
    else 72.0
  }

  /** Without a usable DPI (the empty field, whose `Number` is `0`, or text
      that parses to `NaN`) the print presets report 300, the other presets
      72, and the custom size 300 exactly for a physical unit. */
  lemma EffectiveDpiOverPresets(o: Options, i: nat, parsedDpi: Option<real>)
    requires i < |Presets| && !NonZero(parsedDpi)
    ensures var p := o.(preset := Some(Presets[i].value));
            EffectiveDpi(p, parsedDpi) == (if Presets[i].value in {"print_a4", "print_letter"} then 300.0
                                      else if i == 0 then (if ShowDpi(o) then 300.0 else 72.0)
                                      else 72.0)
  {
    PrintPresetsInTable();
    LowerKeepsLowerCase(Presets[i].value);
  }

  /** The output is JPEG; a missing format counts as JPEG. */
  predicate IsJpeg(o: Options) {
    Lower(OrElse(o.format, "jpeg")) == "jpeg"
  }

  /** The background selector is disabled. */
  predicate BackgroundLocked(o: Options) {
    IsJpeg(o)
  }

  /** A missing or empty format locks the background selector, as JPEG. */
  lemma MissingFormatIsJpeg(o: Options)
    ensures BackgroundLocked(o.(format := None)) && BackgroundLocked(o.(format := Some("")))
    ensures !BackgroundLocked(o.(format := Some("png"))) && !BackgroundLocked(o.(format := Some("webp")))
  {
    assert Lower("webp")[0] == 'w';
  }

  /** The options the dashboard starts with, as the form shows them: no
      preset, so the custom size inputs; pixels, so no DPI field and an
      effective DPI of 72 for the empty DPI text (`Number('')` is `0`) or any
      other falsy one; JPEG on a white background; a quality inside the
      slider's range. */
  lemma InitialOptionsAsRendered(parsedDpi: Option<real>)
    requires !NonZero(parsedDpi)
    ensures PresetValue(InitialOptions) == "" && CustomSizeShown(InitialOptions)
    ensures Unit(InitialOptions) == "px" && !ShowDpi(InitialOptions)
    ensures InitialOptions.dpi == "" && EffectiveDpi(InitialOptions, parsedDpi) == 72.0
    ensures IsJpeg(InitialOptions) && BackgroundLocked(InitialOptions) && InitialOptions.background == "white"
    ensures 1 <= InitialOptions.quality <= 100
  {
  }

  /** The preset table: eight entries, the custom entry first, and no
      value used twice, so each value picks out one entry. */
  lemma PresetTableShape()
    ensures |Presets| == 8 && Presets[0].value == ""
    ensures forall i, j :: 0 <= i < j < |Presets| ==> Presets[i].value != Presets[j].value
  {
    forall i, j | 0 <= i < j < |Presets| ensures Presets[i].value != Presets[j].value {
      DistinctPresetValues(i, j);
    }
  }

  /** Two entries of the preset table differ in their value. */
  lemma DistinctPresetValues(i: nat, j: nat)
    requires i < j < |Presets|
    ensures Presets[i].value != Presets[j].value
  {
    var v, w := Presets[i].value, Presets[j].value;
    if |v| == |w| && |v| == 15 {
      assert v[10] != w[10];
    }
  }

  /** Of the formats the selector offers exactly the first one is JPEG, so
      only it locks the background selector. */
  lemma OfferedFormatsJpegFirst(o: Options)
    ensures |OfferedFormats| == 3
    ensures forall i :: 0 <= i < |OfferedFormats| ==>
              (BackgroundLocked(o.(format := Some(OfferedFormats[i]))) <==> i == 0)
  {
    assert Lower("webp")[0] == 'w';
    assert Lower("png")[0] == 'p';
  }

  // ---------------------------------------------------------------------
  // Updates

  /** The format selector's handler: choosing JPEG also sets a white
      background. */
  function ChooseFormat(o: Options, next: string): (r: Options)
    ensures r.format == Some(next)
    ensures Lower(next) == "jpeg" ==> r.background == "white"
    ensures Lower(next) != "jpeg" ==> r.background == o.background
    ensures r.(format := o.format, background := o.background) == o
  {
    o.(format := Some(next), background := if Lower(next) == "jpeg" then "white" else o.background)
  }

  /** The keys a resize input patches; an absent key is left alone. */
  datatype ResizePatch = ResizePatch(
    width: Option<string>,
    height: Option<string>,
    unit: Option<string>,
    lockAspect: Option<bool>)

  /** `setResize`: merge the patch into the resize record. */
  function SetResize(o: Options, patch: ResizePatch): (r: Options)
    ensures patch.width.Some? ==> r.resize.width == patch.width.value
    ensures patch.width.None? ==> r.resize.width == o.resize.width
    ensures patch.height.Some? ==> r.resize.height == patch.height.value
    ensures patch.height.None? ==> r.resize.height == o.resize.height
    ensures patch.unit.Some? ==> r.resize.unit == patch.unit
    ensures patch.unit.None? ==> r.resize.unit == o.resize.unit
    ensures patch.lockAspect.Some? ==> r.resize.lockAspect == patch.lockAspect.value
    ensures patch.lockAspect.None? ==> r.resize.lockAspect == o.resize.lockAspect
    ensures r.(resize := o.resize) == o
  {
    var rs := o.resize;
    o.(resize := Resize(
      if patch.width.Some? then patch.width.value else rs.width,
      if patch.height.Some? then patch.height.value else rs.height,
      if patch.unit.Some? then patch.unit else rs.unit,
      if patch.lockAspect.Some? then patch.lockAspect.value else rs.lockAspect))
  }

  /** Applying a patch twice is applying it once, the empty patch changes
      nothing, and patches touching different keys commute. */
  lemma SetResizeAlgebra(o: Options, p: ResizePatch, q: ResizePatch)
    ensures SetResize(SetResize(o, p), p) == SetResize(o, p)
    ensures SetResize(o, ResizePatch(None, None, None, None)) == o
    ensures (p.width.None? || q.width.None?) && (p.height.None? || q.height.None?)
            && (p.unit.None? || q.unit.None?) && (p.lockAspect.None? || q.lockAspect.None?)
            ==> SetResize(SetResize(o, p), q) == SetResize(SetResize(o, q), p)
  {
  }

  /** `setDpi`: replace the typed DPI. */
  function SetDpi(o: Options, value: string): (r: Options)
    ensures r.dpi == value
    ensures r.(dpi := o.dpi) == o
  {
    o.(dpi := value)
  }

  /** A later DPI entry overrides an earlier one. */
  lemma SetDpiLastWins(o: Options, a: string, b: string)
    ensures SetDpi(SetDpi(o, a), b) == SetDpi(o, b)
    ensures ShowDpi(SetDpi(o, a)) == ShowDpi(o) && IsJpeg(SetDpi(o, a)) == IsJpeg(o)
  {
  }

  /** One change made through an input of the form. */
  datatype Edit =
    | ChoosePreset(preset: string)
    | PickFormat(format: string)
    | SetQuality(quality: int)
    | PickBackground(background: string)
    | TypeDpi(dpi: string)
    | SetCrop(crop: bool)
    | SetRemoveMetadata(removeMetadata: bool)
    | PatchResize(patch: ResizePatch)

  /** The record after an edit. */
  function Apply(o: Options, e: Edit): (r: Options)
    ensures !e.ChoosePreset? ==> r.preset == o.preset
    ensures !e.PickFormat? ==> r.format == o.format
    ensures !e.SetQuality? ==> r.quality == o.quality
    ensures !(e.PickFormat? || e.PickBackground?) ==> r.background == o.background
    ensures !e.TypeDpi? ==> r.dpi == o.dpi
    ensures !e.SetCrop? ==> r.crop == o.crop
    ensures !e.SetRemoveMetadata? ==> r.removeMetadata == o.removeMetadata
    ensures !e.PatchResize? ==> r.resize == o.resize
    ensures e.ChoosePreset? ==> r.preset == Some(e.preset)
    ensures e.PickFormat? ==> r == ChooseFormat(o, e.format)
    ensures e.SetQuality? ==> r.quality == e.quality
    ensures e.PickBackground? ==> r.background == e.background
    ensures e.TypeDpi? ==> r == SetDpi(o, e.dpi)
    ensures e.SetCrop? ==> r.crop == e.crop
    ensures e.SetRemoveMetadata? ==> r.removeMetadata == e.removeMetadata
    ensures e.PatchResize? ==> r == SetResize(o, e.patch)
  {
    match e
    case ChoosePreset(p) => o.(preset := Some(p))
    case PickFormat(f) => ChooseFormat(o, f)
    case SetQuality(q) => o.(quality := q)
    case PickBackground(b) => o.(background := b)
    case TypeDpi(d) => SetDpi(o, d)
    case SetCrop(c) => o.(crop := c)
    case SetRemoveMetadata(m) => o.(removeMetadata := m)
    case PatchResize(p) => SetResize(o, p)
  }

  /** The edit can be made in the rendered form: selectors offer only their
      listed values, the background selector is disabled under JPEG, the
      DPI input exists only for a physical unit, and the custom size inputs
      only without a preset. */
  predicate Enabled(o: Options, e: Edit) {
    match e
    case ChoosePreset(p) => exists i :: 0 <= i < |Presets| && Presets[i].value == p
    case PickFormat(f) => f in OfferedFormats
    case SetQuality(q) => 1 <= q <= 100
    case PickBackground(b) => !BackgroundLocked(o) && b in {"white", "transparent"}
    case TypeDpi(_) => ShowDpi(o)
    case PatchResize(p) => CustomSizeShown(o)
    case _ => true
  }

  /** The promise of the JPEG notice: a JPEG output has a white
      background. */
  predicate WhiteUnderJpeg(o: Options) {
    IsJpeg(o) ==> o.background == "white"
  }

  /** The initial options keep the promise and every enabled edit keeps
      it. */
  lemma WhiteUnderJpegPreserved(o: Options, e: Edit)
    requires WhiteUnderJpeg(o) && Enabled(o, e)
    ensures WhiteUnderJpeg(InitialOptions)
    ensures WhiteUnderJpeg(Apply(o, e))
  {
    if e.PickFormat? {
      assert e.format == "jpeg" || e.format == "png" || e.format == "webp";
    }
  }

  /** The promise rests on the selector never offering the empty format:
      choosing it counts as JPEG yet leaves the background alone. */
  lemma EmptyFormatKeepsBackground(o: Options)
    requires o.background == "transparent"
    ensures IsJpeg(ChooseFormat(o, "")) && !WhiteUnderJpeg(ChooseFormat(o, ""))
  {
  }
}
