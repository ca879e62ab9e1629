/** What a request means that does not spell everything out: the compact spelling of a transition, and
    the fields that may be left out. */
module ProtocolDefaults {
  import opened Prelude
  import opened JsonValues
  import opened JsonGrammar
  import opened Decimal
  import opened Protocol

  // ---- compact spellings ----

  function Token(name: string, suffix: Option<string>): string {
    match suffix case None => name case Some(s) => name + ":" + s
  }

  lemma {:induction false} TokenSplits(name: string, suffix: Option<string>)
    requires ':' !in name
    ensures SplitColon(Token(name, suffix)) == (name, suffix)
  {
    var token := Token(name, suffix);
    if name == "" {
      assert suffix.Some? ==> token[1..] == suffix.value;
    } else {
      TokenSplits(name[1..], suffix);
      assert token[1..] == Token(name[1..], suffix);
      assert name == [name[0]] + name[1..];
    }
  }

  /** Every string is such a token. */
  lemma {:induction false} EveryToken(token: string)
    ensures var (name, suffix) := SplitColon(token); ':' !in name && token == Token(name, suffix)
  {
    if token != "" && token[0] != ':' {
      EveryToken(token[1..]);
      assert token == [token[0]] + token[1..];
    }
  }

  function TypeOnly(name: string): JsonValue { Object(map["type" := String(name)]) }

  /** The object that a compact spelling stands for. */
  function Spelled(name: string, suffix: Option<string>): JsonValue {
    match suffix
    case None => TypeOnly(name)
    case Some(s) => Object(map["type" := String(name), (if name == "push" then "direction" else "pan_axis") := String(s)])
  }

  predicate Spellable(name: string, suffix: Option<string>) {
    match suffix
    case None => name in {"cut", "fade", "world", "canvas"}
    case Some(_) => name in {"push", "canvas"}
  }

  /** A string reads as the object with only that type, or with that direction or axis as well; a
      suffix is refused for any other transition, and `push` does not do without one. */
  lemma CompactReads(name: string, suffix: Option<string>)
    requires ':' !in name
    ensures ParseTransition(String(Token(name, suffix))) ==
      if Spellable(name, suffix) then ParseTransition(Spelled(name, suffix))
      else Failure(if KindOf(name).Failure? then Unknown("transition") else if name == "push" then NeedsDirection else NoOverride)
    ensures KindOf(name).Success? <==> name in {"cut", "fade", "push", "canvas", "world"}
  {
    hide ParseDirection, ParseAxis, SplitColon, ParseTileCount;
    TokenSplits(name, suffix);
    Kinds();
    if Spellable(name, suffix) {
      if name == "push" {
        PushReads(suffix.value);
      } else if name == "canvas" {
        CanvasReads(suffix);
      } else {
        TimedReads(name);
      }
    }
  }

  lemma Kinds()
    ensures KindOf("cut") == Success(CutKind) && KindOf("fade") == Success(FadeKind) && KindOf("push") == Success(PushKind)
    ensures KindOf("canvas") == Success(CanvasKind) && KindOf("world") == Success(WorldKind)
  {}

  lemma TimedReads(name: string)
    requires name in {"cut", "fade", "world"}
    ensures ParseTransition(TypeOnly(name)) == ParseCliToken(Token(name, None), DEFAULT_DURATION_MS, EaseOutCubic)
  {
    hide KindOf, SplitColon, ParseCanvas;
    TokenSplits(name, None);
    Kinds();
  }

  lemma PushReads(s: string)
    ensures ParseTransition(Spelled("push", Some(s))) == ParseCliToken(Token("push", Some(s)), DEFAULT_DURATION_MS, EaseOutCubic)
  {
    hide KindOf, SplitColon, ParseCanvas, ParseDirection;
    TokenSplits("push", Some(s));
    Kinds();
  }

  lemma CanvasReads(suffix: Option<string>)
    ensures ParseTransition(Spelled("canvas", suffix)) == ParseCliToken(Token("canvas", suffix), DEFAULT_DURATION_MS, EaseOutCubic)
  {
    hide KindOf, SplitColon, ParseAxis, ParseCanvas;
    TokenSplits("canvas", suffix);
    Kinds();
    CanvasBare(Spelled("canvas", suffix).fields, EaseOutCubic, suffix);
  }

  lemma CanvasBare(o: Fields, easing: Easing, axis: Option<string>)
    requires o.Keys <= {"type", "pan_axis"} && OptionalString(o, "pan_axis") == Success(axis)
    ensures ParseCanvas(o, easing) == (var pan :- ParseOr(axis, AutoAxis, ParseAxis); Success(Canvas(180, 80, 260, easing, Clipped, Paged, pan, 1.0 / 3.0, Auto(None))))
  {
    hide ParseAxis, ParseUint, ParseReal;
    assert ScaleOk(1.0 / 3.0) && ModeWalkOk(Clipped, Paged);
  }

  /** The transitions that the plain spellings stand for. */
  lemma PlainSpellings(direction: PushDirection, axis: CanvasPanAxis)
    ensures ParseTransition(String("cut")) == Success(Cut)
    ensures ParseTransition(String("fade")) == Success(Fade(900, EaseOutCubic))
    ensures ParseTransition(String("world")) == Success(World(900, EaseOutCubic))
    ensures ParseTransition(String("push:" + DirectionName(direction))) == Success(Push(direction, 900, EaseOutCubic, Portal))
    ensures ParseTransition(String("canvas")) == Success(Canvas(180, 80, 260, EaseOutCubic, Clipped, Paged, AutoAxis, 1.0 / 3.0, Auto(None)))
    ensures ParseTransition(String("canvas:" + AxisName(axis))) == Success(Canvas(180, 80, 260, EaseOutCubic, Clipped, Paged, axis, 1.0 / 3.0, Auto(None)))
  {
    hide KindOf, SplitColon, ParseAxis, ParseDirection, DirectionName, AxisName;
    Kinds();
    NamesRead(direction, axis);
    TokenSplits("cut", None);
    TokenSplits("fade", None);
    TokenSplits("world", None);
    TokenSplits("canvas", None);
    TokenSplits("push", Some(DirectionName(direction)));
    TokenSplits("canvas", Some(AxisName(axis)));
    assert Token("push", Some(DirectionName(direction))) == "push:" + DirectionName(direction);
    assert Token("canvas", Some(AxisName(axis))) == "canvas:" + AxisName(axis);
  }

  lemma NamesRead(direction: PushDirection, axis: CanvasPanAxis)
    ensures ParseDirection(DirectionName(direction)) == Success(direction) && ParseAxis(AxisName(axis)) == Success(axis)
  {}

  /** The same for a wallpaper action. */
  lemma ActionReads(name: string)
    ensures ParseActionValue(String(name)) == ParseActionValue(TypeOnly(name))
  {}

  // ---- fields left out ----

  /** What an absent field of a request stands for. */
  function RequestDefault(kind: string, key: string): Option<JsonValue> {
    if kind in {"set", "renderer_canvas_set", "renderer_world_set"} && key == "scale_mode" then Some(String("fill"))
    else if kind in {"set", "renderer_canvas_set", "renderer_world_set"} && key == "allow_partial" then Some(Bool(false))
    else if kind == "set" && key == "transition" then Some(TypeOnly("cut"))
    else if kind == "renderer_canvas_set" && key == "preview_start" then Some(Number("0"))
    else if kind == "clear" && key == "outputs" then Some(Array([]))
    else if kind == "clear" && key == "color" then Some(String("#000000"))
    else if kind == "wallpaper" && key in {"transition", "scale_mode"} then Some(Null)
    else if kind == "cache" && key == "scope" then Some(String("current"))
    else if kind == "cache" && key == "workers" then Some(Number("1"))
    else if kind == "cache" && key == "backend" then Some(String("auto"))
    else None
  }

  /** The fields a request cannot do without. */
  function RequestNeeds(kind: string): set<string> {
    if kind in {"set", "preload"} then {"outputs"}
    else if kind in {"wallpaper", "cache"} then {"action"}
    else if kind == "renderer_canvas_set" then {"outputs", "transition", "preview_paths"}
    else if kind == "renderer_world_set" then
      {"outputs", "transition", "library_count", "columns", "fingerprint", "thumbnail_edge", "tile_cells", "routes"}
    else {}
  }

  predicate OfKind(o: Fields, kind: string) { "type" in o && o["type"] == String(kind) }

  /** Two objects read alike if the parser of their kind reads them alike. */
  lemma ReadAlike(kind: string, o: Fields, o': Fields, control: bool)
    requires OfKind(o, kind) && OfKind(o', kind)
    requires kind == "set" ==> ParseSet(o) == ParseSet(o')
    requires kind == "preload" ==> RequiredOutputs(o) == RequiredOutputs(o')
    requires kind == "clear" ==> ParseClear(o) == ParseClear(o')
    requires kind == "wallpaper" ==> ParseWallpaper(o) == ParseWallpaper(o')
    requires kind == "cache" ==> ParseCache(o) == ParseCache(o')
    requires kind == "renderer_canvas_set" ==> ParseRenderCanvasSet(o) == ParseRenderCanvasSet(o')
    requires kind == "renderer_world_set" ==> ParseRenderWorldSet(o) == ParseRenderWorldSet(o')
    ensures ParseFields(o, control) == ParseFields(o', control)
  {
    hide ParseSet, RequiredOutputs, ParseClear, ParseWallpaper, ParseCache, ParseRenderCanvasSet, ParseRenderWorldSet;
  }

  /** A field that is not known, or one left out that is put in with its default. */
  predicate Harmless(kind: string, o: Fields, key: string, v: JsonValue) {
    && key != "type" && key !in RequestNeeds(kind)
    && (RequestDefault(kind, key).Some? ==> key !in o && RequestDefault(kind, key) == Some(v))
  }

  lemma SetAlike(o: Fields, key: string, v: JsonValue)
    requires Harmless("set", o, key, v)
    ensures ParseSet(o) == ParseSet(o[key := v])
  {
    hide ParseTransition, RequiredOutputs, ParseScaleModeField;
    ScaleModeDefault(o, key, v);
    SameOutputs(o, key, v);
    CutSpelled();
  }

  lemma CutSpelled()
    ensures ParseTransition(TypeOnly("cut")) == Success(Cut)
  {}

  lemma ScaleModeDefault(o: Fields, key: string, v: JsonValue)
    requires key == "scale_mode" ==> key !in o && v == String("fill")
    ensures ParseScaleModeField(o) == ParseScaleModeField(o[key := v])
  {}

  lemma SameOutputs(o: Fields, key: string, v: JsonValue)
    requires key != "outputs"
    ensures RequiredOutputs(o[key := v]) == RequiredOutputs(o)
  {}

  lemma ClearAlike(o: Fields, key: string, v: JsonValue)
    requires Harmless("clear", o, key, v)
    ensures ParseClear(o) == ParseClear(o[key := v])
  {
    hide AllStrings;
    NoStrings();
  }

  lemma NoStrings()
    ensures AllStrings([]) == Success([])
  {
    assert AllStrings([]).Success? && AllStrings([]).value == [];
  }

  lemma WallpaperAlike(o: Fields, key: string, v: JsonValue)
    requires Harmless("wallpaper", o, key, v)
    ensures ParseWallpaper(o) == ParseWallpaper(o[key := v])
  {
    hide ParseTransition, ParseScaleMode, ParseActionValue;
  }

  lemma CacheAlike(o: Fields, key: string, v: JsonValue)
    requires Harmless("cache", o, key, v)
    ensures ParseCache(o) == ParseCache(o[key := v])
  {
    hide ParseUint, ParseScope, ParseBackend, OptionalString, OptionalU64;
    CacheDefaults();
    WorkersDefault(o, key, v);
    TextDefault(o, key, v, "action");
    TextDefault(o, key, v, "scope");
    TextDefault(o, key, v, "backend");
  }

  lemma WorkersDefault(o: Fields, key: string, v: JsonValue)
    requires key == "workers" ==> key !in o && v == Number("1")
    ensures OptionalU64(o[key := v], "workers") == if key == "workers" then Success(Some(1)) else OptionalU64(o, "workers")
    ensures key == "workers" ==> OptionalU64(o, "workers") == Success(None)
  {
    hide ParseUint;
    ReadsAs("1", 1, key);
  }

  lemma TextDefault(o: Fields, key: string, v: JsonValue, k: string)
    requires key == k ==> key !in o && v.String?
    ensures OptionalString(o[key := v], k) == if key == k then Success(Some(v.chars)) else OptionalString(o, k)
    ensures key == k ==> OptionalString(o, k) == Success(None)
    ensures key != k ==> OptionalString(o[key := v], k) == OptionalString(o, k) && RequiredString(o[key := v], k) == RequiredString(o, k)
  {}

  lemma CacheDefaults()
    ensures ParseScope("current") == Success(CurrentScope) && ParseBackend("auto") == Success(AutoBackend)
  {}

  /** Canonical digits read as their number. */
  lemma ReadsAs(text: string, n: nat, key: string)
    requires text != "" && IsDigits(text) && DecValue(text) == n <= U64_MAX
    ensures ParseUint(text, key, U64_MAX) == Success(n)
  {
  }

  lemma CanvasSetAlike(o: Fields, key: string, v: JsonValue)
    requires Harmless("renderer_canvas_set", o, key, v)
    ensures ParseRenderCanvasSet(o) == ParseRenderCanvasSet(o[key := v])
  {
    hide ParseTransition, RequiredOutputs, ParseScaleModeField, ParseUint, AllStrings;
    ScaleModeDefault(o, key, v);
    SameOutputs(o, key, v);
    ReadsAs("0", 0, key);
  }

  lemma WorldSetAlike(o: Fields, key: string, v: JsonValue)
    requires Harmless("renderer_world_set", o, key, v)
    ensures ParseRenderWorldSet(o) == ParseRenderWorldSet(o[key := v])
  {
    hide RequiredTransition, RequiredOutputs, ParseScaleModeField, RequiredU64, RequiredU32, OptionalBool, ParseRoutes;
    ScaleModeDefault(o, key, v);
    SameOutputs(o, key, v);
    SameTransition(o, key, v);
    SameNumber(o, key, v, "library_count");
    SameNumber(o, key, v, "columns");
    SameNumber(o, key, v, "fingerprint");
    SameNumber(o, key, v, "thumbnail_edge");
    SameNumber(o, key, v, "tile_cells");
    SameBool(o, key, v);
    SameRoutes(o, key, v);
  }

  lemma SameTransition(o: Fields, key: string, v: JsonValue)
    requires key != "transition"
    ensures RequiredTransition(o[key := v]) == RequiredTransition(o)
  {
    hide ParseTransition;
  }

  lemma SameNumber(o: Fields, key: string, v: JsonValue, k: string)
    requires key != k
    ensures RequiredU64(o[key := v], k) == RequiredU64(o, k) && RequiredU32(o[key := v], k) == RequiredU32(o, k)
    ensures OptionalU64(o[key := v], k) == OptionalU64(o, k)
  {
    hide ParseUint;
  }

  lemma SameBool(o: Fields, key: string, v: JsonValue)
    requires key == "allow_partial" ==> key !in o && v == Bool(false)
    ensures OptionalBool(o[key := v], "allow_partial") == OptionalBool(o, "allow_partial")
  {}

  lemma SameRoutes(o: Fields, key: string, v: JsonValue)
    requires key != "routes"
    ensures ParseRoutes(o[key := v]) == ParseRoutes(o)
  {
    hide ParseFocus;
  }

  /** A request reads as with the field put in that it leaves out; a field that is not known does not matter. */
  lemma RequestReads(kind: string, o: Fields, key: string, v: JsonValue, control: bool)
    requires OfKind(o, kind) && Harmless(kind, o, key, v)
    ensures ParseFields(o[key := v], control) == ParseFields(o, control)
  {
    hide ParseFields, ParseSet, RequiredOutputs, ParseClear, ParseWallpaper, ParseCache, ParseRenderCanvasSet, ParseRenderWorldSet, RequestDefault;
    if kind == "set" {
      SetAlike(o, key, v);
    } else if kind == "preload" {
      SameOutputs(o, key, v);
    } else if kind == "clear" {
      ClearAlike(o, key, v);
    } else if kind == "wallpaper" {
      WallpaperAlike(o, key, v);
    } else if kind == "cache" {
      CacheAlike(o, key, v);
    } else if kind == "renderer_canvas_set" {
      CanvasSetAlike(o, key, v);
    } else if kind == "renderer_world_set" {
      WorldSetAlike(o, key, v);
    }
    ReadAlike(kind, o[key := v], o, control);
  }

  /** A request without a field it needs is refused. */
  lemma RequestRefused(kind: string, o: Fields, key: string, control: bool)
    requires OfKind(o, kind) && key in RequestNeeds(kind) && key !in o
    ensures ParseFields(o, control).Failure?
  {
    hide ParseTransition, ParseScaleModeField, OptionalBool, AllStrings, ParseActionValue, ParseUint;
    if kind in {"set", "preload"} {
      assert RequiredOutputs(o).Failure?;
    }
  }

  /** What an absent field of a transition stands for. The scale of a canvas has no default in decimals. */
  function TransitionDefault(kind: string, key: string): Option<JsonValue> {
    if key == "duration_ms" then Some(Number("900"))
    else if key == "easing" then Some(String("ease-out-cubic"))
    else if kind == "push" && key == "mode" then Some(String("portal"))
    else if kind == "canvas" then
      if key == "zoom_out_ms" then Some(Number("180"))
      else if key == "pan_ms" then Some(Number("80"))
      else if key == "zoom_in_ms" then Some(Number("260"))
      else if key == "mode" then Some(String("clipped"))
      else if key == "walk" then Some(String("paged"))
      else if key == "pan_axis" || key == "tile_count" then Some(String("auto"))
      else None
    else None
  }

  predicate HarmlessIn(kind: string, o: Fields, key: string, v: JsonValue) {
    && key != "type" && (kind == "push" ==> key != "direction") && (kind == "canvas" ==> key !in {"overview_scale", "max_tile_count"})
    && (TransitionDefault(kind, key).Some? ==> key !in o && TransitionDefault(kind, key) == Some(v))
  }

  lemma NumberDefault(o: Fields, key: string, v: JsonValue, k: string, text: string, n: u64)
    requires key == k ==> key !in o && v == Number(text) && ParseUint(text, k, U64_MAX) == Success(n)
    ensures OptionalU64(o[key := v], k) == if key == k then Success(Some(n)) else OptionalU64(o, k)
    ensures key == k ==> OptionalU64(o, k) == Success(None)
  {
    hide ParseUint;
  }

  /** The numbers of the table, and the names. */
  lemma TableReads(key: string)
    ensures ParseUint("900", key, U64_MAX) == Success(900) && ParseUint("180", key, U64_MAX) == Success(180)
    ensures ParseUint("80", key, U64_MAX) == Success(80) && ParseUint("260", key, U64_MAX) == Success(260)
  {
    hide ParseUint;
    assert "90"[..1] == "9" && "900"[..2] == "90" && "18"[..1] == "1" && "180"[..2] == "18";
    assert "80"[..1] == "8" && "26"[..1] == "2" && "260"[..2] == "26";
    assert DecValue("9") == 9 && DecValue("1") == 1 && DecValue("8") == 8 && DecValue("2") == 2;
    assert DecValue("90") == 90 && DecValue("18") == 18 && DecValue("26") == 26;
    ReadsAs("900", 900, key);
    ReadsAs("180", 180, key);
    ReadsAs("80", 80, key);
    ReadsAs("260", 260, key);
  }

  lemma NamesOfTable()
    ensures ParseEasing("ease-out-cubic") == Success(EaseOutCubic) && ParsePushMode("portal") == Success(Portal)
    ensures ParseCanvasMode("clipped") == Success(Clipped) && ParseWalk("paged") == Success(Paged) && ParseAxis("auto") == Success(AutoAxis)
  {}

  lemma ScaleSame(o: Fields, key: string, v: JsonValue)
    requires key != "overview_scale"
    ensures OptionalScale(o[key := v], "overview_scale") == OptionalScale(o, "overview_scale")
  {
    hide ParseReal;
  }

  lemma TilesSame(o: Fields, key: string, v: JsonValue)
    requires key != "max_tile_count" && (key == "tile_count" ==> key !in o && v == String("auto"))
    ensures ParseTileCount(o[key := v]) == ParseTileCount(o)
  {
    hide ParseUint, OptionalU64;
    SameNumber(o, key, v, "max_tile_count");
  }

  /** The field reads the same, or was absent and now reads as the default. */
  predicate FilledIn<T(==)>(before: Result<Option<T>>, after: Result<Option<T>>, default: T) {
    after == before || (before == Success(None) && after == Success(Some(default)))
  }

  lemma CanvasNumbers(o: Fields, key: string, v: JsonValue)
    requires HarmlessIn("canvas", o, key, v)
    ensures FilledIn(OptionalU64(o, "zoom_out_ms"), OptionalU64(o[key := v], "zoom_out_ms"), 180)
    ensures FilledIn(OptionalU64(o, "pan_ms"), OptionalU64(o[key := v], "pan_ms"), 80)
    ensures FilledIn(OptionalU64(o, "zoom_in_ms"), OptionalU64(o[key := v], "zoom_in_ms"), 260)
  {
    hide ParseUint, OptionalU64;
    TableReads(key);
    NumberDefault(o, key, v, "zoom_out_ms", "180", 180);
    NumberDefault(o, key, v, "pan_ms", "80", 80);
    NumberDefault(o, key, v, "zoom_in_ms", "260", 260);
  }

  lemma CanvasTexts(o: Fields, key: string, v: JsonValue)
    requires HarmlessIn("canvas", o, key, v)
    ensures FilledIn(OptionalString(o, "mode"), OptionalString(o[key := v], "mode"), "clipped")
    ensures FilledIn(OptionalString(o, "walk"), OptionalString(o[key := v], "walk"), "paged")
    ensures FilledIn(OptionalString(o, "pan_axis"), OptionalString(o[key := v], "pan_axis"), "auto")
  {
    hide OptionalString;
    TextDefault(o, key, v, "mode");
    TextDefault(o, key, v, "walk");
    TextDefault(o, key, v, "pan_axis");
  }

  lemma CanvasRest(o: Fields, key: string, v: JsonValue)
    requires HarmlessIn("canvas", o, key, v)
    ensures OptionalScale(o[key := v], "overview_scale") == OptionalScale(o, "overview_scale") && ParseTileCount(o[key := v]) == ParseTileCount(o)
  {
    hide OptionalScale, ParseTileCount;
    ScaleSame(o, key, v);
    TilesSame(o, key, v);
  }

  lemma CanvasAlike(o: Fields, key: string, v: JsonValue, easing: Easing)
    requires HarmlessIn("canvas", o, key, v)
    ensures ParseCanvas(o[key := v], easing) == ParseCanvas(o, easing)
  {
    hide HarmlessIn, ParseCanvasMode, ParseWalk, ParseAxis, OptionalScale, OptionalU64, OptionalString, ParseTileCount, ScaleOk, ModeWalkOk, Positive;
    NamesOfTable();
    CanvasNumbers(o, key, v);
    CanvasTexts(o, key, v);
    CanvasRest(o, key, v);
  }

  /** A transition reads as with the field put in that it leaves out; a field that is not known does not matter. */
  lemma TransitionReads(kind: string, o: Fields, key: string, v: JsonValue)
    requires OfKind(o, kind) && HarmlessIn(kind, o, key, v)
    ensures ParseTransition(Object(o[key := v])) == ParseTransition(Object(o))
  {
    hide KindOf, ParseCanvas, ParseEasing, ParsePushMode, ParseDirection, OptionalU64, OptionalString, RequiredString, ParseUint;
    TableReads(key);
    NamesOfTable();
    Kinds();
    KindIs(kind);
    TextDefault(o, key, v, "type");
    NumberDefault(o, key, v, "duration_ms", "900", 900);
    TextDefault(o, key, v, "easing");
    TypeIs(kind, o);
    if kind == "push" {
      TextDefault(o, key, v, "direction");
      TextDefault(o, key, v, "mode");
    } else if kind == "canvas" {
      var text := OptionalString(o, "easing");
      if text.Success? {
        var easing := ParseOr(text.value, EaseOutCubic, ParseEasing);
        if easing.Success? {
          CanvasAlike(o, key, v, easing.value);
        }
      }
    }
  }

  lemma TypeIs(kind: string, o: Fields)
    requires OfKind(o, kind)
    ensures RequiredString(o, "type") == Success(kind)
  {}

  lemma KindIs(name: string)
    ensures KindOf(name) == Success(PushKind) <==> name == "push"
    ensures KindOf(name) == Success(CanvasKind) <==> name == "canvas"
  {}

  /** A canvas without a scale is shown at a third; without a largest tile count it has none. */
  lemma CanvasLeftOut(o: Fields)
    requires OfKind(o, "canvas") && ParseTransition(Object(o)).Success?
    ensures var t := ParseTransition(Object(o)).value;
      && t.Canvas? && ("overview_scale" !in o ==> t.overview_scale == 1.0 / 3.0)
      && ("max_tile_count" !in o && t.tile_count.Auto? ==> t.tile_count.max == None)
  {
    hide ParseCanvasMode, ParseWalk, ParseAxis, ParseReal, ParseUint, ParseEasing;
  }

  /** A route without a level is for level zero. */
  lemma FocusReads(o: Fields)
    requires "lod" !in o
    ensures ParseFocus(Object(o["lod" := Number("0")])) == ParseFocus(Object(o))
  {
    hide ParseUint;
    ReadsAs("0", 0, "lod");
  }

  /** Spellings that are read but never printed. */
  lemma OtherSpellings(index: Option<usize>)
    ensures ParseWalk("page") == ParseWalk("grid") == ParseWalk("paged") && ParseWalk("line") == ParseWalk("strip")
    ensures ParseAction("quarentine", index) == ParseAction("quarantine", index)
  {}
}
