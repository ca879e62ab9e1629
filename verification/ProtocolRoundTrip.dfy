/** Requests survive the wire: parsing a printed request gives it back exactly when the request
    is well formed. */
module ProtocolRoundTrip {
  import opened Prelude
  import opened JsonValues
  import opened JsonGrammar
  import opened Decimal
  import opened Protocol
  import opened ProtocolText
  import X = JsonExactness
  import D = JsonDescent

  // ---- what the daemon accepts ----

  predicate TransitionOk(t: Transition) {
    match t
    case Cut => true
    case Fade(ms, _) => ms > 0
    case World(ms, _) => ms > 0
    case Push(_, ms, _, _) => ms > 0
    case Canvas(out_ms, pan_ms, in_ms, _, mode, walk, _, scale, tiles) =>
      && out_ms > 0 && pan_ms > 0 && in_ms > 0
      && ScaleOk(scale) && IsMillionths(scale)
      && ModeWalkOk(mode, walk)
      && TilesOk(tiles)
  }

  predicate TilesOk(c: CanvasTileCount) {
    match c case Auto(max) => max.None? || TileCountOk(max.value) case Fixed(n) => TileCountOk(n)
  }

  predicate OutputsOk(m: map<string, string>) {
    m != map[] && "" !in m && forall k | k in m :: m[k] != ""
  }

  /** The guards a caller can check before sending. The six-decimal grid of the overview scale is
      the only one the daemon does not report as an error. */
  predicate WellFormed(r: Request) {
    match r
    case Set(outputs, transition, _, _) => OutputsOk(outputs) && TransitionOk(transition)
    case Preload(outputs) => OutputsOk(outputs)
    case Wallpaper(_, transition, _) => transition.Some? ==> TransitionOk(transition.value)
    case Cache(action) => action.Warm? ==> action.workers > 0
    case RenderCanvasSet(outputs, transition, _, _, _, _) => OutputsOk(outputs) && TransitionOk(transition)
    case RenderWorldSet(outputs, transition, _, _, _, _, _, _, _, routes) =>
      OutputsOk(outputs) && TransitionOk(transition) && routes != map[] && "" !in routes
    case _ => true
  }

  // ---- the JSON value of a transition ----

  function Digits(n: nat): JsonValue { Number(DecText(n)) }

  function CanvasHead(t: Transition): Fields
    requires t.Canvas?
  {
    map["type" := String("canvas"), "zoom_out_ms" := Digits(t.zoom_out_ms), "pan_ms" := Digits(t.pan_ms),
        "zoom_in_ms" := Digits(t.zoom_in_ms), "easing" := String(EasingName(t.easing)),
        "mode" := String(CanvasModeName(t.mode)), "walk" := String(WalkName(t.walk)),
        "pan_axis" := String(AxisName(t.pan_axis)), "overview_scale" := Number(ScaleText(t.overview_scale))]
  }

  function TileCountValue(c: CanvasTileCount): Fields {
    match c
    case Auto(None) => map["tile_count" := String("auto")]
    case Auto(Some(max)) => map["tile_count" := String("auto"), "max_tile_count" := Digits(max)]
    case Fixed(n) => map["tile_count" := Digits(n)]
  }

  function TransitionValue(t: Transition): Fields {
    match t
    case Cut => map["type" := String("cut")]
    case Fade(ms, easing) => map["type" := String("fade"), "duration_ms" := Digits(ms), "easing" := String(EasingName(easing))]
    case World(ms, easing) => map["type" := String("world"), "duration_ms" := Digits(ms), "easing" := String(EasingName(easing))]
    case Push(direction, ms, easing, mode) =>
      map["type" := String("push"), "direction" := String(DirectionName(direction)), "duration_ms" := Digits(ms),
          "easing" := String(EasingName(easing)), "mode" := String(PushModeName(mode))]
    case Canvas(_, _, _, _, _, _, _, _, tiles) => CanvasHead(t) + TileCountValue(tiles)
  }

  function CanvasHeadFields(t: Transition): seq<(string, string)>
    requires t.Canvas?
  {
    [("type", JsonString("canvas")), ("zoom_out_ms", DecText(t.zoom_out_ms)), ("pan_ms", DecText(t.pan_ms)),
     ("zoom_in_ms", DecText(t.zoom_in_ms)), ("easing", JsonString(EasingName(t.easing))),
     ("mode", JsonString(CanvasModeName(t.mode))), ("walk", JsonString(WalkName(t.walk))),
     ("pan_axis", JsonString(AxisName(t.pan_axis))), ("overview_scale", ScaleText(t.overview_scale))]
  }

  lemma CanvasHeadFits(t: Transition, depth: nat)
    requires t.Canvas?
    ensures Fits(CanvasHeadFields(t), CanvasHead(t), depth)
  {
    hide Encodes, JsonString, DecText, ScaleText, EasingName, CanvasModeName, WalkName, AxisName;
    EncodesString("canvas", depth);
    EncodesNat(t.zoom_out_ms, depth);
    EncodesNat(t.pan_ms, depth);
    EncodesNat(t.zoom_in_ms, depth);
    EncodesString(EasingName(t.easing), depth);
    EncodesString(CanvasModeName(t.mode), depth);
    EncodesString(WalkName(t.walk), depth);
    EncodesString(AxisName(t.pan_axis), depth);
    EncodesScale(t.overview_scale, depth);
    var f := CanvasHeadFields(t);
    assert f[0].0 == "type" && f[1].0 == "zoom_out_ms" && f[2].0 == "pan_ms" && f[3].0 == "zoom_in_ms" && f[4].0 == "easing";
    assert f[5].0 == "mode" && f[6].0 == "walk" && f[7].0 == "pan_axis" && f[8].0 == "overview_scale";
  }

  lemma TileCountFits(c: CanvasTileCount, depth: nat)
    ensures Fits(TileCountFields(c), TileCountValue(c), depth)
  {
    hide Encodes, JsonString, DecText;
    var f := TileCountFields(c);
    EncodesString("auto", depth);
    assert f[0].0 == "tile_count";
    match c
    case Auto(None) =>
    case Auto(Some(max)) => EncodesNat(max, depth); assert f[1].0 == "max_tile_count";
    case Fixed(n) => EncodesNat(n, depth);
  }

  lemma EncodesCanvas(t: Transition, depth: nat)
    requires t.Canvas?
    ensures Encodes(TransitionText(t), Object(TransitionValue(t)), depth + 1)
  {
    hide Encodes, Fits, ObjectText, JsonString, DecText, ScaleText, EasingName, CanvasModeName, WalkName, AxisName, TileCountFields;
    CanvasHeadFits(t, depth);
    TileCountFits(t.tile_count, depth);
    FitsAppend(CanvasHeadFields(t), CanvasHead(t), TileCountFields(t.tile_count), TileCountValue(t.tile_count), depth);
    EncodesObject(CanvasHeadFields(t) + TileCountFields(t.tile_count), TransitionValue(t), depth);
  }

  lemma EncodesTransition(t: Transition, depth: nat)
    ensures Encodes(TransitionText(t), Object(TransitionValue(t)), depth + 1)
  {
    hide Encodes, ObjectText, JsonString, DecText, EasingName, DirectionName, PushModeName, ScaleText;
    match t
    case Cut =>
      var f := [("type", JsonString("cut"))];
      EncodesString("cut", depth);
      assert f[0].0 == "type";
      EncodesObject(f, TransitionValue(t), depth);
    case Fade(ms, easing) => EncodesTimed("fade", ms, easing, depth);
    case World(ms, easing) => EncodesTimed("world", ms, easing, depth);
    case Push(_, _, _, _) => EncodesPush(t, depth);
    case Canvas(_, _, _, _, _, _, _, _, _) => EncodesCanvas(t, depth);
  }

  lemma EncodesTimed(name: string, ms: u64, easing: Easing, depth: nat)
    ensures Encodes(ObjectText([("type", JsonString(name)), ("duration_ms", DecText(ms)), ("easing", JsonString(EasingName(easing)))]),
                    Object(map["type" := String(name), "duration_ms" := Digits(ms), "easing" := String(EasingName(easing))]), depth + 1)
  {
    hide Encodes, ObjectText, JsonString, DecText, EasingName;
    var f := [("type", JsonString(name)), ("duration_ms", DecText(ms)), ("easing", JsonString(EasingName(easing)))];
    EncodesString(name, depth);
    EncodesNat(ms, depth);
    EncodesString(EasingName(easing), depth);
    assert f[0].0 == "type" && f[1].0 == "duration_ms" && f[2].0 == "easing";
    EncodesObject(f, map["type" := String(name), "duration_ms" := Digits(ms), "easing" := String(EasingName(easing))], depth);
  }

  lemma EncodesPush(t: Transition, depth: nat)
    requires t.Push?
    ensures Encodes(TransitionText(t), Object(TransitionValue(t)), depth + 1)
  {
    hide Encodes, ObjectText, JsonString, DecText, EasingName, DirectionName, PushModeName;
    var f := [("type", JsonString("push")), ("direction", JsonString(DirectionName(t.direction))),
              ("duration_ms", DecText(t.duration_ms)), ("easing", JsonString(EasingName(t.easing))), ("mode", JsonString(PushModeName(t.pushMode)))];
    EncodesString("push", depth);
    EncodesString(DirectionName(t.direction), depth);
    EncodesNat(t.duration_ms, depth);
    EncodesString(EasingName(t.easing), depth);
    EncodesString(PushModeName(t.pushMode), depth);
    assert f[0].0 == "type" && f[1].0 == "direction" && f[2].0 == "duration_ms" && f[3].0 == "easing" && f[4].0 == "mode";
    EncodesObject(f, TransitionValue(t), depth);
  }

  // ---- the JSON value of a request ----

  function ActionValue(a: WallpaperAction): JsonValue {
    if HasIndex(a) then Object(map["type" := String(ActionName(a)), "index" := Digits(a.index)])
    else String(ActionName(a))
  }

  lemma EncodesAction(a: WallpaperAction, depth: nat)
    ensures Encodes(ActionText(a), ActionValue(a), depth + 1)
  {
    hide Encodes, ObjectText, JsonString, DecText, ActionName;
    if HasIndex(a) {
      var f := [("type", JsonString(ActionName(a))), ("index", DecText(a.index))];
      EncodesString(ActionName(a), depth);
      EncodesNat(a.index, depth);
      assert f[0].0 == "type" && f[1].0 == "index";
      EncodesObject(f, ActionValue(a).fields, depth);
    } else {
      EncodesString(ActionName(a), depth + 1);
    }
  }

  function SetHead(kind: string, outputs: map<string, string>, t: Transition, mode: ScaleMode, partial: bool): Fields {
    map["type" := String(kind), "outputs" := Object(MapValue(outputs)), "transition" := Object(TransitionValue(t)),
        "scale_mode" := String(ScaleModeName(mode)), "allow_partial" := Bool(partial)]
  }

  function SetHeadFields(kind: string, outputs: map<string, string>, t: Transition, mode: ScaleMode, partial: bool): seq<(string, string)> {
    [("type", JsonString(kind)), ("outputs", ObjectText(MapFields(outputs))), ("transition", TransitionText(t)),
     ("scale_mode", JsonString(ScaleModeName(mode))), ("allow_partial", BoolText(partial))]
  }

  lemma SetHeadKeys(kind: string, outputs: map<string, string>, t: Transition, mode: ScaleMode, partial: bool)
    ensures var f, m := SetHeadFields(kind, outputs, t, mode, partial), SetHead(kind, outputs, t, mode, partial);
      DistinctKeys(f) && KeysFit(f, m) && (forall i | 0 <= i < |f| :: f[i].0 in m)
  {
    hide JsonString, ObjectText, MapFields, MapValue, TransitionText, TransitionValue, ScaleModeName, BoolText;
    var f := SetHeadFields(kind, outputs, t, mode, partial);
    assert f[0].0 == "type" && f[1].0 == "outputs" && f[2].0 == "transition" && f[3].0 == "scale_mode" && f[4].0 == "allow_partial";
  }

  lemma SetHeadFits(kind: string, outputs: map<string, string>, t: Transition, mode: ScaleMode, partial: bool)
    ensures Fits(SetHeadFields(kind, outputs, t, mode, partial), SetHead(kind, outputs, t, mode, partial), 2)
  {
    hide Encodes, JsonString, ObjectText, MapFields, MapValue, TransitionText, TransitionValue, ScaleModeName, BoolText, EscapedText, DecText,
         DistinctKeys, KeysFit;
    SetHeadKeys(kind, outputs, t, mode, partial);
    EncodesString(kind, 2);
    EncodesMap(outputs, 1);
    EncodesTransition(t, 1);
    EncodesString(ScaleModeName(mode), 2);
    EncodesBool(partial, 2);
  }

  function CanvasSetTail(r: Request): Fields
    requires r.RenderCanvasSet?
  {
    map["preview_paths" := StringsValue(r.preview_paths), "preview_start" := Digits(r.preview_start)]
  }

  lemma CanvasSetFits(r: Request)
    requires r.RenderCanvasSet?
    ensures Fits(RequestFields(r), RequestValue(r), 2)
  {
    hide Encodes, JsonString, ObjectText, MapFields, MapValue, TransitionText, TransitionValue, ScaleModeName, BoolText, StringsValue, StringArrayText, DecText;
    var head := SetHeadFields("renderer_canvas_set", r.outputs, r.transition, r.scale_mode, r.allow_partial);
    SetHeadFits("renderer_canvas_set", r.outputs, r.transition, r.scale_mode, r.allow_partial);
    var f := [("preview_paths", StringArrayText(r.preview_paths)), ("preview_start", DecText(r.preview_start))];
    EncodesStrings(r.preview_paths, 1);
    EncodesNat(r.preview_start, 2);
    assert f[0].0 == "preview_paths" && f[1].0 == "preview_start";
    FitsAppend(head, SetHead("renderer_canvas_set", r.outputs, r.transition, r.scale_mode, r.allow_partial), f, CanvasSetTail(r), 2);
    assert RequestFields(r) == head + f;
  }

  function WorldSetTail(r: Request): Fields
    requires r.RenderWorldSet?
  {
    map["library_count" := Digits(r.library_count), "columns" := Digits(r.columns), "fingerprint" := Digits(r.fingerprint),
        "thumbnail_edge" := Digits(r.thumbnail_edge), "tile_cells" := Digits(r.tile_cells), "routes" := Object(RoutesValue(r.routes))]
  }

  function WorldSetTailFields(r: Request): seq<(string, string)>
    requires r.RenderWorldSet?
  {
    [("library_count", DecText(r.library_count)), ("columns", DecText(r.columns)), ("fingerprint", DecText(r.fingerprint)),
     ("thumbnail_edge", DecText(r.thumbnail_edge)), ("tile_cells", DecText(r.tile_cells)), ("routes", ObjectText(RouteFields(r.routes)))]
  }

  lemma WorldSetTailFits(r: Request)
    requires r.RenderWorldSet?
    ensures Fits(WorldSetTailFields(r), WorldSetTail(r), 2)
  {
    hide Encodes, JsonString, ObjectText, RoutesValue, RouteFields, DecText;
    EncodesNat(r.library_count, 2);
    EncodesNat(r.columns, 2);
    EncodesNat(r.fingerprint, 2);
    EncodesNat(r.thumbnail_edge, 2);
    EncodesNat(r.tile_cells, 2);
    EncodesRoutes(r.routes, 0);
    var f := WorldSetTailFields(r);
    assert f[0].0 == "library_count" && f[1].0 == "columns" && f[2].0 == "fingerprint";
    assert f[3].0 == "thumbnail_edge" && f[4].0 == "tile_cells" && f[5].0 == "routes";
  }

  lemma WorldSetFits(r: Request)
    requires r.RenderWorldSet?
    ensures Fits(RequestFields(r), RequestValue(r), 2)
  {
    hide Encodes, Fits, JsonString, ObjectText, MapFields, MapValue, TransitionText, TransitionValue, ScaleModeName, BoolText, RoutesValue, RouteFields, DecText;
    var head := SetHeadFields("renderer_world_set", r.outputs, r.transition, r.scale_mode, r.allow_partial);
    SetHeadFits("renderer_world_set", r.outputs, r.transition, r.scale_mode, r.allow_partial);
    WorldSetTailFits(r);
    FitsAppend(head, SetHead("renderer_world_set", r.outputs, r.transition, r.scale_mode, r.allow_partial), WorldSetTailFields(r), WorldSetTail(r), 2);
    assert RequestFields(r) == head + WorldSetTailFields(r);
  }

  function OptionalTransitionValue(t: Option<Transition>): JsonValue {
    if t.None? then Null else Object(TransitionValue(t.value))
  }

  function OptionalScaleModeValue(m: Option<ScaleMode>): JsonValue {
    if m.None? then Null else String(ScaleModeName(m.value))
  }

  lemma WallpaperFits(r: Request)
    requires r.Wallpaper?
    ensures Fits(RequestFields(r), RequestValue(r), 2)
  {
    hide Encodes, JsonString, ActionText, ActionValue, TransitionText, TransitionValue, ScaleModeName;
    EncodesString("wallpaper", 2);
    EncodesAction(r.action, 1);
    EncodesNull(2);
    if r.optTransition.Some? {
      EncodesTransition(r.optTransition.value, 1);
    }
    if r.optScaleMode.Some? {
      EncodesString(ScaleModeName(r.optScaleMode.value), 2);
    }
    var f := RequestFields(r);
    assert f[0].0 == "type" && f[1].0 == "action" && f[2].0 == "transition" && f[3].0 == "scale_mode";
  }

  function CacheValue(a: CacheAction): Fields {
    match a
    case Status => map["type" := String("cache"), "action" := String("status")]
    case ClearCache => map["type" := String("cache"), "action" := String("clear")]
    case Warm(scope, workers, backend) =>
      map["type" := String("cache"), "action" := String("warm"), "scope" := String(ScopeName(scope)),
          "workers" := Digits(workers), "backend" := String(BackendName(backend))]
  }

  lemma CacheFits(a: CacheAction)
    ensures Fits(CacheFields(a), CacheValue(a), 2)
  {
    hide Encodes, JsonString, DecText, ScopeName, BackendName;
    EncodesString("cache", 2);
    EncodesString("status", 2);
    EncodesString("clear", 2);
    EncodesString("warm", 2);
    var f := CacheFields(a);
    assert f[0].0 == "type" && f[1].0 == "action";
    if a.Warm? {
      EncodesString(ScopeName(a.scope), 2);
      EncodesNat(a.workers, 2);
      EncodesString(BackendName(a.backend), 2);
      assert f[2].0 == "scope" && f[3].0 == "workers" && f[4].0 == "backend";
    }
  }

  function KindValue(kind: string): Fields { map["type" := String(kind)] }

  lemma KindFits(kind: string)
    ensures Fits([("type", JsonString(kind))], KindValue(kind), 2)
  {
    hide Encodes, JsonString;
    var f := [("type", JsonString(kind))];
    EncodesString(kind, 2);
    assert f[0].0 == "type";
  }

  lemma PreloadFits(outputs: map<string, string>)
    ensures Fits([("type", JsonString("preload")), ("outputs", ObjectText(MapFields(outputs)))],
                 map["type" := String("preload"), "outputs" := Object(MapValue(outputs))], 2)
  {
    hide Encodes, JsonString, ObjectText, MapFields, MapValue;
    var f := [("type", JsonString("preload")), ("outputs", ObjectText(MapFields(outputs)))];
    EncodesString("preload", 2);
    EncodesMap(outputs, 1);
    assert f[0].0 == "type" && f[1].0 == "outputs";
  }

  lemma ClearFits(names: seq<string>, color: string)
    ensures Fits([("type", JsonString("clear")), ("outputs", StringArrayText(names)), ("color", JsonString(color))],
                 map["type" := String("clear"), "outputs" := StringsValue(names), "color" := String(color)], 2)
  {
    hide Encodes, JsonString, StringArrayText, StringsValue;
    var f := [("type", JsonString("clear")), ("outputs", StringArrayText(names)), ("color", JsonString(color))];
    EncodesString("clear", 2);
    EncodesStrings(names, 1);
    EncodesString(color, 2);
    assert f[0].0 == "type" && f[1].0 == "outputs" && f[2].0 == "color";
  }

  function RequestValue(r: Request): Fields {
    match r
    case Ping => KindValue("ping")
    case Capabilities => KindValue("capabilities")
    case Health => KindValue("health")
    case Query => KindValue("query")
    case Stop => KindValue("stop")
    case Set(outputs, t, mode, partial) => SetHead("set", outputs, t, mode, partial)
    case Preload(outputs) => map["type" := String("preload"), "outputs" := Object(MapValue(outputs))]
    case Clear(names, color) => map["type" := String("clear"), "outputs" := StringsValue(names), "color" := String(color)]
    case Wallpaper(action, t, mode) =>
      map["type" := String("wallpaper"), "action" := ActionValue(action), "transition" := OptionalTransitionValue(t),
          "scale_mode" := OptionalScaleModeValue(mode)]
    case Cache(action) => CacheValue(action)
    case RenderCanvasSet(outputs, t, mode, partial, _, _) =>
      SetHead("renderer_canvas_set", outputs, t, mode, partial) + CanvasSetTail(r)
    case RenderWorldSet(outputs, t, mode, partial, _, _, _, _, _, _) =>
      SetHead("renderer_world_set", outputs, t, mode, partial) + WorldSetTail(r)
  }

  lemma RequestFits(r: Request)
    ensures Fits(RequestFields(r), RequestValue(r), 2)
  {
    hide Fits;
    match r
    case Ping => KindFits("ping");
    case Capabilities => KindFits("capabilities");
    case Health => KindFits("health");
    case Query => KindFits("query");
    case Stop => KindFits("stop");
    case Set(outputs, t, mode, partial) => SetHeadFits("set", outputs, t, mode, partial);
    case Preload(outputs) => PreloadFits(outputs);
    case Clear(names, color) => ClearFits(names, color);
    case Wallpaper(_, _, _) => WallpaperFits(r);
    case Cache(action) => CacheFits(action);
    case RenderCanvasSet(_, _, _, _, _, _) => CanvasSetFits(r);
    case RenderWorldSet(_, _, _, _, _, _, _, _, _, _) => WorldSetFits(r);
  }

  /** Whatever the request holds, its text is JSON for its fields. */
  lemma ToJsonParses(r: Request)
    ensures D.ParseText(ToJson(r)) == D.Parses(Object(RequestValue(r)))
  {
    hide Fits, RequestFields, RequestValue, ObjectText, D.ParseText;
    RequestFits(r);
    EncodesObject(RequestFields(r), RequestValue(r), 2);
    var t :| TreeOk(t) && Text(t) == ToJson(r) && Value(t) == Object(RequestValue(r)) && Depth(t) <= 3;
    var none := "";
    assert IsWs(none) && ToJson(r) == none + Text(t) + none;
    assert Derives(ToJson(r), Object(RequestValue(r)), D.MAX_DEPTH);
    X.ParseExact(ToJson(r), Object(RequestValue(r)));
  }

  // ---- reading the values back ----

  lemma {:induction false} DigitsOnly(s: string)
    requires IsDigits(s)
    ensures !NotDecimalInteger(s)
  {}

  lemma ReadDigits(n: nat, key: string, max: nat)
    requires n <= max
    ensures ParseUint(DecText(n), key, max) == Success(n)
  {
    DigitsOnly(DecText(n));
    ParsePrinted(n, max);
    assert IsDigit(DecText(n)[0]);
  }

  lemma ReadU64(o: Fields, key: string, n: u64)
    requires key in o && o[key] == Digits(n)
    ensures OptionalU64(o, key) == Success(Some(n)) && RequiredU64(o, key) == Success(n)
  {
    ReadDigits(n, key, U64_MAX);
  }

  lemma ReadU32(o: Fields, key: string, n: u32)
    requires key in o && o[key] == Digits(n)
    ensures RequiredU32(o, key) == Success(n)
  {
    ReadDigits(n, key, U32_MAX);
  }

  lemma ReadMagnitude(whole: string, fraction: string)
    requires whole != "" && IsDigits(whole) && IsDigits(fraction)
    ensures ParseMagnitude(whole + "." + fraction) == Some(FractionValue(whole, fraction))
  {
    var s, rest := whole + "." + fraction, "." + fraction;
    assert s == whole + rest;
    X.DigitRunOf(whole, rest);
    X.DropPrefix(whole, rest);
    X.DropPrefix(".", fraction);
    X.DigitRunOf(fraction, "");
    assert fraction + "" == fraction && fraction[..|fraction|] == fraction && fraction[|fraction|..] == "";
  }

  /** What the daemon reads for a printed scale: the nearest millionth. */
  function ReadBack(x: real): real {
    if x < 0.0 then -(Millionths(-x) as real / 1000000.0) else Millionths(x) as real / 1000000.0
  }

  lemma SignOfDigits(s: string)
    requires s != "" && IsDigit(s[0])
    ensures ParseReal(s) == ParseMagnitude(s)
    ensures ParseReal("-" + s) == match ParseMagnitude(s) case None => None case Some(x) => Some(-x)
  {
    hide ParseMagnitude;
    X.DropPrefix("-", s);
  }

  lemma ReadScale(x: real)
    ensures ParseReal(ScaleText(x)) == Some(ReadBack(x))
  {
    hide ParseMagnitude, ParseReal, Millionths, WholeDigits, FractionDigits;
    var n := Millionths(if x < 0.0 then -x else x);
    var whole, fraction := WholeDigits(n), FractionDigits(n);
    PrintedMillionths(n);
    ReadMagnitude(whole, fraction);
    var magnitude := whole + "." + fraction;
    assert IsDigit(whole[0]) && magnitude[0] == whole[0];
    SignOfDigits(magnitude);
    if x < 0.0 {
      assert ScaleText(x) == "-" + magnitude;
    } else {
      assert ScaleText(x) == magnitude;
    }
  }

  lemma ReadBackExact(x: real)
    requires x >= 0.0
    ensures ReadBack(x) == x <==> IsMillionths(x)
  {
    var n := Millionths(x);
    assert ReadBack(x) * 1000000.0 == n as real;
    if IsMillionths(x) {
      assert n as real == x * 1000000.0;
    }
    assert (n as real).Floor == n;
  }

  lemma ReadOutputs(o: Fields, m: map<string, string>)
    requires "outputs" in o && o["outputs"] == Object(MapValue(m))
    ensures RequiredOutputs(o) == Success(m) <==> OutputsOk(m)
    ensures RequiredOutputs(o).Success? ==> RequiredOutputs(o) == Success(m)
  {
    var v := MapValue(m);
    assert v.Keys == m.Keys;
    if m == map[] {
      assert v == map[];
    } else {
      var k :| k in m;
      assert k in v;
      assert v != map[];
      if exists k | k in m :: m[k] == "" {
        var k :| k in m && m[k] == "";
        assert k in v && v[k].chars == "";
      }
      if RequiredOutputs(o).Success? {
        assert RequiredOutputs(o).value == m;
      }
    }
  }

  lemma ReadStrings(items: seq<string>)
    ensures StringsValue(items).Array? && AllStrings(StringsValue(items).values) == Success(items)
  {
    var values := StringsValue(items).values;
    assert AllStrings(values).Success?;
    assert AllStrings(values).value == items;
  }

  lemma ReadFocus(f: WorldRouteFocus)
    ensures ParseFocus(Object(FocusValue(f))) == Success(f)
  {
    hide DecText;
    var o := FocusValue(f);
    ReadU64(o, "current_index", f.current_index);
    ReadU64(o, "target_index", f.target_index);
    ReadU64(o, "lod", f.lod);
  }

  lemma ReadRoutes(o: Fields, m: map<string, WorldRouteFocus>)
    requires "routes" in o && o["routes"] == Object(RoutesValue(m))
    ensures ParseRoutes(o) == Success(m) <==> m != map[] && "" !in m
    ensures ParseRoutes(o).Success? ==> ParseRoutes(o) == Success(m)
  {
    hide ParseFocus, FocusValue;
    var v := RoutesValue(m);
    assert v.Keys == m.Keys;
    forall k | k in v ensures ParseFocus(v[k]) == Success(m[k]) { ReadFocus(m[k]); }
    if m == map[] {
      assert v == map[];
    } else {
      var k :| k in m;
      assert k in v;
      if ParseRoutes(o).Success? {
        assert ParseRoutes(o).value == m;
      }
    }
  }

  // ---- transitions ----

  lemma ReadTimed(o: Fields, ms: u64, easing: Easing)
    requires "duration_ms" in o && o["duration_ms"] == Digits(ms)
    requires "easing" in o && o["easing"] == String(EasingName(easing))
    ensures OptionalU64(o, "duration_ms") == Success(Some(ms))
    ensures OptionalString(o, "easing") == Success(Some(EasingName(easing))) && ParseEasing(EasingName(easing)) == Success(easing)
  {
    ReadU64(o, "duration_ms", ms);
  }

  lemma NamesRead()
    ensures forall d :: ParseDirection(DirectionName(d)) == Success(d)
    ensures forall m :: ParsePushMode(PushModeName(m)) == Success(m)
    ensures forall m :: ParseScaleMode(ScaleModeName(m)) == Success(m)
  {}

  lemma CanvasNamesRead(mode: CanvasMode, walk: CanvasWalk, axis: CanvasPanAxis, easing: Easing)
    ensures ParseCanvasMode(CanvasModeName(mode)) == Success(mode)
    ensures ParseWalk(WalkName(walk)) == Success(walk)
    ensures ParseAxis(AxisName(axis)) == Success(axis)
    ensures ParseEasing(EasingName(easing)) == Success(easing)
  {}

  lemma ReadTileCount(o: Fields, c: CanvasTileCount)
    requires forall k | k in TileCountValue(c) :: k in o && o[k] == TileCountValue(c)[k]
    requires "max_tile_count" in o ==> "max_tile_count" in TileCountValue(c)
    ensures ParseTileCount(o) == if TilesOk(c) then Success(c) else Failure(BadTileCount)
  {
    hide DecText;
    assert "tile_count" in TileCountValue(c);
    match c
    case Auto(None) =>
    case Auto(Some(max)) =>
      assert "max_tile_count" in TileCountValue(c);
      ReadU64(o, "max_tile_count", max);
    case Fixed(n) =>
      ReadDigits(n, "tile_count", U64_MAX);
  }

  lemma ReadCanvas(t: Transition)
    requires t.Canvas?
    ensures ParseCanvas(TransitionValue(t), t.easing) == Success(t) <==> TransitionOk(t)
  {
    hide DecText, ScaleText, ParseReal, ParseTileCount, CanvasModeName, WalkName, AxisName, EasingName, ParseCanvasMode, ParseWalk, ParseAxis,
         OptionalU64, OptionalScale, TilesOk, IsMillionths, ReadBack, ScaleOk, ModeWalkOk;
    var o := TransitionValue(t);
    ReadCanvasNumbers(t);
    CanvasNamesRead(t.mode, t.walk, t.pan_axis, t.easing);
    ReadTileCount(o, t.tile_count);
    if t.overview_scale >= 0.0 {
      ReadBackExact(t.overview_scale);
    } else {
      NegativeScale(t.overview_scale);
    }
  }

  lemma NegativeScale(x: real)
    requires x < 0.0
    ensures !ScaleOk(x) && !ScaleOk(ReadBack(x))
  {}

  lemma ReadCanvasNumbers(t: Transition)
    requires t.Canvas?
    ensures var o := TransitionValue(t);
      && OptionalU64(o, "zoom_out_ms") == Success(Some(t.zoom_out_ms)) && OptionalU64(o, "pan_ms") == Success(Some(t.pan_ms))
      && OptionalU64(o, "zoom_in_ms") == Success(Some(t.zoom_in_ms)) && OptionalScale(o, "overview_scale") == Success(Some(ReadBack(t.overview_scale)))
  {
    hide DecText, ScaleText, ParseReal, OptionalU64, CanvasModeName, WalkName, AxisName, EasingName, ReadBack;
    var o := TransitionValue(t);
    ReadU64(o, "zoom_out_ms", t.zoom_out_ms);
    ReadU64(o, "pan_ms", t.pan_ms);
    ReadU64(o, "zoom_in_ms", t.zoom_in_ms);
    ReadScale(t.overview_scale);
  }

  lemma ReadPush(t: Transition)
    requires t.Push?
    ensures ParseTransition(Object(TransitionValue(t))) == Success(t) <==> TransitionOk(t)
  {
    hide DecText, ParseCanvas, EasingName, ParseEasing, DirectionName, ParseDirection, PushModeName, ParsePushMode, OptionalU64;
    ReadTimed(TransitionValue(t), t.duration_ms, t.easing);
    NamesRead();
  }

  /** A canvas transition is read by the canvas parser. */
  lemma CanvasIsParsed(o: Fields, easing: Easing)
    requires "type" in o && o["type"] == String("canvas") && "duration_ms" !in o
    requires "easing" in o && o["easing"] == String(EasingName(easing))
    ensures ParseTransition(Object(o)) == ParseCanvas(o, easing)
  {
    hide ParseCanvas, EasingName, ParseEasing;
    EasingRead(easing);
  }

  lemma EasingRead(easing: Easing)
    ensures ParseEasing(EasingName(easing)) == Success(easing)
  {}

  lemma ReadCanvasTransition(t: Transition)
    requires t.Canvas?
    ensures ParseTransition(Object(TransitionValue(t))) == Success(t) <==> TransitionOk(t)
  {
    hide DecText, ScaleText, ParseCanvas, EasingName, ParseTransition, TransitionOk;
    ReadCanvas(t);
    CanvasIsParsed(TransitionValue(t), t.easing);
  }

  lemma ReadTransition(t: Transition)
    ensures ParseTransition(Object(TransitionValue(t))) == Success(t) <==> TransitionOk(t)
  {
    hide DecText, ParseCanvas, EasingName, ParseEasing, OptionalU64;
    match t
    case Cut => ReadCut();
    case Fade(ms, easing) => ReadTimed(TransitionValue(t), ms, easing);
    case World(ms, easing) => ReadTimed(TransitionValue(t), ms, easing);
    case Push(_, _, _, _) => ReadPush(t);
    case Canvas(_, _, _, _, _, _, _, _, _) => ReadCanvasTransition(t);
  }

  lemma ReadCut()
    ensures ParseTransition(Object(TransitionValue(Cut))) == Success(Cut)
  {}

  // ---- requests ----

  predicate RendererOnly(r: Request) {
    r.RenderCanvasSet? || r.RenderWorldSet?
  }

  lemma ReadSetHead(o: Fields, kind: string, outputs: map<string, string>, t: Transition, mode: ScaleMode, partial: bool)
    requires "type" in o && o["type"] == String(kind) && "outputs" in o && o["outputs"] == Object(MapValue(outputs))
    requires "transition" in o && o["transition"] == Object(TransitionValue(t))
    requires "scale_mode" in o && o["scale_mode"] == String(ScaleModeName(mode))
    requires "allow_partial" in o && o["allow_partial"] == Bool(partial)
    ensures RequiredString(o, "type") == Success(kind)
    ensures RequiredTransition(o) == Success(t) <==> TransitionOk(t)
    ensures RequiredOutputs(o) == Success(outputs) <==> OutputsOk(outputs)
    ensures ParseScaleModeField(o) == Success(mode) && OptionalBool(o, "allow_partial") == Success(partial)
  {
    hide ParseTransition, TransitionValue, MapValue, RequiredOutputs, ScaleModeName, ParseScaleMode;
    ReadTransition(t);
    ReadOutputs(o, outputs);
    NamesRead();
  }

  lemma ReadWorldTail(o: Fields, r: Request)
    requires r.RenderWorldSet?
    requires "library_count" in o && o["library_count"] == Digits(r.library_count) && "columns" in o && o["columns"] == Digits(r.columns)
    requires "fingerprint" in o && o["fingerprint"] == Digits(r.fingerprint)
    requires "thumbnail_edge" in o && o["thumbnail_edge"] == Digits(r.thumbnail_edge)
    requires "tile_cells" in o && o["tile_cells"] == Digits(r.tile_cells) && "routes" in o && o["routes"] == Object(RoutesValue(r.routes))
    ensures RequiredU64(o, "library_count") == Success(r.library_count) && RequiredU64(o, "columns") == Success(r.columns)
    ensures RequiredU64(o, "fingerprint") == Success(r.fingerprint) && RequiredU32(o, "thumbnail_edge") == Success(r.thumbnail_edge)
    ensures RequiredU64(o, "tile_cells") == Success(r.tile_cells)
    ensures ParseRoutes(o) == Success(r.routes) <==> r.routes != map[] && "" !in r.routes
  {
    hide DecText, RoutesValue, RequiredU64, RequiredU32, ParseRoutes;
    ReadU64(o, "library_count", r.library_count);
    ReadU64(o, "columns", r.columns);
    ReadU64(o, "fingerprint", r.fingerprint);
    ReadU32(o, "thumbnail_edge", r.thumbnail_edge);
    ReadU64(o, "tile_cells", r.tile_cells);
    ReadRoutes(o, r.routes);
  }

  lemma ReadSet(r: Request)
    requires r.Set?
    ensures ParseSet(RequestValue(r)) == Success(r) <==> WellFormed(r)
  {
    hide ScaleModeName, RequiredOutputs, MapValue, ParseTransition, TransitionValue, ParseScaleModeField, OptionalBool, TransitionOk, OutputsOk;
    ReadSetHead(RequestValue(r), "set", r.outputs, r.transition, r.scale_mode, r.allow_partial);
  }

  lemma ReadRenderCanvasSet(r: Request)
    requires r.RenderCanvasSet?
    ensures ParseRenderCanvasSet(RequestValue(r)) == Success(r) <==> WellFormed(r)
    ensures RequiredString(RequestValue(r), "type") == Success("renderer_canvas_set")
  {
    hide RequiredOutputs, RequiredTransition, TransitionValue, ParseScaleModeField, OptionalBool, TransitionOk, OutputsOk, MapValue, StringsValue, AllStrings, DecText, ScaleModeName;
    var o := RequestValue(r);
    ReadSetHead(o, "renderer_canvas_set", r.outputs, r.transition, r.scale_mode, r.allow_partial);
    ReadStrings(r.preview_paths);
    ReadU64(o, "preview_start", r.preview_start);
  }

  /** The fields of a world request, where its readers look for them. */
  lemma WorldSetHeadValue(r: Request)
    requires r.RenderWorldSet?
    ensures var o := RequestValue(r);
      && "type" in o && o["type"] == String("renderer_world_set") && "outputs" in o && o["outputs"] == Object(MapValue(r.outputs))
      && "transition" in o && o["transition"] == Object(TransitionValue(r.transition))
      && "scale_mode" in o && o["scale_mode"] == String(ScaleModeName(r.scale_mode))
      && "allow_partial" in o && o["allow_partial"] == Bool(r.allow_partial)
  {
    hide TransitionValue, MapValue, ScaleModeName, WorldSetTail;
    HeadKeysApart(r);
  }

  lemma HeadKeysApart(r: Request)
    requires r.RenderWorldSet?
    ensures forall k | k in WorldSetTail(r) :: k !in {"type", "outputs", "transition", "scale_mode", "allow_partial"}
  {
    hide RoutesValue, DecText;
  }

  lemma WorldSetTailValue(r: Request)
    requires r.RenderWorldSet?
    ensures var o := RequestValue(r);
      && "library_count" in o && o["library_count"] == Digits(r.library_count) && "columns" in o && o["columns"] == Digits(r.columns)
      && "fingerprint" in o && o["fingerprint"] == Digits(r.fingerprint)
      && "thumbnail_edge" in o && o["thumbnail_edge"] == Digits(r.thumbnail_edge)
      && "tile_cells" in o && o["tile_cells"] == Digits(r.tile_cells) && "routes" in o && o["routes"] == Object(RoutesValue(r.routes))
  {
    hide SetHead, RoutesValue, DecText;
  }

  lemma ReadRenderWorldSet(r: Request)
    requires r.RenderWorldSet?
    ensures ParseRenderWorldSet(RequestValue(r)) == Success(r) <==> WellFormed(r)
    ensures RequiredString(RequestValue(r), "type") == Success("renderer_world_set")
  {
    hide RequiredOutputs, RequiredTransition, TransitionValue, ParseScaleModeField, OptionalBool, TransitionOk, OutputsOk, MapValue,
         RoutesValue, ParseRoutes, DecText, ScaleModeName, RequiredU64, RequiredU32, RequiredString, RequestValue;
    var o := RequestValue(r);
    WorldSetHeadValue(r);
    WorldSetTailValue(r);
    ReadSetHead(o, "renderer_world_set", r.outputs, r.transition, r.scale_mode, r.allow_partial);
    ReadWorldTail(o, r);
  }

  lemma ReadAction(a: WallpaperAction)
    ensures ParseActionValue(ActionValue(a)) == Success(a)
  {
    hide DecText;
    if HasIndex(a) {
      ReadU64(ActionValue(a).fields, "index", a.index);
    }
  }

  lemma ReadWallpaper(r: Request)
    requires r.Wallpaper?
    ensures ParseWallpaper(RequestValue(r)) == Success(r) <==> WellFormed(r)
  {
    hide ParseActionValue, ActionValue, ParseTransition, TransitionValue, ScaleModeName, ParseScaleMode, TransitionOk;
    ReadAction(r.action);
    if r.optTransition.Some? {
      ReadTransition(r.optTransition.value);
    }
    NamesRead();
  }

  lemma ReadCache(a: CacheAction)
    ensures ParseCache(CacheValue(a)) == Success(Cache(a)) <==> WellFormed(Cache(a))
  {
    hide DecText;
    if a.Warm? {
      ReadU64(CacheValue(a), "workers", a.workers);
    }
  }

  lemma ReadClear(r: Request)
    requires r.Clear?
    ensures ParseClear(RequestValue(r)) == Success(r)
  {
    hide StringsValue, AllStrings;
    ReadStrings(r.names);
  }

  lemma ReadPreload(r: Request, control: bool)
    requires r.Preload?
    ensures ParseFields(RequestValue(r), control) == Success(r) <==> WellFormed(r)
  {
    hide RequiredOutputs, MapValue, OutputsOk;
    ReadOutputs(RequestValue(r), r.outputs);
  }

  lemma DispatchRenderer(o: Fields, control: bool)
    ensures RequiredString(o, "type") == Success("renderer_canvas_set") ==>
      ParseFields(o, control) == if control then ParseRenderCanvasSet(o) else Failure(Reserved)
    ensures RequiredString(o, "type") == Success("renderer_world_set") ==>
      ParseFields(o, control) == if control then ParseRenderWorldSet(o) else Failure(Reserved)
  {
    hide RequiredString, ParseRenderCanvasSet, ParseRenderWorldSet;
  }

  lemma DispatchPublic(o: Fields, control: bool)
    ensures RequiredString(o, "type") == Success("set") ==> ParseFields(o, control) == ParseSet(o)
    ensures RequiredString(o, "type") == Success("clear") ==> ParseFields(o, control) == ParseClear(o)
    ensures RequiredString(o, "type") == Success("wallpaper") ==> ParseFields(o, control) == ParseWallpaper(o)
    ensures RequiredString(o, "type") == Success("cache") ==> ParseFields(o, control) == ParseCache(o)
  {
    hide RequiredString, ParseSet, ParseClear, ParseWallpaper, ParseCache;
  }

  lemma DispatchBare(r: Request, control: bool)
    requires r.Ping? || r.Capabilities? || r.Health? || r.Query? || r.Stop?
    ensures ParseFields(RequestValue(r), control) == Success(r)
  {}

  lemma RequestKind(r: Request)
    ensures r.Set? ==> RequiredString(RequestValue(r), "type") == Success("set")
    ensures r.Clear? ==> RequiredString(RequestValue(r), "type") == Success("clear")
    ensures r.Wallpaper? ==> RequiredString(RequestValue(r), "type") == Success("wallpaper")
    ensures r.Cache? ==> RequiredString(RequestValue(r), "type") == Success("cache")
  {
    hide TransitionValue, MapValue, StringsValue, ActionValue, DecText, ScaleModeName;
  }

  lemma ReadRequest(r: Request, control: bool)
    ensures ParseFields(RequestValue(r), control) == Success(r) <==> WellFormed(r) && (RendererOnly(r) ==> control)
  {
    hide ParseFields, RequestValue, RequiredString, ParseSet, ParseClear, ParseWallpaper, ParseCache, ParseRenderCanvasSet, ParseRenderWorldSet,
         OutputsOk, TransitionOk;
    var o := RequestValue(r);
    RequestKind(r);
    DispatchPublic(o, control);
    DispatchRenderer(o, control);
    match r
    case Set(_, _, _, _) => ReadSet(r);
    case Preload(_) => ReadPreload(r, control);
    case Clear(_, _) => ReadClear(r);
    case Wallpaper(_, _, _) => ReadWallpaper(r);
    case Cache(a) => ReadCache(a); CacheRequestValue(a);
    case RenderCanvasSet(_, _, _, _, _, _) => ReadRenderCanvasSet(r);
    case RenderWorldSet(_, _, _, _, _, _, _, _, _, _) => ReadRenderWorldSet(r);
    case _ => DispatchBare(r, control);
  }

  lemma CacheRequestValue(a: CacheAction)
    ensures RequestValue(Cache(a)) == CacheValue(a)
  {}

  // ---- the main results ----

  /** A printed request parses back to itself exactly when it is well formed. */
  lemma RoundTrip(r: Request)
    ensures ParseRequest(ToJson(r)) == Success(r) <==> WellFormed(r)
  {
    hide RequestValue, ToJson, D.ParseText, ParseFields, WellFormed;
    ToJsonParses(r);
    ReadRequest(r, true);
  }

  /** On the public socket, the internal renderer requests never get through, and nothing else changes. */
  lemma PublicRoundTrip(r: Request)
    ensures ParsePublicRequest(ToJson(r)) == Success(r) <==> WellFormed(r) && !RendererOnly(r)
  {
    hide RequestValue, ToJson, D.ParseText, ParseFields, WellFormed;
    ToJsonParses(r);
    ReadRequest(r, false);
  }

  /** The daemon's own default scale of one third is off the six-decimal grid: a request carrying
      it is accepted, but with a different scale. */
  lemma DefaultScaleDoesNotRoundTrip(easing: Easing, axis: CanvasPanAxis)
    ensures var t := Canvas(DEFAULT_CANVAS_OUT_MS, DEFAULT_CANVAS_PAN_MS, DEFAULT_CANVAS_IN_MS, easing, Clipped, Paged, axis,
                            DEFAULT_CANVAS_OVERVIEW_SCALE, Auto(None));
      var r := Wallpaper(Next, Some(t), None);
      ParseRequest(ToJson(r)) != Success(r)
  {
    hide ParseRequest, ToJson;
    var t := Canvas(DEFAULT_CANVAS_OUT_MS, DEFAULT_CANVAS_PAN_MS, DEFAULT_CANVAS_IN_MS, easing, Clipped, Paged, axis,
                    DEFAULT_CANVAS_OVERVIEW_SCALE, Auto(None));
    assert (1.0 / 3.0 * 1000000.0).Floor == 333333;
    RoundTrip(Wallpaper(Next, Some(t), None));
  }
}
