/** The request protocol: typed requests, their JSON text, and the parser from JSON values back
    to requests. */
module Protocol {
  import opened Prelude
  import opened JsonValues
  import opened JsonGrammar
  import opened Decimal
  import D = JsonDescent
  import StringOrder

  const U64_MAX: nat := 0xffff_ffff_ffff_ffff
  const U32_MAX: nat := 0xffff_ffff
  type u64 = n: nat | n <= 0xffff_ffff_ffff_ffff
  type u32 = n: nat | n <= 0xffff_ffff
  /** `usize` on the 64-bit targets the program supports. */
  type usize = u64

  const DEFAULT_DURATION_MS: u64 := 900
  const DEFAULT_CANVAS_OUT_MS: u64 := 180
  const DEFAULT_CANVAS_PAN_MS: u64 := 80
  const DEFAULT_CANVAS_IN_MS: u64 := 260
  const DEFAULT_CANVAS_OVERVIEW_SCALE: real := 1.0 / 3.0
  const MAX_CANVAS_TILE_COUNT: nat := 256
  const DEFAULT_CANVAS_CACHE_WORKERS: usize := 1

  // ---- data ----

  datatype Easing = Linear | EaseOutCubic | EaseInOutCubic
  datatype PushDirection = Up | Down | Left | Right
  datatype PushMode = Portal | Screen | Pan
  datatype CanvasMode = Clipped | Morph | Overlap | Collage | Span
  datatype CanvasWalk = Paged | Strip
  datatype CanvasPanAxis = AutoAxis | Horizontal | Vertical
  datatype ScaleMode = Fill | Fit | Center | Stretch
  datatype CacheWarmScope = CurrentScope | AllScope
  datatype CacheBackend = AutoBackend | Vips | Internal
  datatype CanvasTileCount = Auto(max: Option<usize>) | Fixed(count: usize)

  datatype Transition =
    | Cut
    | Fade(duration_ms: u64, easing: Easing)
    | World(duration_ms: u64, easing: Easing)
    | Push(direction: PushDirection, duration_ms: u64, easing: Easing, pushMode: PushMode)
    | Canvas(zoom_out_ms: u64, pan_ms: u64, zoom_in_ms: u64, easing: Easing, mode: CanvasMode, walk: CanvasWalk,
             pan_axis: CanvasPanAxis, overview_scale: real, tile_count: CanvasTileCount)

  datatype WallpaperAction =
    | Next | Back | ShiftForward | ShiftBack
    | Replace(index: usize) | Quarantine(index: usize) | Favorite(index: usize) | Unfavorite(index: usize)
    | Favorites | Current | Rescan

  datatype CacheAction = Status | ClearCache | Warm(scope: CacheWarmScope, workers: usize, backend: CacheBackend)

  datatype WorldRouteFocus = WorldRouteFocus(current_index: usize, target_index: usize, lod: usize)

  datatype Request =
    | Ping | Capabilities | Health | Query | Stop
    | Set(outputs: map<string, string>, transition: Transition, scale_mode: ScaleMode, allow_partial: bool)
    | Preload(outputs: map<string, string>)
    | Clear(names: seq<string>, color: string)
    | Wallpaper(action: WallpaperAction, optTransition: Option<Transition>, optScaleMode: Option<ScaleMode>)
    | Cache(cacheAction: CacheAction)
    | RenderCanvasSet(outputs: map<string, string>, transition: Transition, scale_mode: ScaleMode, allow_partial: bool,
                      preview_paths: seq<string>, preview_start: usize)
    | RenderWorldSet(outputs: map<string, string>, transition: Transition, scale_mode: ScaleMode, allow_partial: bool,
                     library_count: usize, columns: usize, fingerprint: u64, thumbnail_edge: u32, tile_cells: usize,
                     routes: map<string, WorldRouteFocus>)

  // ---- results ----

  datatype ProtocolError =
    | BadJson(error: D.ParseError)
    | ExpectedObject | ExpectedString | ExpectedBool | ExpectedArray(key: string)
    | MissingField(key: string)
    | NotInteger(key: string) | NotNumber(key: string) | Negative(key: string) | OutOfRange(key: string)
    | Unknown(what: string)
    | NotPositive(key: string)
    | EmptyMap(key: string) | BadEntry(key: string)
    | BadScale | BadModeWalk | BadTileCount
    | NeedsIndex | NeedsDirection | NoOverride
    | Reserved

  datatype Result<+T> = Success(value: T) | Failure(error: ProtocolError) {
    predicate IsFailure() { Failure? }
    function PropagateFailure<U>(): Result<U> requires Failure? { Failure(error) }
    function Extract(): T requires Success? { value }
  }

  function Need(condition: bool, error: ProtocolError): Result<()> {
    if condition then Success(()) else Failure(error)
  }

  // ---- names of enumeration values ----

  function EasingName(e: Easing): string {
    match e case Linear => "linear" case EaseOutCubic => "ease-out-cubic" case EaseInOutCubic => "ease-in-out-cubic"
  }

  function ParseEasing(s: string): Result<Easing> {
    if s == "linear" then Success(Linear)
    else if s == "ease-out-cubic" then Success(EaseOutCubic)
    else if s == "ease-in-out-cubic" then Success(EaseInOutCubic)
    else Failure(Unknown("easing"))
  }

  function DirectionName(d: PushDirection): string {
    match d case Up => "up" case Down => "down" case Left => "left" case Right => "right"
  }

  function ParseDirection(s: string): Result<PushDirection> {
    if s == "up" then Success(Up)
    else if s == "down" then Success(Down)
    else if s == "left" then Success(Left)
    else if s == "right" then Success(Right)
    else Failure(Unknown("push direction"))
  }

  function PushModeName(m: PushMode): string {
    match m case Portal => "portal" case Screen => "screen" case Pan => "pan"
  }

  function ParsePushMode(s: string): Result<PushMode> {
    if s == "portal" then Success(Portal)
    else if s == "screen" then Success(Screen)
    else if s == "pan" then Success(Pan)
    else Failure(Unknown("push mode"))
  }

  function CanvasModeName(m: CanvasMode): string {
    match m
    case Clipped => "clipped" case Morph => "morph" case Overlap => "overlap"
    case Collage => "collage" case Span => "span"
  }

  function ParseCanvasMode(s: string): Result<CanvasMode> {
    if s == "clipped" then Success(Clipped)
    else if s == "morph" then Success(Morph)
    else if s == "overlap" then Success(Overlap)
    else if s == "collage" then Success(Collage)
    else if s == "span" then Success(Span)
    else Failure(Unknown("canvas mode"))
  }

  function WalkName(w: CanvasWalk): string {
    match w case Paged => "paged" case Strip => "strip"
  }

  function ParseWalk(s: string): Result<CanvasWalk> {
    if s == "paged" || s == "page" || s == "grid" then Success(Paged)
    else if s == "strip" || s == "line" then Success(Strip)
    else Failure(Unknown("canvas walk"))
  }

  function AxisName(a: CanvasPanAxis): string {
    match a case AutoAxis => "auto" case Horizontal => "horizontal" case Vertical => "vertical"
  }

  function ParseAxis(s: string): Result<CanvasPanAxis> {
    if s == "auto" then Success(AutoAxis)
    else if s == "horizontal" then Success(Horizontal)
    else if s == "vertical" then Success(Vertical)
    else Failure(Unknown("canvas pan axis"))
  }

  function ScaleModeName(m: ScaleMode): string {
    match m case Fill => "fill" case Fit => "fit" case Center => "center" case Stretch => "stretch"
  }

  function ParseScaleMode(s: string): Result<ScaleMode> {
    if s == "fill" then Success(Fill)
    else if s == "fit" then Success(Fit)
    else if s == "center" then Success(Center)
    else if s == "stretch" then Success(Stretch)
    else Failure(Unknown("scale mode"))
  }

  function ScopeName(s: CacheWarmScope): string {
    match s case CurrentScope => "current" case AllScope => "all"
  }

  function ParseScope(s: string): Result<CacheWarmScope> {
    if s == "current" then Success(CurrentScope)
    else if s == "all" then Success(AllScope)
    else Failure(Unknown("cache warm scope"))
  }

  function BackendName(b: CacheBackend): string {
    match b case AutoBackend => "auto" case Vips => "vips" case Internal => "internal"
  }

  function ParseBackend(s: string): Result<CacheBackend> {
    if s == "auto" then Success(AutoBackend)
    else if s == "vips" then Success(Vips)
    else if s == "internal" then Success(Internal)
    else Failure(Unknown("cache backend"))
  }

  function ActionName(a: WallpaperAction): string {
    match a
    case Next => "next" case Back => "back"
    case ShiftForward => "shift-forward" case ShiftBack => "shift-back"
    case Replace(_) => "replace" case Quarantine(_) => "quarantine"
    case Favorite(_) => "favorite" case Unfavorite(_) => "unfavorite"
    case Favorites => "favorites" case Current => "current" case Rescan => "rescan"
  }

  function Indexed(index: Option<usize>): Result<usize> {
    if index.None? then Failure(NeedsIndex) else Success(index.value)
  }

  function ParseAction(action: string, index: Option<usize>): Result<WallpaperAction> {
    if action == "next" then Success(Next)
    else if action == "back" then Success(Back)
    else if action == "shift-forward" then Success(ShiftForward)
    else if action == "shift-back" then Success(ShiftBack)
    else if action == "replace" then var i :- Indexed(index); Success(Replace(i))
    else if action == "quarantine" || action == "quarentine" then var i :- Indexed(index); Success(Quarantine(i))
    else if action == "favorite" then var i :- Indexed(index); Success(Favorite(i))
    else if action == "unfavorite" then var i :- Indexed(index); Success(Unfavorite(i))
    else if action == "favorites" then Success(Favorites)
    else if action == "current" then Success(Current)
    else if action == "rescan" then Success(Rescan)
    else Failure(Unknown("wallpaper action"))
  }

  datatype TransitionKind = CutKind | FadeKind | PushKind | CanvasKind | WorldKind

  /** `transition_descriptor`: the registry entry of a name. */
  function KindOf(name: string): Result<TransitionKind> {
    if name == "cut" then Success(CutKind)
    else if name == "fade" then Success(FadeKind)
    else if name == "push" then Success(PushKind)
    else if name == "canvas" then Success(CanvasKind)
    else if name == "world" then Success(WorldKind)
    else Failure(Unknown("transition"))
  }

  // ---- JSON text of strings, objects, arrays and scales ----

  /** `{:04x}` of a value below 256, which every control character is. */
  function HexText(n: nat): (h: string)
    requires n < 0x100
    ensures IsHex4(h) && Hex4(h) == n
  {
    ['0', '0', HexChar(n / 0x10), HexChar(n % 0x10)]
  }

  /** `char::is_control`: the Unicode category Cc. */
  predicate IsControl(c: char) {
    c as int <= 0x1f || 0x7f <= c as int <= 0x9f
  }

  function EscapedChar(c: char): string {
    if c == '"' then "\\\""
    else if c == '\\' then "\\\\"
    else if c == '\n' then "\\n"
    else if c == '\r' then "\\r"
    else if c == '\t' then "\\t"
    else if c as int == 8 then "\\b"
    else if c as int == 12 then "\\f"
    else if IsControl(c) then "\\u" + HexText(c as int)
    else [c]
  }

  function EscapedText(s: string): string {
    if s == "" then "" else EscapedChar(s[0]) + EscapedText(s[1..])
  }

  function JsonString(s: string): string {
    "\"" + EscapedText(s) + "\""
  }

  function FieldText(f: (string, string)): string {
    JsonString(f.0) + ":" + f.1
  }

  /** Fields joined by commas, from the first on. */
  function FieldsText(fields: seq<(string, string)>): string {
    if fields == [] then ""
    else if |fields| == 1 then FieldText(fields[0])
    else FieldText(fields[0]) + "," + FieldsText(fields[1..])
  }

  function ObjectText(fields: seq<(string, string)>): string {
    "{" + FieldsText(fields) + "}"
  }

  function ItemsJoined(items: seq<string>): string {
    if items == [] then ""
    else if |items| == 1 then JsonString(items[0])
    else JsonString(items[0]) + "," + ItemsJoined(items[1..])
  }

  function StringArrayText(items: seq<string>): string {
    "[" + ItemsJoined(items) + "]"
  }

  /** The fields of an ordered map, in key order. */
  function MapFields(m: map<string, string>): (fields: seq<(string, string)>)
    ensures |fields| == |m|
  {
    var keys := StringOrder.Sorted(m.Keys);
    seq(|keys|, i requires 0 <= i < |keys| => assert keys[i] in keys; (keys[i], JsonString(m[keys[i]])))
  }

  function FocusText(f: WorldRouteFocus): string {
    ObjectText([("current_index", DecText(f.current_index)), ("target_index", DecText(f.target_index)), ("lod", DecText(f.lod))])
  }

  function RouteFields(m: map<string, WorldRouteFocus>): (fields: seq<(string, string)>)
    ensures |fields| == |m|
  {
    var keys := StringOrder.Sorted(m.Keys);
    seq(|keys|, i requires 0 <= i < |keys| => assert keys[i] in keys; (keys[i], FocusText(m[keys[i]])))
  }

  function BoolText(b: bool): string { if b then "true" else "false" }

  /** Six decimals, without the trailing zeros but with at least one digit after the point. */
  function ScaleText(x: real): string {
    var n := Millionths(if x < 0.0 then -x else x);
    (if x < 0.0 then "-" else "") + WholeDigits(n) + "." + FractionDigits(n)
  }

  // ---- requests to JSON ----

  function TileCountFields(c: CanvasTileCount): seq<(string, string)> {
    match c
    case Auto(None) => [("tile_count", JsonString("auto"))]
    case Auto(Some(max)) => [("tile_count", JsonString("auto")), ("max_tile_count", DecText(max))]
    case Fixed(count) => [("tile_count", DecText(count))]
  }

  function TransitionText(t: Transition): string {
    match t
    case Cut => ObjectText([("type", JsonString("cut"))])
    case Fade(ms, easing) =>
      ObjectText([("type", JsonString("fade")), ("duration_ms", DecText(ms)), ("easing", JsonString(EasingName(easing)))])
    case World(ms, easing) =>
      ObjectText([("type", JsonString("world")), ("duration_ms", DecText(ms)), ("easing", JsonString(EasingName(easing)))])
    case Push(direction, ms, easing, mode) =>
      ObjectText([("type", JsonString("push")), ("direction", JsonString(DirectionName(direction))),
                  ("duration_ms", DecText(ms)), ("easing", JsonString(EasingName(easing))), ("mode", JsonString(PushModeName(mode)))])
    case Canvas(out_ms, pan_ms, in_ms, easing, mode, walk, axis, scale, tiles) =>
      ObjectText([("type", JsonString("canvas")), ("zoom_out_ms", DecText(out_ms)), ("pan_ms", DecText(pan_ms)),
                  ("zoom_in_ms", DecText(in_ms)), ("easing", JsonString(EasingName(easing))),
                  ("mode", JsonString(CanvasModeName(mode))), ("walk", JsonString(WalkName(walk))),
                  ("pan_axis", JsonString(AxisName(axis))), ("overview_scale", ScaleText(scale))] + TileCountFields(tiles))
  }

  predicate HasIndex(a: WallpaperAction) {
    a.Replace? || a.Quarantine? || a.Favorite? || a.Unfavorite?
  }

  function ActionText(a: WallpaperAction): string {
    if HasIndex(a) then ObjectText([("type", JsonString(ActionName(a))), ("index", DecText(a.index))])
    else JsonString(ActionName(a))
  }

  function CacheFields(a: CacheAction): seq<(string, string)> {
    match a
    case Status => [("type", JsonString("cache")), ("action", JsonString("status"))]
    case ClearCache => [("type", JsonString("cache")), ("action", JsonString("clear"))]
    case Warm(scope, workers, backend) =>
      [("type", JsonString("cache")), ("action", JsonString("warm")), ("scope", JsonString(ScopeName(scope))),
       ("workers", DecText(workers)), ("backend", JsonString(BackendName(backend)))]
  }

  function RequestFields(r: Request): seq<(string, string)> {
    match r
    case Ping => [("type", JsonString("ping"))]
    case Capabilities => [("type", JsonString("capabilities"))]
    case Health => [("type", JsonString("health"))]
    case Query => [("type", JsonString("query"))]
    case Stop => [("type", JsonString("stop"))]
    case Set(outputs, transition, scale_mode, allow_partial) =>
      [("type", JsonString("set")), ("outputs", ObjectText(MapFields(outputs))), ("transition", TransitionText(transition)),
       ("scale_mode", JsonString(ScaleModeName(scale_mode))), ("allow_partial", BoolText(allow_partial))]
    case Preload(outputs) => [("type", JsonString("preload")), ("outputs", ObjectText(MapFields(outputs)))]
    case Clear(names, color) =>
      [("type", JsonString("clear")), ("outputs", StringArrayText(names)), ("color", JsonString(color))]
    case Wallpaper(action, transition, scale_mode) =>
      [("type", JsonString("wallpaper")), ("action", ActionText(action)),
       ("transition", if transition.None? then "null" else TransitionText(transition.value)),
       ("scale_mode", if scale_mode.None? then "null" else JsonString(ScaleModeName(scale_mode.value)))]
    case Cache(action) => CacheFields(action)
    case RenderCanvasSet(outputs, transition, scale_mode, allow_partial, preview_paths, preview_start) =>
      [("type", JsonString("renderer_canvas_set")), ("outputs", ObjectText(MapFields(outputs))),
       ("transition", TransitionText(transition)), ("scale_mode", JsonString(ScaleModeName(scale_mode))),
       ("allow_partial", BoolText(allow_partial)), ("preview_paths", StringArrayText(preview_paths)),
       ("preview_start", DecText(preview_start))]
    case RenderWorldSet(outputs, transition, scale_mode, allow_partial, count, columns, fingerprint, edge, tile_cells, routes) =>
      [("type", JsonString("renderer_world_set")), ("outputs", ObjectText(MapFields(outputs))),
       ("transition", TransitionText(transition)), ("scale_mode", JsonString(ScaleModeName(scale_mode))),
       ("allow_partial", BoolText(allow_partial)), ("library_count", DecText(count)), ("columns", DecText(columns)),
       ("fingerprint", DecText(fingerprint)), ("thumbnail_edge", DecText(edge)), ("tile_cells", DecText(tile_cells)),
       ("routes", ObjectText(RouteFields(routes)))]
  }

  /** `Request::to_json`. */
  function ToJson(r: Request): string {
    ObjectText(RequestFields(r))
  }

  // ---- JSON values to requests ----

  type Fields = map<string, JsonValue>

  function AsObject(v: JsonValue): Result<Fields> {
    if v.Object? then Success(v.fields) else Failure(ExpectedObject)
  }

  function AsString(v: JsonValue): Result<string> {
    if v.String? then Success(v.chars) else Failure(ExpectedString)
  }

  function RequiredString(o: Fields, key: string): Result<string> {
    if key !in o then Failure(MissingField(key)) else AsString(o[key])
  }

  function OptionalString(o: Fields, key: string): Result<Option<string>> {
    if key !in o then Success(None) else var s :- AsString(o[key]); Success(Some(s))
  }

  function OptionalBool(o: Fields, key: string): Result<bool> {
    if key !in o then Success(false)
    else if o[key].Bool? then Success(o[key].value)
    else Failure(ExpectedBool)
  }

  predicate NotDecimalInteger(text: string) {
    '.' in text || 'e' in text || 'E' in text
  }

  /** `parse_json_usize`, `parse_json_u32` and the number branch of `optional_u64`. */
  function ParseUint(text: string, key: string, max: nat): (r: Result<nat>)
    ensures r.Success? ==> r.value <= max
  {
    if text != "" && text[0] == '-' then Failure(Negative(key))
    else if NotDecimalInteger(text) then Failure(NotInteger(key))
    else match ParseUnsigned(text, max) case None => Failure(OutOfRange(key)) case Some(n) => Success(n)
  }

  function OptionalU64(o: Fields, key: string): Result<Option<u64>> {
    if key !in o then Success(None)
    else if o[key].Number? then var n :- ParseUint(o[key].text, key, U64_MAX); Success(Some(n))
    else Failure(NotInteger(key))
  }

  /** As `OptionalU64`, but a null counts as absent. */
  function OptionalU32(o: Fields, key: string): Result<Option<u32>> {
    if key !in o || o[key].Null? then Success(None)
    else if o[key].Number? then var n :- ParseUint(o[key].text, key, U32_MAX); Success(Some(n))
    else Failure(NotInteger(key))
  }

  function RequiredU64(o: Fields, key: string): Result<u64> {
    var n :- OptionalU64(o, key);
    if n.None? then Failure(MissingField(key)) else Success(n.value)
  }

  function RequiredU32(o: Fields, key: string): Result<u32> {
    var n :- OptionalU32(o, key);
    if n.None? then Failure(MissingField(key)) else Success(n.value)
  }

  function Or<T>(x: Option<T>, default: T): T {
    if x.None? then default else x.value
  }

  /** The finite values of a floating-point parse, without rounding: an optional sign, digits
      with an optional point, and an optional exponent. */
  function ParseReal(s: string): Option<real> {
    if s != "" && s[0] == '-' then
      match ParseMagnitude(s[1..]) case None => None case Some(x) => Some(-x)
    else if s != "" && s[0] == '+' then ParseMagnitude(s[1..])
    else ParseMagnitude(s)
  }

  function ParseMagnitude(s: string): Option<real> {
    var i := D.DigitRun(s);
    var whole, rest := s[..i], s[i..];
    var j := if D.StartsWith(rest, '.') then D.DigitRun(rest[1..]) else 0;
    var fraction := if D.StartsWith(rest, '.') then rest[1..][..j] else "";
    var tail := if D.StartsWith(rest, '.') then rest[1..][j..] else rest;
    if !IsDigits(whole) || !IsDigits(fraction) || (whole == "" && fraction == "") then None
    else if tail == "" then Some(FractionValue(whole, fraction))
    else if tail[0] == 'e' || tail[0] == 'E' then Scaled(FractionValue(whole, fraction), tail[1..])
    else None
  }

  function Scaled(x: real, exponent: string): Option<real> {
    var negative := D.StartsWith(exponent, '-');
    var digits := if negative || D.StartsWith(exponent, '+') then exponent[1..] else exponent;
    if digits == "" || !IsDigits(digits) then None
    else
      var p := Pow10(DecValue(digits)) as real;
      Some(if negative then x / p else x * p)
  }

  function OptionalScale(o: Fields, key: string): Result<Option<real>> {
    if key !in o then Success(None)
    else if o[key].Number? || o[key].String? then
      var x := ParseReal(if o[key].Number? then o[key].text else o[key].chars);
      if x.None? then Failure(NotNumber(key)) else Success(Some(x.value))
    else Failure(NotNumber(key))
  }

  function Positive(n: u64, key: string): Result<()> {
    Need(n != 0, NotPositive(key))
  }

  predicate TileCountOk(n: usize) {
    1 <= n <= MAX_CANVAS_TILE_COUNT
  }

  function ParseTileCount(o: Fields): Result<CanvasTileCount> {
    var max :- OptionalU64(o, "max_tile_count");
    var _ :- Need(max.None? || TileCountOk(max.value), BadTileCount);
    if "tile_count" !in o then Success(Auto(max))
    else
      match o["tile_count"]
      case String(value) => if value == "auto" then Success(Auto(max)) else Failure(BadTileCount)
      case Number(text) =>
        var n :- ParseUint(text, "tile_count", U64_MAX);
        var _ :- Need(TileCountOk(n), BadTileCount);
        Success(Fixed(n))
      case _ => Failure(BadTileCount)
  }

  predicate ModeWalkOk(mode: CanvasMode, walk: CanvasWalk) {
    !((mode.Collage? || mode.Span?) && walk.Paged?)
  }

  predicate ScaleOk(x: real) {
    0.0 < x <= 1.0
  }

  function ParseOr<T>(s: Option<string>, default: T, parse: string -> Result<T>): Result<T> {
    if s.None? then Success(default) else parse(s.value)
  }

  function SplitColon(s: string): (r: (string, Option<string>))
    decreases |s|
  {
    if s == "" then ("", None)
    else if s[0] == ':' then ("", Some(s[1..]))
    else var (name, suffix) := SplitColon(s[1..]); ([s[0]] + name, suffix)
  }

  /** The compact spelling of a transition. */
  function ParseCliToken(token: string, ms: u64, easing: Easing): Result<Transition> {
    var (name, suffix) := SplitColon(token);
    var kind :- KindOf(name);
    match kind
    case CutKind => var _ :- Need(suffix.None?, NoOverride); Success(Cut)
    case FadeKind =>
      var _ :- Need(suffix.None?, NoOverride);
      var _ :- Positive(ms, "duration_ms");
      Success(Fade(ms, easing))
    case WorldKind =>
      var _ :- Need(suffix.None?, NoOverride);
      var _ :- Positive(ms, "duration_ms");
      Success(World(ms, easing))
    case PushKind =>
      var _ :- Positive(ms, "duration_ms");
      var _ :- Need(suffix.Some?, NeedsDirection);
      var direction :- ParseDirection(suffix.value);
      Success(Push(direction, ms, easing, Portal))
    case CanvasKind =>
      var axis :- ParseOr(suffix, AutoAxis, ParseAxis);
      Success(Canvas(DEFAULT_CANVAS_OUT_MS, DEFAULT_CANVAS_PAN_MS, DEFAULT_CANVAS_IN_MS, easing, Clipped, Paged, axis,
                     DEFAULT_CANVAS_OVERVIEW_SCALE, Auto(None)))
  }

  function ParseCanvas(o: Fields, easing: Easing): Result<Transition> {
    var out_ms :- OptionalU64(o, "zoom_out_ms");
    var pan_ms :- OptionalU64(o, "pan_ms");
    var in_ms :- OptionalU64(o, "zoom_in_ms");
    var _ :- Positive(Or(out_ms, DEFAULT_CANVAS_OUT_MS), "zoom_out_ms");
    var _ :- Positive(Or(pan_ms, DEFAULT_CANVAS_PAN_MS), "pan_ms");
    var _ :- Positive(Or(in_ms, DEFAULT_CANVAS_IN_MS), "zoom_in_ms");
    var modeText :- OptionalString(o, "mode");
    var mode :- ParseOr(modeText, Clipped, ParseCanvasMode);
    var walkText :- OptionalString(o, "walk");
    var walk :- ParseOr(walkText, Paged, ParseWalk);
    var axisText :- OptionalString(o, "pan_axis");
    var axis :- ParseOr(axisText, AutoAxis, ParseAxis);
    var scale :- OptionalScale(o, "overview_scale");
    var overview := Or(scale, DEFAULT_CANVAS_OVERVIEW_SCALE);
    var _ :- Need(ScaleOk(overview), BadScale);
    var _ :- Need(ModeWalkOk(mode, walk), BadModeWalk);
    var tiles :- ParseTileCount(o);
    Success(Canvas(Or(out_ms, DEFAULT_CANVAS_OUT_MS), Or(pan_ms, DEFAULT_CANVAS_PAN_MS), Or(in_ms, DEFAULT_CANVAS_IN_MS),
                   easing, mode, walk, axis, overview, tiles))
  }

  function ParseTransition(v: JsonValue): Result<Transition> {
    if v.String? then ParseCliToken(v.chars, DEFAULT_DURATION_MS, EaseOutCubic)
    else
      var o :- AsObject(v);
      var name :- RequiredString(o, "type");
      var kind :- KindOf(name);
      var duration :- OptionalU64(o, "duration_ms");
      var ms := Or(duration, DEFAULT_DURATION_MS);
      var easingText :- OptionalString(o, "easing");
      var easing :- ParseOr(easingText, EaseOutCubic, ParseEasing);
      match kind
      case CutKind => Success(Cut)
      case FadeKind => var _ :- Positive(ms, "duration_ms"); Success(Fade(ms, easing))
      case WorldKind => var _ :- Positive(ms, "duration_ms"); Success(World(ms, easing))
      case PushKind =>
        var _ :- Positive(ms, "duration_ms");
        var directionText :- RequiredString(o, "direction");
        var direction :- ParseDirection(directionText);
        var modeText :- OptionalString(o, "mode");
        var mode :- ParseOr(modeText, Portal, ParsePushMode);
        Success(Push(direction, ms, easing, mode))
      case CanvasKind => ParseCanvas(o, easing)
  }

  function RequiredTransition(o: Fields): Result<Transition> {
    if "transition" !in o then Failure(MissingField("transition")) else ParseTransition(o["transition"])
  }

  function ParseScaleModeField(o: Fields): Result<ScaleMode> {
    var text :- OptionalString(o, "scale_mode");
    ParseOr(text, Fill, ParseScaleMode)
  }

  /** Which of several bad entries is reported is not modelled. */
  function RequiredOutputs(o: Fields): Result<map<string, string>> {
    if "outputs" !in o then Failure(MissingField("outputs"))
    else
      var m :- AsObject(o["outputs"]);
      if m == map[] then Failure(EmptyMap("outputs"))
      else if "" in m || exists k | k in m :: !m[k].String? || m[k].chars == "" then Failure(BadEntry("outputs"))
      else Success(map k | k in m :: m[k].chars)
  }

  function AllStrings(values: seq<JsonValue>): Result<seq<string>> {
    if exists i | 0 <= i < |values| :: !values[i].String? then Failure(ExpectedString)
    else Success(seq(|values|, i requires 0 <= i < |values| => values[i].chars))
  }

  function ParseFocus(v: JsonValue): Result<WorldRouteFocus> {
    var o :- AsObject(v);
    var current :- RequiredU64(o, "current_index");
    var target :- RequiredU64(o, "target_index");
    var lod :- OptionalU64(o, "lod");
    Success(WorldRouteFocus(current, target, Or(lod, 0)))
  }

  function ParseRoutes(o: Fields): Result<map<string, WorldRouteFocus>> {
    if "routes" !in o then Failure(MissingField("routes"))
    else
      var m :- AsObject(o["routes"]);
      if m == map[] then Failure(EmptyMap("routes"))
      else if "" in m || exists k | k in m :: ParseFocus(m[k]).Failure? then Failure(BadEntry("routes"))
      else Success(map k | k in m :: ParseFocus(m[k]).value)
  }

  function ParseActionValue(v: JsonValue): Result<WallpaperAction> {
    if v.String? then ParseAction(v.chars, None)
    else
      var o :- AsObject(v);
      var action :- RequiredString(o, "type");
      var index :- OptionalU64(o, "index");
      ParseAction(action, index)
  }

  function ParseSet(o: Fields): Result<Request> {
    var outputs :- RequiredOutputs(o);
    var transition :- if "transition" in o then ParseTransition(o["transition"]) else Success(Cut);
    var scale_mode :- ParseScaleModeField(o);
    var allow_partial :- OptionalBool(o, "allow_partial");
    Success(Set(outputs, transition, scale_mode, allow_partial))
  }

  function ParseClear(o: Fields): Result<Request> {
    var names :- if "outputs" !in o then Success([])
                 else if !o["outputs"].Array? then Failure(ExpectedArray("outputs"))
                 else AllStrings(o["outputs"].values);
    var color :- OptionalString(o, "color");
    Success(Clear(names, Or(color, "#000000")))
  }

  function ParseWallpaper(o: Fields): Result<Request> {
    if "action" !in o then Failure(MissingField("action"))
    else
      var action :- ParseActionValue(o["action"]);
      var transition :- if "transition" !in o || o["transition"].Null? then Success(None)
                        else var t :- ParseTransition(o["transition"]); Success(Some(t));
      var scale_mode :- if "scale_mode" !in o || o["scale_mode"].Null? then Success(None)
                        else var s :- AsString(o["scale_mode"]); var m :- ParseScaleMode(s); Success(Some(m));
      Success(Wallpaper(action, transition, scale_mode))
  }

  function ParseCache(o: Fields): Result<Request> {
    var action :- RequiredString(o, "action");
    if action == "status" then Success(Cache(Status))
    else if action == "clear" then Success(Cache(ClearCache))
    else if action == "warm" then
      var scopeText :- OptionalString(o, "scope");
      var scope :- ParseOr(scopeText, CurrentScope, ParseScope);
      var workers :- OptionalU64(o, "workers");
      var count := Or(workers, DEFAULT_CANVAS_CACHE_WORKERS);
      var _ :- Positive(count, "workers");
      var backendText :- OptionalString(o, "backend");
      var backend :- ParseOr(backendText, AutoBackend, ParseBackend);
      Success(Cache(Warm(scope, count, backend)))
    else Failure(Unknown("cache action"))
  }

  function ParseRenderCanvasSet(o: Fields): Result<Request> {
    var outputs :- RequiredOutputs(o);
    var transition :- RequiredTransition(o);
    var scale_mode :- ParseScaleModeField(o);
    var allow_partial :- OptionalBool(o, "allow_partial");
    var paths :- if "preview_paths" !in o then Failure(MissingField("preview_paths"))
                 else if !o["preview_paths"].Array? then Failure(ExpectedArray("preview_paths"))
                 else AllStrings(o["preview_paths"].values);
    var start :- OptionalU64(o, "preview_start");
    Success(RenderCanvasSet(outputs, transition, scale_mode, allow_partial, paths, Or(start, 0)))
  }

  function ParseRenderWorldSet(o: Fields): Result<Request> {
    var outputs :- RequiredOutputs(o);
    var transition :- RequiredTransition(o);
    var scale_mode :- ParseScaleModeField(o);
    var allow_partial :- OptionalBool(o, "allow_partial");
    var library_count :- RequiredU64(o, "library_count");
    var columns :- RequiredU64(o, "columns");
    var fingerprint :- RequiredU64(o, "fingerprint");
    var edge :- RequiredU32(o, "thumbnail_edge");
    var tile_cells :- RequiredU64(o, "tile_cells");
    var routes :- ParseRoutes(o);
    Success(RenderWorldSet(outputs, transition, scale_mode, allow_partial, library_count, columns, fingerprint, edge, tile_cells, routes))
  }

  function ParseFields(o: Fields, rendererControl: bool): Result<Request> {
    var kind :- RequiredString(o, "type");
    if kind == "ping" then Success(Ping)
    else if kind == "capabilities" then Success(Capabilities)
    else if kind == "health" then Success(Health)
    else if kind == "query" then Success(Query)
    else if kind == "stop" then Success(Stop)
    else if kind == "set" then ParseSet(o)
    else if kind == "preload" then var outputs :- RequiredOutputs(o); Success(Preload(outputs))
    else if kind == "clear" then ParseClear(o)
    else if kind == "wallpaper" then ParseWallpaper(o)
    else if kind == "cache" then ParseCache(o)
    else if kind == "renderer_canvas_set" || kind == "renderer_world_set" then
      if !rendererControl then Failure(Reserved)
      else if kind == "renderer_canvas_set" then ParseRenderCanvasSet(o)
      else ParseRenderWorldSet(o)
    else Failure(Unknown("request type"))
  }

  function ParseRequestWith(input: string, rendererControl: bool): Result<Request> {
    match D.ParseText(input)
    case Fails(e) => Failure(BadJson(e))
    case Parses(v) => var o :- AsObject(v); ParseFields(o, rendererControl)
  }

  /** `parse_request`, on the inherited supervisor channel. */
  function ParseRequest(input: string): Result<Request> {
    ParseRequestWith(input, true)
  }

  /** `parse_public_request`, on the daemon socket. */
  function ParsePublicRequest(input: string): Result<Request> {
    ParseRequestWith(input, false)
  }
}
