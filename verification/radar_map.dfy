/**
 * The control state of the full-screen radar map: zoom, map movement and
 * the clamping of the map to the screen edges, the enabled/forced
 * visibility switch with its effect on the HUD and chat, and the choice of
 * texture for a radar marker.
 *
 * The float projection that places the map (from the movement offsets in
 * free mode, from the local player's position when attached) is a
 * parameter: `project` gives the unclamped top-left corner of the map. The
 * clamping SetupMapVariables applies to that corner is modelled exactly.
 */
module RadarMap {
  import opened Common

  // ----- Map placement -----

  datatype Bounds = Bounds(minX: int, maxX: int, minY: int, maxY: int)

  datatype Radar = Radar(
    enabled: bool, forced: bool, attached: bool,
    movingNorth: bool, movingSouth: bool, movingEast: bool, movingWest: bool,
    zoom: uint8, horizontal: int, vertical: int,
    width: uint32, height: uint32, bounds: Bounds)

  /** The projection SetupMapVariables computes in floating point: the map's unclamped top-left corner. */
  type Projection = Radar -> (int, int)

  /** Zoom levels the map can take. */
  predicate ValidZoom(zoom: int)
  {
    zoom == 1 || zoom == 2 || zoom == 4 || zoom == 8
  }

  /** `m_uiHeight * m_ucZoom`, in unsigned arithmetic: the side of the square map, in pixels. */
  function MapSize(r: Radar): uint32
  {
    ToUInt32(r.height * r.zoom)
  }

  /**
   * The edge rule of a zoomed map along one axis of length `screen`: a map
   * whose leading edge is past the screen's start (`strict`: strictly past;
   * otherwise at or past) is pinned to the start; otherwise a map whose
   * trailing edge is inside the screen is pinned to the end.
   */
  function ClampAxis(min: int, size: int, screen: int, strict: bool): (r: (int, int))
    ensures r.1 - r.0 == size
    ensures r.0 <= 0 || r.1 == screen
    ensures r.1 >= screen || r.0 == 0
  {
    if (if strict then min > 0 else min >= 0) then (0, size)
    else if min + size <= screen then (screen - size, screen)
    else (min, min + size)
  }

  /**
   * SetupMapVariables: in free mode the map sits where the projection puts
   * it, clamped to the screen edges when zoomed, and without zoom the
   * movement offsets are reset; attached without zoom, the map is the
   * centred square; attached and zoomed, the projected map is clamped.
   */
  function Setup(r: Radar, project: Projection): (r': Radar)
    ensures r'.zoom == r.zoom && r'.attached == r.attached
    ensures r'.enabled == r.enabled && r'.forced == r.forced
    ensures r'.width == r.width && r'.height == r.height
    ensures r'.movingNorth == r.movingNorth && r'.movingSouth == r.movingSouth
    ensures r'.movingEast == r.movingEast && r'.movingWest == r.movingWest
    ensures !r.attached && r.zoom <= 1 ==> r'.horizontal == 0 && r'.vertical == 0
    ensures r.attached || r.zoom > 1 ==> r'.horizontal == r.horizontal && r'.vertical == r.vertical
    ensures r.zoom > 1 ==> r'.bounds.maxX - r'.bounds.minX == MapSize(r) && r'.bounds.maxY - r'.bounds.minY == MapSize(r)
  {
    var size := MapSize(r);
    var middleX := r.width / 2;
    var middleY := r.height / 2;
    var (minX, minY) := project(r);
    if r.attached && r.zoom <= 1 then
      r.(bounds := Bounds(middleX - middleY, middleX + middleY, middleY - middleY, middleY + middleY))
    else if r.zoom <= 1 then
      r.(bounds := Bounds(minX, minX + size, minY, minY + size), horizontal := 0, vertical := 0)
    else
      var x := ClampAxis(minX, size, r.width, r.attached);
      var y := ClampAxis(minY, size, r.height, r.attached);
      r.(bounds := Bounds(x.0, x.1, y.0, y.1))
  }

  /** The map when zoomed in reaches or covers each screen edge: no gap opens on the side the map was pushed away from. */
  lemma ZoomedMapMeetsEdges(r: Radar, project: Projection)
    requires r.zoom > 1
    ensures var b := Setup(r, project).bounds;
            && (b.minX <= 0 || b.maxX == r.width) && (b.maxX >= r.width || b.minX == 0)
            && (b.minY <= 0 || b.maxY == r.height) && (b.maxY >= r.height || b.minY == 0)
  {
  }

  /** The constructor's state: hidden, free mode, zoom 1, no movement, then SetupMapVariables. */
  function Initial(width: uint32, height: uint32, project: Projection): (r: Radar)
    ensures !r.enabled && !r.forced && !r.attached && r.zoom == 1
    ensures r.horizontal == 0 && r.vertical == 0
  {
    Setup(Radar(false, false, false, false, false, false, false, 1, 0, 0, width, height, Bounds(0, 0, 0, 0)), project)
  }

  // ----- Zoom -----

  /** ZoomIn: doubles the zoom while it is at most 4. */
  function ZoomIn(r: Radar, project: Projection): (r': Radar)
    ensures r.zoom <= 4 ==> r'.zoom == 2 * r.zoom
    ensures r.zoom > 4 ==> r' == r
  {
    if r.zoom <= 4 then Setup(r.(zoom := r.zoom * 2), project) else r
  }

  /** `static_cast<int>(x)`: the real truncated toward zero. */
  function Truncate(x: real): (n: int)
    ensures x >= 0.0 ==> n as real <= x < n as real + 1.0
    ensures x < 0.0 ==> n as real - 1.0 < x <= n as real
  {
    if x >= 0.0 then x.Floor else -((-x).Floor)
  }

  /** A movement offset divided by 1.7 and truncated, as zooming out scales it. */
  function Shrink(m: int): (s: int)
    ensures m >= 0 ==> 0 <= s <= m
    ensures m <= 0 ==> m <= s <= 0
  {
    Truncate(m as real / 1.7)
  }

  /**
   * ZoomOut: halves a zoom of at least 2; still zoomed, the movement
   * offsets shrink with the map, otherwise they are reset and every
   * movement stops.
   */
  function ZoomOut(r: Radar, project: Projection): (r': Radar)
    ensures r.zoom < 2 ==> r' == r
    ensures r.zoom >= 2 ==> r'.zoom == r.zoom / 2
    ensures r.zoom >= 2 && r'.zoom == 1 ==>
              r'.horizontal == 0 && r'.vertical == 0
              && !r'.movingNorth && !r'.movingSouth && !r'.movingEast && !r'.movingWest
    ensures r.zoom >= 2 && r'.zoom > 1 ==> r'.horizontal == Shrink(r.horizontal) && r'.vertical == Shrink(r.vertical)
  {
    if r.zoom >= 2 then
      var zoom := r.zoom / 2;
      var moved :=
        if zoom > 1 then r.(zoom := zoom, vertical := Shrink(r.vertical), horizontal := Shrink(r.horizontal))
        else r.(zoom := zoom, vertical := 0, horizontal := 0,
                movingNorth := false, movingSouth := false, movingEast := false, movingWest := false);
      Setup(moved, project)
    else r
  }

  // ----- Movement -----

  /** The movement commands only act on a zoomed map in free mode. */
  predicate CanMove(r: Radar)
  {
    !r.attached && r.zoom > 1
  }

  /** MoveNorth: a map already at the top edge is pinned there; otherwise the view moves up by 20. */
  function MoveNorth(r: Radar, project: Projection): (r': Radar)
    ensures !CanMove(r) ==> r' == r
    ensures CanMove(r) && r.bounds.minY >= 0 ==> r' == r.(bounds := r.bounds.(minY := 0, maxY := MapSize(r)))
    ensures CanMove(r) && r.bounds.minY < 0 ==> r'.vertical == r.vertical + 20 && r'.horizontal == r.horizontal
  {
    if !CanMove(r) then r
    else if r.bounds.minY >= 0 then r.(bounds := r.bounds.(minY := 0, maxY := MapSize(r)))
    else Setup(r.(vertical := r.vertical + 20), project)
  }

  /** MoveSouth: a map already at the bottom edge is pinned there; otherwise the view moves down by 20. */
  function MoveSouth(r: Radar, project: Projection): (r': Radar)
    ensures !CanMove(r) ==> r' == r
    ensures CanMove(r) && r.bounds.maxY <= r.height ==> r' == r.(bounds := r.bounds.(maxY := r.height, minY := r.height - MapSize(r)))
    ensures CanMove(r) && r.bounds.maxY > r.height ==> r'.vertical == r.vertical - 20 && r'.horizontal == r.horizontal
  {
    if !CanMove(r) then r
    else if r.bounds.maxY <= r.height then r.(bounds := r.bounds.(maxY := r.height, minY := r.height - MapSize(r)))
    else Setup(r.(vertical := r.vertical - 20), project)
  }

  /** MoveEast: a map already at the right edge is pinned there; otherwise the view moves right by 20. */
  function MoveEast(r: Radar, project: Projection): (r': Radar)
    ensures !CanMove(r) ==> r' == r
    ensures CanMove(r) && r.bounds.maxX <= r.width ==> r' == r.(bounds := r.bounds.(maxX := r.width, minX := r.width - MapSize(r)))
    ensures CanMove(r) && r.bounds.maxX > r.width ==> r'.horizontal == r.horizontal + 20 && r'.vertical == r.vertical
  {
    if !CanMove(r) then r
    else if r.bounds.maxX <= r.width then r.(bounds := r.bounds.(maxX := r.width, minX := r.width - MapSize(r)))
    else Setup(r.(horizontal := r.horizontal + 20), project)
  }

  /** MoveWest: a map already at the left edge is pinned there; otherwise the view moves left by 20. */
  function MoveWest(r: Radar, project: Projection): (r': Radar)
    ensures !CanMove(r) ==> r' == r
    ensures CanMove(r) && r.bounds.minX >= 0 ==> r' == r.(bounds := r.bounds.(minX := 0, maxX := MapSize(r)))
    ensures CanMove(r) && r.bounds.minX < 0 ==> r'.horizontal == r.horizontal - 20 && r'.vertical == r.vertical
  {
    if !CanMove(r) then r
    else if r.bounds.minX >= 0 then r.(bounds := r.bounds.(minX := 0, maxX := MapSize(r)))
    else Setup(r.(horizontal := r.horizontal - 20), project)
  }

  /** SetAttachedToLocalPlayer: switches mode and places the map again. */
  function SetAttached(r: Radar, attached: bool, project: Projection): (r': Radar)
    ensures r'.attached == attached && r'.zoom == r.zoom
  {
    Setup(r.(attached := attached), project)
  }

  /** The zoom is a power of two from 1 to 8, and without zoom the map has no movement offset. */
  predicate Inv(r: Radar)
  {
    ValidZoom(r.zoom) && (r.zoom == 1 ==> r.horizontal == 0 && r.vertical == 0)
  }

  lemma InitialInv(width: uint32, height: uint32, project: Projection)
    ensures Inv(Initial(width, height, project))
  {
  }

  /** Zooming in or out keeps the invariant. */
  lemma ZoomKeepsInv(r: Radar, project: Projection)
    requires Inv(r)
    ensures Inv(ZoomIn(r, project)) && Inv(ZoomOut(r, project))
  {
  }

  /** Moving the map north or south keeps the invariant. */
  lemma MoveVerticallyKeepsInv(r: Radar, project: Projection)
    requires Inv(r)
    ensures Inv(MoveNorth(r, project)) && Inv(MoveSouth(r, project))
  {
  }

  /** Moving the map east or west keeps the invariant. */
  lemma MoveHorizontallyKeepsInv(r: Radar, project: Projection)
    requires Inv(r)
    ensures Inv(MoveEast(r, project)) && Inv(MoveWest(r, project))
  {
  }

  /** Switching between free and attached mode keeps the invariant. */
  lemma AttachKeepsInv(r: Radar, project: Projection, attached: bool)
    requires Inv(r)
    ensures Inv(SetAttached(r, attached, project))
  {
  }

  /** Zooming in and then out again from zoom 1 comes back to zoom 1 with no movement. */
  lemma ZoomInOutFromOne(r: Radar, project: Projection)
    requires Inv(r) && r.zoom == 1
    ensures var r' := ZoomOut(ZoomIn(r, project), project);
            r'.zoom == 1 && r'.horizontal == 0 && r'.vertical == 0
            && !r'.movingNorth && !r'.movingSouth && !r'.movingEast && !r'.movingWest
  {
  }

  // ----- Visibility -----

  /** What InternalSetRadarEnabled touches outside the radar: HUD, game radar, chat and debug view, and the saved chat/debug visibility. */
  datatype Screen = Screen(hudDisabled: bool, radarHidden: bool, chatVisible: bool, debugVisible: bool,
                           savedChat: bool, savedDebug: bool)

  /** The map is wanted on screen: enabled by the player or forced by a script. */
  predicate Showing(r: Radar)
  {
    r.enabled || r.forced
  }

  /**
   * InternalSetRadarEnabled: showing saves the chat and debug visibility and
   * hides them with the HUD and the game's radar; hiding restores them.
   */
  function InternalSetRadarEnabled(s: Screen, enabled: bool): (s': Screen)
    ensures enabled ==> s' == Screen(true, true, false, false, s.chatVisible, s.debugVisible)
    ensures !enabled ==> s' == Screen(false, false, s.savedChat, s.savedDebug, s.savedChat, s.savedDebug)
  {
    if enabled then s.(hudDisabled := true, radarHidden := true, chatVisible := false, debugVisible := false,
                       savedChat := s.chatVisible, savedDebug := s.debugVisible)
    else s.(hudDisabled := false, radarHidden := false, chatVisible := s.savedChat, debugVisible := s.savedDebug)
  }

  /** SetRadarEnabled: stores the flag, switching the screen only when the map's showing changes. */
  function SetRadarEnabled(r: Radar, s: Screen, enabled: bool): (res: (Radar, Screen))
    ensures res.0 == r.(enabled := enabled)
    ensures Showing(res.0) == Showing(r) ==> res.1 == s
    ensures Showing(res.0) != Showing(r) ==> res.1 == InternalSetRadarEnabled(s, Showing(res.0))
  {
    var already := r.enabled || r.forced;
    var willShow := enabled || r.forced;
    (r.(enabled := enabled), if already != willShow then InternalSetRadarEnabled(s, willShow) else s)
  }

  /** SetForcedState: the same for the script-forced flag. */
  function SetForcedState(r: Radar, s: Screen, forced: bool): (res: (Radar, Screen))
    ensures res.0 == r.(forced := forced)
    ensures Showing(res.0) == Showing(r) ==> res.1 == s
    ensures Showing(res.0) != Showing(r) ==> res.1 == InternalSetRadarEnabled(s, Showing(res.0))
  {
    var already := r.enabled || r.forced;
    var willShow := r.enabled || forced;
    (r.(forced := forced), if already != willShow then InternalSetRadarEnabled(s, willShow) else s)
  }

  /** The HUD and game radar are off, and chat and debug hidden, exactly while the map shows. */
  predicate InSync(r: Radar, s: Screen)
  {
    s.hudDisabled == Showing(r) && s.radarHidden == Showing(r)
    && (Showing(r) ==> !s.chatVisible && !s.debugVisible)
  }

  lemma VisibilityKeepsSync(r: Radar, s: Screen, flag: bool)
    requires InSync(r, s)
    ensures InSync(SetRadarEnabled(r, s, flag).0, SetRadarEnabled(r, s, flag).1)
    ensures InSync(SetForcedState(r, s, flag).0, SetForcedState(r, s, flag).1)
  {
  }

  /** Opening the map and closing it again gives the player back the chat and debug view they had. */
  lemma OpenCloseRestoresScreen(r: Radar, s: Screen)
    requires !Showing(r) && InSync(r, s)
    ensures var (r1, s1) := SetRadarEnabled(r, s, true);
            var (r2, s2) := SetRadarEnabled(r1, s1, false);
            r2 == r && s2.chatVisible == s.chatVisible && s2.debugVisible == s.debugVisible
            && !s2.hudDisabled && !s2.radarHidden
  {
  }

  /** While a script forces the map, the player's own switch changes nothing on screen. */
  lemma ForcedMapIgnoresPlayer(r: Radar, s: Screen, enabled: bool)
    requires r.forced
    ensures SetRadarEnabled(r, s, enabled).1 == s
  {
  }

  // ----- Marker textures -----

  /** Sprite icons available to radar markers (RADAR_MARKER_LIMIT): sprites 1 to 63. */
  const MarkerLimit := 63

  /** The textures CreateMarkerTextures loads, by what they show. */
  datatype Texture = Square | UpTriangle | DownTriangle | Icon(sprite: nat)

  const SquareIndex := 0
  const UpTriangleIndex := 1
  const DownTriangleIndex := 2
  const FirstSpriteIndex := 3

  /** CreateMarkerTextures: the three shapes, then icons 1 to MarkerLimit. */
  method CreateMarkerTextures() returns (list: seq<Texture>)
    ensures |list| == FirstSpriteIndex + MarkerLimit
    ensures list[SquareIndex] == Square && list[UpTriangleIndex] == UpTriangle && list[DownTriangleIndex] == DownTriangle
    ensures forall i :: FirstSpriteIndex <= i < |list| ==> list[i] == Icon(i - FirstSpriteIndex + 1)
  {
    list := [Square, UpTriangle, DownTriangle];
    var i := 0;
    while i < MarkerLimit
      invariant 0 <= i <= MarkerLimit
      invariant |list| == FirstSpriteIndex + i
      invariant list[SquareIndex] == Square && list[UpTriangleIndex] == UpTriangle && list[DownTriangleIndex] == DownTriangle
      invariant forall k :: FirstSpriteIndex <= k < |list| ==> list[k] == Icon(k - FirstSpriteIndex + 1)
    {
      list := list + [Icon(i + 1)];
      i := i + 1;
    }
  }

  /** The file name of a texture, relative to the radar set directory; icons are numbered with at least two digits. */
  function FileName(t: Texture): string
  {
    match t
    case Square => "square.png"
    case UpTriangle => "up.png"
    case DownTriangle => "down.png"
    case Icon(n) => (if n < 10 then "0" else "") + Decimal(n) + ".png"
  }

  function Decimal(n: nat): (s: string)
    ensures |s| >= 1
  {
    if n < 10 then [Digit(n)] else Decimal(n / 10) + [Digit(n % 10)]
  }

  function Digit(d: nat): (c: char)
    requires d < 10
    ensures '0' <= c <= '9'
  {
    (48 + d) as char
  }

  /** Icon `n` of the created list loads the file named by `n` in two decimal digits ("%02u.png"). */
  lemma IconFileName(n: nat)
    requires 1 <= n <= MarkerLimit
    ensures FileName(Icon(n)) == [Digit(n / 10), Digit(n % 10)] + ".png"
  {
    if n < 10 {
      assert Decimal(n) == [Digit(n)];
      assert Digit(0) == '0';
    } else {
      assert Decimal(n) == Decimal(n / 10) + [Digit(n % 10)];
      assert Decimal(n / 10) == [Digit(n / 10)];
    }
  }

  /** The textures CreateMarkerTextures puts in the list. */
  predicate Created(t: Texture)
  {
    t.Icon? ==> 1 <= t.sprite <= MarkerLimit
  }

  /** No two textures of the created list are loaded from the same file. */
  lemma FileNamesDistinct(t: Texture, u: Texture)
    requires Created(t) && Created(u) && t != u
    ensures FileName(t) != FileName(u)
  {
    if t.Icon? && u.Icon? {
      IconFileName(t.sprite);
      IconFileName(u.sprite);
      assert FileName(t)[0] != FileName(u)[0] || FileName(t)[1] != FileName(u)[1] by {
        assert t.sprite == 10 * (t.sprite / 10) + t.sprite % 10;
        assert u.sprite == 10 * (u.sprite / 10) + u.sprite % 10;
      }
    } else if t.Icon? {
      IconFileName(t.sprite);
      assert '0' <= FileName(t)[0] <= '9';
    } else if u.Icon? {
      IconFileName(u.sprite);
      assert '0' <= FileName(u)[0] <= '9';
    }
  }

  /** What a marker looks like: an ARGB colour and a scale factor. */
  datatype Color = Color(a: uint8, r: uint8, g: uint8, b: uint8)

  const White := Color(255, 255, 255, 255)

  datatype MarkerLook = MarkerLook(texture: Option<Texture>, scale: real, color: Color)

  /**
   * GetMarkerTexture: a sprite marker shows its icon in white at full
   * scale; a plain marker shows a square at a quarter of its scale, or a
   * triangle pointing toward it when it is more than 4 units above or below
   * the local player. No texture when the index is past the list.
   */
  function GetMarkerTexture(list: seq<Texture>, sprite: uint32, scale: real, color: Color, localZ: real, markerZ: real): (look: MarkerLook)
    ensures sprite != 0 ==> look.scale == 1.0 && look.color == White
    ensures sprite == 0 ==> look.scale == scale / 4.0 && look.color == color
    ensures look.texture.Some? <==> MarkerIndex(sprite, localZ, markerZ) < |list|
    ensures look.texture.Some? ==> look.texture.value == list[MarkerIndex(sprite, localZ, markerZ)]
  {
    var index := MarkerIndex(sprite, localZ, markerZ);
    var texture := if index < |list| then Some(list[index]) else None;
    if sprite != 0 then MarkerLook(texture, 1.0, White) else MarkerLook(texture, scale / 4.0, color)
  }

  /** The list index GetMarkerTexture computes, in unsigned arithmetic. */
  function MarkerIndex(sprite: uint32, localZ: real, markerZ: real): (index: uint32)
    ensures sprite == 0 ==> index <= DownTriangleIndex
    ensures 0 < sprite < 0xFFFF_FFFE ==> index == sprite - 1 + FirstSpriteIndex
  {
    if sprite != 0 then ToUInt32(sprite - 1 + FirstSpriteIndex)
    else if localZ > markerZ + 4.0 then DownTriangleIndex
    else if localZ < markerZ - 4.0 then UpTriangleIndex
    else SquareIndex
  }

  /** Every sprite from 1 to the limit finds its own icon in the created list. */
  lemma SpriteFindsItsIcon(list: seq<Texture>, sprite: uint32, scale: real, color: Color, localZ: real, markerZ: real)
    requires |list| == FirstSpriteIndex + MarkerLimit
    requires forall i :: FirstSpriteIndex <= i < |list| ==> list[i] == Icon(i - FirstSpriteIndex + 1)
    requires 1 <= sprite <= MarkerLimit
    ensures GetMarkerTexture(list, sprite, scale, color, localZ, markerZ).texture == Some(Icon(sprite))
  {
    assert list[sprite - 1 + FirstSpriteIndex] == Icon(sprite);
  }

  /** A plain marker is drawn as the shape its height calls for. */
  lemma PlainMarkerShape(list: seq<Texture>, scale: real, color: Color, localZ: real, markerZ: real)
    requires |list| >= FirstSpriteIndex
    requires list[SquareIndex] == Square && list[UpTriangleIndex] == UpTriangle && list[DownTriangleIndex] == DownTriangle
    ensures var t := GetMarkerTexture(list, 0, scale, color, localZ, markerZ).texture;
            && (localZ > markerZ + 4.0 ==> t == Some(DownTriangle))
            && (markerZ - 4.0 <= localZ <= markerZ + 4.0 ==> t == Some(Square))
            && (localZ < markerZ - 4.0 ==> t == Some(UpTriangle))
  {
  }

  /** A sprite beyond the limit has no texture in the created list, unless it is so large that the index wraps. */
  lemma UnknownSpriteHasNoTexture(list: seq<Texture>, sprite: uint32, scale: real, color: Color, localZ: real, markerZ: real)
    requires |list| == FirstSpriteIndex + MarkerLimit
    requires MarkerLimit < sprite < 0xFFFF_FFFE
    ensures GetMarkerTexture(list, sprite, scale, color, localZ, markerZ).texture.None?
  {
  }

  /** The two largest sprite numbers wrap around to the square and up-triangle shapes. */
  lemma LargestSpritesWrap(list: seq<Texture>, scale: real, color: Color, localZ: real, markerZ: real)
    requires |list| >= FirstSpriteIndex
    requires list[SquareIndex] == Square && list[UpTriangleIndex] == UpTriangle
    ensures GetMarkerTexture(list, 0xFFFF_FFFE, scale, color, localZ, markerZ).texture == Some(Square)
    ensures GetMarkerTexture(list, 0xFFFF_FFFF, scale, color, localZ, markerZ).texture == Some(UpTriangle)
  {
  }
}
