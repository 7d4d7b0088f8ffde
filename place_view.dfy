/**
 * The decision logic of the stop screen: the `Place` record shown on it, the
 * swipe directions, the waypoint link handed to the navigation app, the arrow
 * buttons and the drag-gesture threshold.  Layout and map rendering are not
 * modelled.
 */
module PlaceView {
  import opened Optional

  /**
   * A `CLLocationCoordinate2D`.  No arithmetic is done on coordinates; their
   * text form `"\(lat),\(lon)"` is treated as an uninterpreted formatter that
   * callers pass as `fmt`.
   */
  datatype Coordinate = Coordinate(latitude: real, longitude: real)

  /** One stop of a tour. `Place` has only `let` fields in the app, so it is a value here. */
  datatype Place = Place(
    locationTitle: string,
    categoryName: string,
    tourDescription: string,
    storyDescription: string,
    coordinates: Option<Coordinate>)

  datatype SwipeDirection = Left | Right

  // ---------------------------------------------------------------------------
  // The waypoint link of the "Navigate" button

  const MapsUrlPrefix: string := "comgooglemaps://?saddr=&daddr="

  const WaypointSeparator: string := "+to:"

  /** Each stop's text followed by the separator, in order. */
  function Waypoints(stops: seq<Coordinate>, fmt: Coordinate -> string): string {
    if stops == [] then ""
    else Waypoints(stops[..|stops| - 1], fmt) + fmt(stops[|stops| - 1]) + WaypointSeparator
  }

  /**
   * The link for starting at stop `start`: the stops after it as waypoints,
   * and the start stop itself appended last; `None` when `start` is not a
   * stop index.
   */
  function MapsUrl(coords: seq<Coordinate>, start: int, fmt: Coordinate -> string): (url: Option<string>)
    ensures url.None? <==> !(0 <= start < |coords|)
  {
    if 0 <= start < |coords| then
      Some(MapsUrlPrefix + Waypoints(coords[start + 1..], fmt) + fmt(coords[start]))
    else None
  }

  /** `getGoogleMapsURL(withCoordinates:startIndex:)`, with its loop over the waypoints. */
  method GetGoogleMapsUrl(coordinates: seq<Coordinate>, startIndex: int, fmt: Coordinate -> string)
    returns (url: Option<string>)
    ensures url == MapsUrl(coordinates, startIndex, fmt)
  {
    if !(startIndex >= 0 && startIndex < |coordinates|) {
      return None;
    }
    var subCoordinates := coordinates[startIndex..];
    if |subCoordinates| == 0 {
      // The slice from a valid index is never empty: the second guard of the source is dead.
      assert false;
    }
    var firstCoordinate := subCoordinates[0];
    var waypointCoordinates := subCoordinates[1..];
    assert waypointCoordinates == coordinates[startIndex + 1..];
    var text := MapsUrlPrefix;
    for i := 0 to |waypointCoordinates|
      invariant text == MapsUrlPrefix + Waypoints(waypointCoordinates[..i], fmt)
    {
      assert waypointCoordinates[..i + 1][..i] == waypointCoordinates[..i];
      text := text + fmt(waypointCoordinates[i]) + WaypointSeparator;
    }
    assert waypointCoordinates[..|waypointCoordinates|] == waypointCoordinates;
    text := text + fmt(firstCoordinate);
    url := Some(text);
  }

  /** The number of '+' characters in a text. */
  function PlusCount(s: string): nat {
    multiset(s)['+']
  }

  lemma {:induction false} WaypointsPlusCount(stops: seq<Coordinate>, fmt: Coordinate -> string)
    requires forall i :: 0 <= i < |stops| ==> '+' !in fmt(stops[i])
    ensures PlusCount(Waypoints(stops, fmt)) == |stops|
  {
    if stops != [] {
      var init := stops[..|stops| - 1];
      WaypointsPlusCount(init, fmt);
      var last := fmt(stops[|stops| - 1]);
      assert multiset(last)['+'] == 0;
      assert multiset(WaypointSeparator)['+'] == 1;
      assert multiset(Waypoints(init, fmt) + last + WaypointSeparator)
          == multiset(Waypoints(init, fmt)) + multiset(last) + multiset(WaypointSeparator);
    }
  }

  lemma PlusCountConcat(a: string, b: string)
    ensures PlusCount(a + b) == PlusCount(a) + PlusCount(b)
  {
    assert multiset(a + b) == multiset(a) + multiset(b);
  }

  lemma PlusFree(s: string)
    requires '+' !in s
    ensures PlusCount(s) == 0
  {
  }

  lemma PrefixPlusFree()
    ensures PlusCount(MapsUrlPrefix) == 0
  {
    assert forall i :: 0 <= i < |MapsUrlPrefix| ==> MapsUrlPrefix[i] != '+';
    PlusFree(MapsUrlPrefix);
  }

  /**
   * When no stop's text holds a '+', the link holds exactly one separator per
   * stop after the start: `|coords| - start - 1` of them.
   */
  lemma SeparatorCount(coords: seq<Coordinate>, start: int, fmt: Coordinate -> string)
    requires 0 <= start < |coords|
    requires forall i :: 0 <= i < |coords| ==> '+' !in fmt(coords[i])
    ensures MapsUrl(coords, start, fmt).Some?
    ensures PlusCount(MapsUrl(coords, start, fmt).value) == |coords| - start - 1
  {
    var stop := fmt(coords[start]);
    assert '+' !in stop;
    PlusFree(stop);
    RestPlusCount(coords, start, fmt);
    PrefixPlusFree();
    PlusCountAround(MapsUrlPrefix, Waypoints(coords[start + 1..], fmt), stop);
  }

  lemma RestPlusCount(coords: seq<Coordinate>, start: int, fmt: Coordinate -> string)
    requires 0 <= start < |coords|
    requires forall i :: 0 <= i < |coords| ==> '+' !in fmt(coords[i])
    ensures PlusCount(Waypoints(coords[start + 1..], fmt)) == |coords| - start - 1
  {
    var rest := coords[start + 1..];
    assert forall i :: 0 <= i < |rest| ==> rest[i] == coords[start + 1 + i];
    WaypointsPlusCount(rest, fmt);
  }

  lemma PlusCountAround(prefix: string, middle: string, suffix: string)
    requires PlusCount(prefix) == 0 && PlusCount(suffix) == 0
    ensures PlusCount(prefix + middle + suffix) == PlusCount(middle)
  {
    PlusCountConcat(prefix, middle);
    PlusCountConcat(prefix + middle, suffix);
  }

  /** Starting at the last stop, the link is the prefix and that stop alone. */
  lemma LastStopUrl(coords: seq<Coordinate>, fmt: Coordinate -> string)
    requires |coords| > 0
    ensures MapsUrl(coords, |coords| - 1, fmt) == Some(MapsUrlPrefix + fmt(coords[|coords| - 1]))
  {
    assert coords[|coords|..] == [];
    assert Waypoints([], fmt) == "";
    assert MapsUrlPrefix + "" == MapsUrlPrefix;
  }

  /** The waypoint after stop `start` comes first, and the start stop is the end of the link. */
  lemma {:induction false} StartStopLast(coords: seq<Coordinate>, start: int, fmt: Coordinate -> string)
    requires 0 <= start < |coords| - 1
    ensures MapsUrl(coords, start, fmt).Some?
    ensures var url := MapsUrl(coords, start, fmt).value;
      && MapsUrlPrefix + fmt(coords[start + 1]) + WaypointSeparator <= url
      && |fmt(coords[start])| <= |url|
      && url[|url| - |fmt(coords[start])|..] == fmt(coords[start])
  {
    var rest := coords[start + 1..];
    WaypointsStartWith(rest, fmt);
    var url := MapsUrl(coords, start, fmt).value;
    var next := fmt(coords[start + 1]) + WaypointSeparator;
    assert url == MapsUrlPrefix + Waypoints(rest, fmt) + fmt(coords[start]);
    assert rest[0] == coords[start + 1];
    assert Waypoints(rest, fmt)[..|next|] == next;
    assert (MapsUrlPrefix + next) == url[..|MapsUrlPrefix| + |next|];
  }

  lemma {:induction false} WaypointsStartWith(stops: seq<Coordinate>, fmt: Coordinate -> string)
    requires |stops| > 0
    ensures var head := fmt(stops[0]) + WaypointSeparator;
      |head| <= |Waypoints(stops, fmt)| && Waypoints(stops, fmt)[..|head|] == head
  {
    if |stops| > 1 {
      var init := stops[..|stops| - 1];
      WaypointsStartWith(init, fmt);
      assert init[0] == stops[0];
    } else {
      assert stops[..0] == [];
    }
  }

  // ---------------------------------------------------------------------------
  // Arrow buttons, the drag gesture and the stop's map centre

  /** The left arrow is shown on every stop but the first; from a stop it leads to a stop. */
  function ShowsLeftArrow(index: int): (shown: bool)
    ensures index < 1 ==> !shown
    ensures 0 <= index ==> (shown <==> 0 <= index - 1)
  {
    index > 0
  }

  /** The right arrow is shown on every stop but the last; from a stop it leads to a stop. */
  function ShowsRightArrow(index: int, stopCount: int): (shown: bool)
    ensures index >= stopCount - 1 ==> !shown
    ensures -1 <= index ==> (shown <==> 0 <= index + 1 < stopCount)
  {
    index < stopCount - 1
  }

  const GestureThreshold: real := 100.0

  /**
   * What a finished drag of horizontal extent `width` reports: a drag to the
   * right of more than the threshold is `.left` (go back), one to the left of
   * more than the threshold is `.right`; anything else reports nothing.
   */
  function ClassifyDrag(width: real): (direction: Option<SwipeDirection>)
    ensures direction == Some(Left) <==> width > GestureThreshold
    ensures direction == Some(Right) <==> width < -GestureThreshold
    ensures direction == None <==> -GestureThreshold <= width <= GestureThreshold
  {
    if width > GestureThreshold then Some(Left)
    else if width < -GestureThreshold then Some(Right)
    else None
  }

  /** The stop index a swipe asks the view model to go to (`MainView`'s callback). */
  function SwipeTarget(direction: SwipeDirection, index: int): (target: int)
    ensures direction == Left ==> target < index
    ensures direction == Right ==> target > index
    ensures target == index - 1 || target == index + 1
  {
    match direction
    case Left => index - 1
    case Right => index + 1
  }

  /**
   * `placeCoordinates`: the centre of the stop's map.  The index must be a
   * stop index (the array read traps otherwise), and the centre is one of the
   * tour's own coordinates.
   */
  function PlaceCoordinates(tourCoordinates: seq<Coordinate>, index: int): (centre: Coordinate)
    requires 0 <= index < |tourCoordinates|
    ensures centre in tourCoordinates
  {
    tourCoordinates[index]
  }
}
