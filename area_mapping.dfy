/**
 * The table of named rectangular world regions and the lookups over it:
 * first match in table order, an "Unknown Area (x, y)" name when nothing
 * matches, and the flag saying whether entering the region earns a reward.
 */
module AreaMapping {
  import opened Wrappers
  import opened Builtins

  /** A named region; both ranges are (min, max) and inclusive at both ends. */
  datatype Area = Area(name: string, xRange: (int, int), yRange: (int, int), rewardable: bool) {
    predicate Contains(x: int, y: int) {
      xRange.0 <= x <= xRange.1 && yRange.0 <= y <= yRange.1
    }
  }

  /** The regions in the order the source's dictionary lists them. */
  const Areas: seq<Area> := [
    Area("Link's House", (2344, 2504), (8528, 8700), false),
    Area("Link's Land", (1570, 2530), (2440, 3030), true),
    Area("Hyrule Castle Bridge", (1624, 2480), (2272, 2439), true),
    Area("Hyrule Castle Grounds", (1570, 2480), (1530, 2272), true),
    Area("Hyrule Castle B1 Room 1", (2672, 2992), (2620, 2815), true),
    Area("Hyrule Castle B1 Room 2", (2615, 2976), (2815, 3070), true),
    Area("Hyrule Castle Entrance", (505, 1016), (3055, 3580), true),
    Area("Hyrule Castle Throne Room", (575, 936), (2590, 3055), true),
    Area("Hyrule Castle Left Wing", (296, 505), (3055, 3580), true),
    Area("Hyrule Castle Right Wing", (1016, 1352), (3055, 3580), true),
    Area("Hyrule Castle Upper Left Wing", (343, 510), (2664, 3055), true),
    Area("Hyrule Castle Upper Right Wing", (1010, 1288), (2608, 3055), true),
    Area("Hyrule Castle Basement Entrance", (490, 1025), (30, 150), true),
    Area("Hyrule Castle B1 Room 3", (1224, 1320), (3620, 3776), true),
    Area("Hyrule Castle B1 Room 4A", (1054, 1370), (3888, 4496), true),
    Area("Hyrule Castle B1 Room 4B", (608, 996), (4168, 4494), true),
    Area("Hyrule Castle B1 Room 5", (576, 688), (3894, 4008), true),
    Area("Hyrule Castle B1 Room 6", (822, 938), (3934, 4008), true),
    Area("Hyrule Castle B1 Room 7", (606, 668), (3688, 3776), true),
    Area("Hyrule Castle B2 Room", (64, 176), (3632, 3664), true),
    Area("Hyrule Castle B3 Room", (64, 424), (4144, 4288), true)
  ]

  /** Both ends of both ranges belong to the area, and nothing just outside them does. */
  lemma ContainsIsInclusive(a: Area, x: int, y: int)
    requires a.xRange.0 <= a.xRange.1 && a.yRange.0 <= a.yRange.1
    ensures a.Contains(a.xRange.0, a.yRange.0) && a.Contains(a.xRange.1, a.yRange.1)
    ensures a.Contains(x, y) <==> a.xRange.0 <= x <= a.xRange.1 && a.yRange.0 <= y <= a.yRange.1
    ensures !a.Contains(a.xRange.0 - 1, y) && !a.Contains(a.xRange.1 + 1, y)
    ensures !a.Contains(x, a.yRange.0 - 1) && !a.Contains(x, a.yRange.1 + 1)
  {
  }

  /** Every entry of the table has min <= max on both axes. */
  lemma AreasWellFormed()
    ensures forall i :: 0 <= i < |Areas| ==>
      Areas[i].xRange.0 <= Areas[i].xRange.1 && Areas[i].yRange.0 <= Areas[i].yRange.1
  {
  }

  /** The index of the first area of `areas` that contains (x, y), scanning in order. */
  function FirstContaining(areas: seq<Area>, x: int, y: int): (r: Option<nat>)
    ensures r.Some? ==> r.value < |areas|
  {
    if |areas| == 0 then None
    else if areas[0].Contains(x, y) then Some(0)
    else match FirstContaining(areas[1..], x, y)
      case None => None
      case Some(i) => Some(i + 1)
  }

  /** The scan finds the first containing area, and finds nothing exactly when none contains the point. */
  lemma {:induction false} FirstContainingSpec(areas: seq<Area>, x: int, y: int)
    ensures var r := FirstContaining(areas, x, y);
      && (r.Some? ==> r.value < |areas| && areas[r.value].Contains(x, y))
      && (r.Some? ==> forall j :: 0 <= j < r.value ==> !areas[j].Contains(x, y))
      && (r.None? <==> forall j :: 0 <= j < |areas| ==> !areas[j].Contains(x, y))
  {
    if |areas| > 0 && !areas[0].Contains(x, y) {
      FirstContainingSpec(areas[1..], x, y);
      var r := FirstContaining(areas, x, y);
      forall j | 0 < j < |areas| ensures areas[j] == areas[1..][j - 1] {
      }
    }
  }

  /** get_area_by_coords: the first area in table order containing the point, if any. */
  function GetAreaByCoords(x: int, y: int): Option<Area> {
    match FirstContaining(Areas, x, y)
    case None => None
    case Some(i) => Some(Areas[i])
  }

  /** get_area_name: the matching area's name, else "Unknown Area (x, y)". */
  function GetAreaName(x: int, y: int): string {
    match GetAreaByCoords(x, y)
    case Some(a) => a.name
    case None => "Unknown Area (" + IntToString(x) + ", " + IntToString(y) + ")"
  }

  /** is_area_rewardable: the matching area's flag, false when no area matches. */
  predicate IsAreaRewardable(x: int, y: int) {
    match GetAreaByCoords(x, y)
    case Some(a) => a.rewardable
    case None => false
  }

  /** The lookup returns the first table entry containing the point, and None iff there is none. */
  lemma GetAreaByCoordsFirstMatch(x: int, y: int)
    ensures GetAreaByCoords(x, y).None? <==> forall a :: a in Areas ==> !a.Contains(x, y)
    ensures GetAreaByCoords(x, y).Some? ==>
      exists i :: 0 <= i < |Areas| && Areas[i] == GetAreaByCoords(x, y).value
        && Areas[i].Contains(x, y) && forall j :: 0 <= j < i ==> !Areas[j].Contains(x, y)
  {
    FirstContainingSpec(Areas, x, y);
    match FirstContaining(Areas, x, y)
    case None =>
      forall a | a in Areas ensures !a.Contains(x, y) {
        var k :| 0 <= k < |Areas| && Areas[k] == a;
      }
    case Some(i) =>
      assert Areas[i] == GetAreaByCoords(x, y).value;
  }

  /** On the edge y = 2272 shared by the bridge and the grounds, table order gives the bridge. */
  lemma BridgeShadowsGrounds(x: int)
    requires 1624 <= x <= 2480
    ensures Areas[3].Contains(x, 2272)
    ensures GetAreaName(x, 2272) == "Hyrule Castle Bridge"
  {
    assert !Areas[0].Contains(x, 2272) && !Areas[1].Contains(x, 2272) && Areas[2].Contains(x, 2272);
    var tail := Areas[1..][1..];
    assert tail[0] == Areas[2];
    assert FirstContaining(tail, x, 2272) == Some(0);
    assert FirstContaining(Areas[1..], x, 2272) == Some(1);
    assert FirstContaining(Areas, x, 2272) == Some(2);
  }

  lemma TableNamesAreKnown()
    ensures forall i :: 0 <= i < |Areas| ==> !StartsWith(Areas[i].name, "Unknown Area")
  {
    forall i | 0 <= i < |Areas|
      ensures !StartsWith(Areas[i].name, "Unknown Area")
    {
      assert Areas[i].name[0] == 'L' || Areas[i].name[0] == 'H';
    }
  }

  lemma UnknownPrefix(x: int, y: int)
    ensures StartsWith("Unknown Area (" + IntToString(x) + ", " + IntToString(y) + ")", "Unknown Area")
  {
    var s := "Unknown Area (" + IntToString(x) + ", " + IntToString(y) + ")";
    assert s[..12] == "Unknown Area";
  }

  /** A name starts with "Unknown Area" exactly when no area contains the point. */
  lemma UnknownNameIffNoArea(x: int, y: int)
    ensures StartsWith(GetAreaName(x, y), "Unknown Area") <==> GetAreaByCoords(x, y).None?
  {
    var r := GetAreaByCoords(x, y);
    if r.None? {
      UnknownPrefix(x, y);
    } else {
      var i := FirstContaining(Areas, x, y).value;
      TableNamesAreKnown();
      assert GetAreaName(x, y) == Areas[i].name;
    }
  }

  /** Rewardable is false off the table and the matched area's flag on it; it implies a known name. */
  lemma RewardableFollowsMatch(x: int, y: int)
    ensures GetAreaByCoords(x, y).None? ==> !IsAreaRewardable(x, y)
    ensures GetAreaByCoords(x, y).Some? ==> IsAreaRewardable(x, y) == GetAreaByCoords(x, y).value.rewardable
    ensures IsAreaRewardable(x, y) ==> !StartsWith(GetAreaName(x, y), "Unknown Area")
  {
    UnknownNameIffNoArea(x, y);
  }

  lemma OnlyFirstIsLinksHouse()
    ensures forall j :: 1 <= j < |Areas| ==> Areas[j].name != "Link's House"
  {
    forall j | 1 <= j < |Areas| ensures Areas[j].name != "Link's House" {
      assert Areas[j].name[0] == 'H' || Areas[j].name[7] == 'L';
    }
  }

  /** A point whose name is Link's House is never rewardable. */
  lemma LinksHouseNeverRewardable(x: int, y: int)
    ensures GetAreaName(x, y) == "Link's House" ==> !IsAreaRewardable(x, y)
  {
    var r := FirstContaining(Areas, x, y);
    if r.Some? {
      OnlyFirstIsLinksHouse();
      assert GetAreaName(x, y) == Areas[r.value].name;
    } else {
      UnknownPrefix(x, y);
      assert GetAreaName(x, y)[0] == 'U';
    }
  }
}
