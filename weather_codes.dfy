/** The two lookup tables from WMO weather codes to what the dashboard shows:
    a label (`weatherCodeToText`) and an icon (`weatherCodeToIconSrc`). */
module WeatherCodes {

  /** The codes both tables list; every other integer falls to the default branch. */
  const KnownCodes: set<int> :=
    {0, 1, 2, 3, 45, 48, 51, 53, 55, 61, 63, 65, 66, 67, 71, 73, 75, 77, 80, 81, 82, 85, 86, 95, 96, 99}

  /** The icons as distinct images. The source returns an inline JPEG data URI;
      several switch groups return the very same URI, so one constructor stands
      for each distinct image, named after the first code that shows it. */
  datatype Icon =
    | Icon0        // clear
    | Icon1        // 1, 2
    | Icon3        // 3
    | Icon45       // 45, 48
    | Icon51       // 51 and 61 share this image
    | Icon53       // 53, 55, 63, 65, 80, 81, 82 share this image
    | Icon66       // 66, 67
    | Icon71       // 71
    | Icon73       // 73, 75, 77, 85, 86 share this image
    | Icon95       // 95
    | Icon96       // 96, 99
    | IconDefault  // every other code

  /** `weatherCodeToText(code)`: the known codes get a label, every other code "Unknown". */
  function ConditionText(code: int): (text: string)
    ensures text == "Unknown" <==> code !in KnownCodes
  {
    match code
    case 0 => "Clear"
    case 1 | 2 => "Partly Cloudy"
    case 3 => "Overcast"
    case 45 | 48 => "Fog"
    case 51 => "Light Drizzle"
    case 53 | 55 => "Drizzle"
    case 61 => "Light Rain"
    case 63 | 65 => "Rain"
    case 66 | 67 => "Freezing Rain"
    case 71 => "Light Snow"
    case 73 | 75 => "Snow"
    case 77 => "Snow Grains"
    case 80 | 81 | 82 => "Rain Showers"
    case 85 | 86 => "Snow Showers"
    case 95 | 96 | 99 => "Thunderstorm"
    case _ => "Unknown"
  }

  /** `weatherCodeToIconSrc(code)`: the known codes get an image, every other code the default one. */
  function ConditionIcon(code: int): (icon: Icon)
    ensures icon == IconDefault <==> code !in KnownCodes
  {
    match code
    case 0 => Icon0
    case 1 | 2 => Icon1
    case 3 => Icon3
    case 45 | 48 => Icon45
    case 51 | 61 => Icon51
    case 53 | 55 | 63 | 65 | 80 | 81 | 82 => Icon53
    case 66 | 67 => Icon66
    case 71 => Icon71
    case 73 | 75 | 77 | 85 | 86 => Icon73
    case 95 => Icon95
    case 96 | 99 => Icon96
    case _ => IconDefault
  }

  /** The groups of cases of `weatherCodeToText` that fall through to one `return`, with its label. */
  const TextGroups: seq<(set<int>, string)> :=
    [({0}, "Clear"), ({1, 2}, "Partly Cloudy"), ({3}, "Overcast"), ({45, 48}, "Fog"),
     ({51}, "Light Drizzle"), ({53, 55}, "Drizzle"), ({61}, "Light Rain"), ({63, 65}, "Rain"),
     ({66, 67}, "Freezing Rain"), ({71}, "Light Snow"), ({73, 75}, "Snow"), ({77}, "Snow Grains"),
     ({80, 81, 82}, "Rain Showers"), ({85, 86}, "Snow Showers"), ({95, 96, 99}, "Thunderstorm")]

  /** The groups of cases of `weatherCodeToIconSrc` that return one image. */
  const IconGroups: seq<(set<int>, Icon)> :=
    [({0}, Icon0), ({1, 2}, Icon1), ({3}, Icon3), ({45, 48}, Icon45), ({51, 61}, Icon51),
     ({53, 55, 63, 65, 80, 81, 82}, Icon53), ({66, 67}, Icon66), ({71}, Icon71),
     ({73, 75, 77, 85, 86}, Icon73), ({95}, Icon95), ({96, 99}, Icon96)]

  /** Every code of a group gets the group's label. */
  lemma ConditionTextByGroup(code: int)
    ensures forall k :: 0 <= k < |TextGroups| && code in TextGroups[k].0 ==> ConditionText(code) == TextGroups[k].1
  {
    forall k | 0 <= k < |TextGroups| && code in TextGroups[k].0
      ensures ConditionText(code) == TextGroups[k].1
    {
      assert k in {0, 1, 2, 3, 4, 5, 6, 7, 8, 9, 10, 11, 12, 13, 14};
    }
  }

  /** The label groups cover exactly the known codes. */
  lemma TextGroupsCoverKnownCodes(code: int)
    ensures code in KnownCodes <==> exists k :: 0 <= k < |TextGroups| && code in TextGroups[k].0
  {
    if code in KnownCodes {
      var k := match code
        case 0 => 0 case 1 | 2 => 1 case 3 => 2 case 45 | 48 => 3 case 51 => 4 case 53 | 55 => 5
        case 61 => 6 case 63 | 65 => 7 case 66 | 67 => 8 case 71 => 9 case 73 | 75 => 10
        case 77 => 11 case 80 | 81 | 82 => 12 case 85 | 86 => 13 case _ => 14;
      assert code in TextGroups[k].0;
    }
    forall k | 0 <= k < |TextGroups| && code in TextGroups[k].0
      ensures code in KnownCodes
    {
      assert k in {0, 1, 2, 3, 4, 5, 6, 7, 8, 9, 10, 11, 12, 13, 14};
    }
  }

  /** Every code of a group gets the group's image. */
  lemma ConditionIconByGroup(code: int)
    ensures forall k :: 0 <= k < |IconGroups| && code in IconGroups[k].0 ==> ConditionIcon(code) == IconGroups[k].1
  {
    forall k | 0 <= k < |IconGroups| && code in IconGroups[k].0
      ensures ConditionIcon(code) == IconGroups[k].1
    {
      assert k in {0, 1, 2, 3, 4, 5, 6, 7, 8, 9, 10};
    }
  }

  /** The image groups cover exactly the known codes. */
  lemma IconGroupsCoverKnownCodes(code: int)
    ensures code in KnownCodes <==> exists k :: 0 <= k < |IconGroups| && code in IconGroups[k].0
  {
    if code in KnownCodes {
      var k := match code
        case 0 => 0 case 1 | 2 => 1 case 3 => 2 case 45 | 48 => 3 case 51 | 61 => 4
        case 53 | 55 | 63 | 65 | 80 | 81 | 82 => 5 case 66 | 67 => 6 case 71 => 7
        case 73 | 75 | 77 | 85 | 86 => 8 case 95 => 9 case _ => 10;
      assert code in IconGroups[k].0;
    }
    forall k | 0 <= k < |IconGroups| && code in IconGroups[k].0
      ensures code in KnownCodes
    {
      assert k in {0, 1, 2, 3, 4, 5, 6, 7, 8, 9, 10};
    }
  }

  /** Distinct groups have distinct labels, so two codes share a label only within a group. */
  lemma TextGroupsDistinct()
    ensures forall i, j :: 0 <= i < j < |TextGroups| ==> TextGroups[i].1 != TextGroups[j].1
  {
  }

  /** Distinct image groups have distinct images. */
  lemma IconGroupsDistinct()
    ensures forall i, j :: 0 <= i < j < |IconGroups| ==> IconGroups[i].1 != IconGroups[j].1
  {
  }

  /** Both tables know the same codes: a label is "Unknown" exactly when the icon is the default. */
  lemma TablesAgreeOnKnownCodes(code: int)
    ensures ConditionText(code) == "Unknown" <==> ConditionIcon(code) == IconDefault
  {
  }
}
