/**
 * `extractStationInfo` of app.js: a GeoJSON feature of the Swiss federal
 * charging-station dataset normalised into a station with WGS84 coordinates, a
 * title and a one-line address. The dataset names its fields inconsistently, so
 * every field is read through an ordered table of aliases.
 */
module Stations {
  import opened Wrappers
  import opened Text
  import opened Values

  /** A feature's `properties` bag: a missing key is `undefined`. */
  type Props = map<string, string>

  /**
   * A feature of the dataset: its properties (`{}` when absent) and, when
   * `geometry.coordinates` is an array, that array.
   */
  datatype Feature = Feature(properties: Props, coordinates: Option<seq<JsVal>>)

  /** What `extractStationInfo` returns; `None` is a coordinate left `undefined`. */
  datatype Station = Station(lat: Option<Num>, lon: Option<Num>, title: string, address: string)

  const NameAliases: seq<string> := ["name", "title", "titel"]
  const EastingAliases: seq<string> := ["E", "E_EPSG_2056", "x_lv95", "x"]
  const NorthingAliases: seq<string> := ["N", "N_EPSG_2056", "y_lv95", "y"]
  const StreetAliases: seq<string> := ["address", "adresse", "strasse"]
  const HouseNumberAliases: seq<string> := ["hausnr", "hausnummer"]
  const ZipAliases: seq<string> := ["plz", "PLZ"]
  const CityAliases: seq<string> := ["ort", "ORT"]
  const DefaultTitle: string := "Ladestation"

  /** A property that is present and not the empty string, i.e. truthy. */
  predicate Truthy(p: Props, key: string) {
    key in p && p[key] != []
  }

  /** The position of the first truthy alias in `keys`, or `|keys|` when none is. */
  function FirstTruthyIndex(p: Props, keys: seq<string>): (i: nat)
    ensures i <= |keys|
    ensures i < |keys| ==> Truthy(p, keys[i])
    ensures forall j :: 0 <= j < i ==> !Truthy(p, keys[j])
  {
    if keys == [] then 0
    else if Truthy(p, keys[0]) then 0
    else 1 + FirstTruthyIndex(p, keys[1..])
  }

  /**
   * `p[keys[0]] || p[keys[1]] || ...` as a string: the value of the first
   * truthy alias, and "" when there is none (the chain then yields `undefined`
   * or "", which `toNum` and the address treat alike).
   */
  function FirstTruthy(p: Props, keys: seq<string>): string {
    var i := FirstTruthyIndex(p, keys);
    if i < |keys| then p[keys[i]] else ""
  }

  /** The value chosen is that of the first alias carrying a non-empty value; "" exactly when none does. */
  lemma FirstTruthyChoice(p: Props, keys: seq<string>)
    ensures FirstTruthy(p, keys) == [] <==> forall k :: 0 <= k < |keys| ==> !Truthy(p, keys[k])
    ensures forall k :: 0 <= k < |keys| && Truthy(p, keys[k]) && (forall j :: 0 <= j < k ==> !Truthy(p, keys[j])) ==>
                          FirstTruthy(p, keys) == p[keys[k]]
  {
    var i := FirstTruthyIndex(p, keys);
    forall k | 0 <= k < |keys| && Truthy(p, keys[k]) && (forall j :: 0 <= j < k ==> !Truthy(p, keys[j]))
      ensures k == i
    {
    }
  }

  // ------------------------------------------------------------------ title

  /** `p.name || p.title || p.titel || "Ladestation"`: never empty, and either a property's value or the placeholder. */
  function Title(p: Props): (r: string)
    ensures r != []
    ensures r == DefaultTitle || r in p.Values
  {
    var i := FirstTruthyIndex(p, NameAliases);
    var t := FirstTruthy(p, NameAliases);
    assert i < |NameAliases| ==> t == p[NameAliases[i]] && t in p.Values;
    if t != [] then t else DefaultTitle
  }

  /** The title is never empty: the first truthy name alias, otherwise the placeholder. */
  lemma TitleChoice(p: Props)
    ensures Title(p) != []
    ensures Truthy(p, "name") ==> Title(p) == p["name"]
    ensures !Truthy(p, "name") && Truthy(p, "title") ==> Title(p) == p["title"]
    ensures !Truthy(p, "name") && !Truthy(p, "title") && Truthy(p, "titel") ==> Title(p) == p["titel"]
    ensures !Truthy(p, "name") && !Truthy(p, "title") && !Truthy(p, "titel") ==> Title(p) == DefaultTitle
  {
    FirstTruthyChoice(p, NameAliases);
    assert NameAliases[0] == "name" && NameAliases[1] == "title" && NameAliases[2] == "titel";
  }

  // ---------------------------------------------------------------- address

  /** No alias in `keys` carries a non-empty value. */
  predicate NoneTruthy(p: Props, keys: seq<string>) {
    forall k :: 0 <= k < |keys| ==> !Truthy(p, keys[k])
  }

  /**
   * `[a, b].filter(Boolean).join(" ")`: empty exactly when both parts are, and
   * starting with `a`.
   */
  function Line(a: string, b: string): (r: string)
    ensures r == [] <==> a == [] && b == []
    ensures a <= r
  {
    assert [a, b][1..] == [b] && [b][1..] == [];
    var parts := NonEmpty([a, b]);
    assert parts == if a == [] then NonEmpty([b]) else [a] + NonEmpty([b]);
    Join(parts, " ")
  }

  /** The street line: street, then house number; empty exactly when neither is given. */
  function StreetLine(p: Props): (r: string)
    ensures r == [] <==> NoneTruthy(p, StreetAliases) && NoneTruthy(p, HouseNumberAliases)
    ensures FirstTruthy(p, StreetAliases) <= r
  {
    FirstTruthyChoice(p, StreetAliases);
    FirstTruthyChoice(p, HouseNumberAliases);
    Line(FirstTruthy(p, StreetAliases), FirstTruthy(p, HouseNumberAliases))
  }

  /** The locality line: postal code, then locality; empty exactly when neither is given. */
  function LocalityLine(p: Props): (r: string)
    ensures r == [] <==> NoneTruthy(p, ZipAliases) && NoneTruthy(p, CityAliases)
    ensures FirstTruthy(p, ZipAliases) <= r
  {
    FirstTruthyChoice(p, ZipAliases);
    FirstTruthyChoice(p, CityAliases);
    Line(FirstTruthy(p, ZipAliases), FirstTruthy(p, CityAliases))
  }

  /**
   * The two lines, those that are not blank, joined by ", ": empty exactly when
   * both lines are blank, and starting with the street line when it is shown.
   */
  function Address(p: Props): (r: string)
    ensures r == [] <==> AllSpace(StreetLine(p)) && AllSpace(LocalityLine(p))
    ensures !AllSpace(StreetLine(p)) ==> StreetLine(p) <= r
  {
    var s, l := StreetLine(p), LocalityLine(p);
    assert [s, l][1..] == [l] && [l][1..] == [];
    Join(NonBlank([s, l]), ", ")
  }

  /** A line is its two parts separated by one space when both are present, else the one present, else "". */
  lemma LineShape(a: string, b: string)
    ensures Line(a, b) == if a != [] && b != [] then a + " " + b else a + b
  {
    assert [a, b][1..] == [b];
    if a == [] {
      assert NonEmpty([a, b]) == NonEmpty([b]);
      assert a + b == b;
    } else if b == [] {
      assert NonEmpty([a, b]) == [a];
      assert a + b == a;
    } else {
      assert NonEmpty([b]) == [b];
      assert NonEmpty([a, b]) == [a] + [b] == [a, b];
      assert Join([a, b], " ") == a + " " + Join([b], " ");
    }
  }

  /**
   * The address: both lines with one ", " between them when both hold
   * something other than white space, only the one that does otherwise, and ""
   * when neither does. The street line always comes first.
   */
  lemma AddressShape(p: Props)
    ensures var s, l := StreetLine(p), LocalityLine(p);
      Address(p) == if !AllSpace(s) && !AllSpace(l) then s + ", " + l
                    else if !AllSpace(s) then s
                    else if !AllSpace(l) then l
                    else ""
  {
    var s, l := StreetLine(p), LocalityLine(p);
    assert [s, l][1..] == [l];
    if AllSpace(s) {
      assert NonBlank([s, l]) == NonBlank([l]);
    } else if AllSpace(l) {
      assert NonBlank([s, l]) == [s];
    } else {
      assert NonBlank([l]) == [l];
      assert NonBlank([s, l]) == [s] + [l] == [s, l];
      assert Join([s, l], ", ") == s + ", " + Join([l], ", ");
    }
  }

  /** Without any street, house number, postal code or locality, the address is "", not a dangling separator. */
  lemma AddressEmptyWithoutFields(p: Props)
    requires forall k :: k in StreetAliases + HouseNumberAliases + ZipAliases + CityAliases ==> !Truthy(p, k)
    ensures Address(p) == ""
  {
    FirstTruthyChoice(p, StreetAliases);
    FirstTruthyChoice(p, HouseNumberAliases);
    FirstTruthyChoice(p, ZipAliases);
    FirstTruthyChoice(p, CityAliases);
    assert forall k :: 0 <= k < |StreetAliases| ==> StreetAliases[k] in StreetAliases + HouseNumberAliases + ZipAliases + CityAliases;
    assert forall k :: 0 <= k < |HouseNumberAliases| ==> HouseNumberAliases[k] in StreetAliases + HouseNumberAliases + ZipAliases + CityAliases;
    assert forall k :: 0 <= k < |ZipAliases| ==> ZipAliases[k] in StreetAliases + HouseNumberAliases + ZipAliases + CityAliases;
    assert forall k :: 0 <= k < |CityAliases| ==> CityAliases[k] in StreetAliases + HouseNumberAliases + ZipAliases + CityAliases;
    LineShape("", "");
    AddressShape(p);
  }

  /**
   * When no field value contains a comma, the address contains exactly one
   * comma if both lines are shown and none otherwise, so it never starts or ends
   * with the separator and never holds two of them.
   */
  lemma AddressSeparators(p: Props)
    requires forall k :: k in p ==> ',' !in p[k]
    ensures Count(',', Address(p)) == if !AllSpace(StreetLine(p)) && !AllSpace(LocalityLine(p)) then 1 else 0
    ensures Address(p) != [] ==> Address(p)[0] != ',' && Address(p)[|Address(p)| - 1] != ','
  {
    var s, l := StreetLine(p), LocalityLine(p);
    LineNoComma(p, StreetAliases, HouseNumberAliases);
    LineNoComma(p, ZipAliases, CityAliases);
    CountZeroIffAbsent(',', s);
    CountZeroIffAbsent(',', l);
    AddressShape(p);
    if !AllSpace(s) && !AllSpace(l) {
      CountAppend(',', s + ", ", l);
      CountAppend(',', s, ", ");
      assert (s + ", " + l)[0] == s[0];
      assert (s + ", " + l)[|s + ", " + l| - 1] == l[|l| - 1];
    } else if !AllSpace(s) {
      assert s[0] in s && s[|s| - 1] in s;
    } else if !AllSpace(l) {
      assert l[0] in l && l[|l| - 1] in l;
    }
  }

  lemma LineNoComma(p: Props, first: seq<string>, second: seq<string>)
    requires forall k :: k in p ==> ',' !in p[k]
    ensures ',' !in Line(FirstTruthy(p, first), FirstTruthy(p, second))
  {
    var a, b := FirstTruthy(p, first), FirstTruthy(p, second);
    LineShape(a, b);
    assert ',' !in a && ',' !in b;
    if a != [] && b != [] {
      assert forall c :: c in a + " " + b ==> c in a || c == ' ' || c in b;
    } else {
      assert forall c :: c in a + b ==> c in a || c in b;
    }
  }

  // ------------------------------------------------------------ coordinates

  /** The number read off a flattened coordinate entry or a property value. */
  function PropNum(p: Props, aliases: seq<string>, env: Numerics): Num {
    ToNum(JStr(FirstTruthy(p, aliases)), env)
  }

  /**
   * Coordinates from the geometry: the array flattened three levels deep; when
   * it has at least two entries `x`, `y`, they are LV95 easting/northing to be
   * converted if either exceeds 1000, else WGS84 longitude/latitude.
   */
  function FromGeometry(coordinates: Option<seq<JsVal>>, env: Numerics): (r: Option<LatLon>)
    ensures r.Some? <==> coordinates.Some? && |Flat(coordinates.value, 3)| >= 2
    ensures r.Some? ==> var c := Flat(coordinates.value, 3);
                        var x, y := ToNum(c[0], env), ToNum(c[1], env);
                        r.value == env.lv95ToWgs(x, y) || r.value == LatLon(y, x)
  {
    if coordinates.None? then None
    else
      var c := Flat(coordinates.value, 3);
      if |c| < 2 then None
      else
        var x, y := ToNum(c[0], env), ToNum(c[1], env);
        if Above1000(x) || Above1000(y) then Some(env.lv95ToWgs(x, y)) else Some(LatLon(y, x))
  }

  /** Coordinates from the aliased E/N properties: only when both are finite and one exceeds 1000. */
  function FromProperties(p: Props, env: Numerics): (r: Option<LatLon>)
    ensures var e, n := PropNum(p, EastingAliases, env), PropNum(p, NorthingAliases, env);
            && (r.Some? <==> e.Finite? && n.Finite? && (e.r > 1000.0 || n.r > 1000.0))
            && (r.Some? ==> r.value == env.lv95ToWgs(e, n))
  {
    var e, n := PropNum(p, EastingAliases, env), PropNum(p, NorthingAliases, env);
    if e.Finite? && n.Finite? && (Above1000(e) || Above1000(n)) then Some(env.lv95ToWgs(e, n)) else None
  }

  /** `Number.isFinite` of a coordinate that may be `undefined`. */
  predicate IsFinite(x: Option<Num>) {
    x.Some? && x.value.Finite?
  }

  /** `let lon, lat` as assigned by the geometry branch. */
  function GeometryLat(g: Option<LatLon>): Option<Num> {
    if g.Some? then Some(g.value.lat) else None
  }

  function GeometryLon(g: Option<LatLon>): Option<Num> {
    if g.Some? then Some(g.value.lon) else None
  }

  /**
   * `extractStationInfo(f)`: latitude and longitude are both set or both left
   * `undefined`, the title is never empty, and the address is empty exactly
   * when both address lines are blank.
   */
  function Extract(f: Feature, env: Numerics): (r: Station)
    ensures r.lat.Some? <==> r.lon.Some?
    ensures r.title != []
    ensures r.address == [] <==> AllSpace(StreetLine(f.properties)) && AllSpace(LocalityLine(f.properties))
  {
    var p := f.properties;
    var g := FromGeometry(f.coordinates, env);
    var lat, lon := GeometryLat(g), GeometryLon(g);
    var fallback := if IsFinite(lon) && IsFinite(lat) then None else FromProperties(p, env);
    if fallback.Some? then Station(Some(fallback.value.lat), Some(fallback.value.lon), Title(p), Address(p))
    else Station(lat, lon, Title(p), Address(p))
  }

  /**
   * For a GeoJSON geometry (nested at most three array levels: Point to
   * MultiPolygon) with at least two coordinates, the first two leaves are used,
   * converted from LV95 exactly when one of them exceeds 1000 and otherwise
   * taken as longitude and latitude.
   */
  lemma GeometryChoice(coordinates: seq<JsVal>, env: Numerics)
    requires Depth(coordinates) <= 3 && |Leaves(coordinates)| >= 2
    ensures var x, y := ToNum(Leaves(coordinates)[0], env), ToNum(Leaves(coordinates)[1], env);
      FromGeometry(Some(coordinates), env) ==
        if Above1000(x) || Above1000(y) then Some(env.lv95ToWgs(x, y)) else Some(LatLon(y, x))
  {
    FlatComplete(coordinates, 3);
  }

  /**
   * Where the coordinates come from: the geometry whenever it yields a finite
   * pair; otherwise the E/N properties when both are finite and one exceeds
   * 1000; otherwise whatever the geometry left, `undefined` when it had no
   * usable array. The title and address never depend on the coordinates.
   */
  lemma ExtractCoordinates(f: Feature, env: Numerics)
    ensures var s, g := Extract(f, env), FromGeometry(f.coordinates, env);
      var fromGeometry := IsFinite(GeometryLat(g)) && IsFinite(GeometryLon(g));
      var e, n := PropNum(f.properties, EastingAliases, env), PropNum(f.properties, NorthingAliases, env);
      && (fromGeometry ==> s.lat == GeometryLat(g) && s.lon == GeometryLon(g))
      && (!fromGeometry && e.Finite? && n.Finite? && (Above1000(e) || Above1000(n)) ==>
            s.lat == Some(env.lv95ToWgs(e, n).lat) && s.lon == Some(env.lv95ToWgs(e, n).lon))
      && (!fromGeometry && !(e.Finite? && n.Finite? && (Above1000(e) || Above1000(n))) ==>
            s.lat == GeometryLat(g) && s.lon == GeometryLon(g))
      && (g.None? && FromProperties(f.properties, env).None? ==> s.lat.None? && s.lon.None?)
      && s.title == Title(f.properties) && s.address == Address(f.properties)
  {
  }

  // ---------------------------------------------------------------- filter

  /** The filter of the selector: finite coordinates and a title that is not blank, so not empty. */
  predicate Listed(s: Station)
    ensures Listed(s) ==> s.lat.Some? && s.lon.Some? && s.title != []
  {
    IsFinite(s.lat) && IsFinite(s.lon) && !AllSpace(s.title)
  }

  /** The filter's title test is the source's `s.title?.trim().length > 0`. */
  lemma ListedTrimmed(s: Station)
    ensures Listed(s) <==> IsFinite(s.lat) && IsFinite(s.lon) && Trim(s.title) != []
  {
    TrimInfix(s.title);
  }

  /** `feats.map(extractStationInfo)`: one station per feature, in dataset order. */
  function Extracted(feats: seq<Feature>, env: Numerics): (r: seq<Station>)
    ensures |r| == |feats|
    ensures forall i :: 0 <= i < |feats| ==> r[i] == Extract(feats[i], env)
  {
    seq(|feats|, i requires 0 <= i < |feats| => Extract(feats[i], env))
  }

  /** `stations.filter(...)` with the selector's test, in order. */
  function Keep(stations: seq<Station>): (r: seq<Station>)
    ensures |r| <= |stations|
    ensures forall k :: 0 <= k < |r| ==> Listed(r[k])
    ensures forall s :: s in r <==> s in stations && Listed(s)
  {
    if stations == [] then []
    else if Listed(stations[0]) then [stations[0]] + Keep(stations[1..])
    else Keep(stations[1..])
  }

  /** The filter works element by element, so it keeps the order and the multiplicity of what it keeps. */
  lemma {:induction false} KeepAppend(a: seq<Station>, b: seq<Station>)
    ensures Keep(a + b) == Keep(a) + Keep(b)
  {
    if a == [] {
      assert a + b == b;
    } else {
      assert (a + b)[0] == a[0] && (a + b)[1..] == a[1..] + b;
      KeepAppend(a[1..], b);
    }
  }

  /** `map` works feature by feature. */
  lemma ExtractedAppend(a: seq<Feature>, b: seq<Feature>, env: Numerics)
    ensures Extracted(a + b, env) == Extracted(a, env) + Extracted(b, env)
  {
    var x, y, z := Extracted(a + b, env), Extracted(a, env), Extracted(b, env);
    forall i | 0 <= i < |x| ensures x[i] == (y + z)[i] {
      if i < |a| {
        assert (a + b)[i] == a[i];
      } else {
        assert (a + b)[i] == b[i - |a|];
      }
    }
  }

  /**
   * The listed stations of two runs of features are those of the first run
   * followed by those of the second: dataset order is kept.
   */
  lemma ListedStationsAppend(a: seq<Feature>, b: seq<Feature>, env: Numerics)
    ensures ListedStations(a + b, env) == ListedStations(a, env) + ListedStations(b, env)
  {
    ExtractedAppend(a, b, env);
    KeepAppend(Extracted(a, env), Extracted(b, env));
  }

  /** `feats.map(extractStationInfo).filter(...)`, in dataset order. */
  function ListedStations(feats: seq<Feature>, env: Numerics): (r: seq<Station>)
    ensures |r| <= |feats|
    ensures forall k :: 0 <= k < |r| ==> Listed(r[k])
  {
    Keep(Extracted(feats, env))
  }

  /**
   * The listed stations are exactly the listed extractions of the features
   * (none is invented, none is dropped), so the list is empty exactly when no
   * feature yields a listed station.
   */
  lemma ListedStationsMembers(feats: seq<Feature>, env: Numerics)
    ensures forall s :: s in ListedStations(feats, env) <==>
                          Listed(s) && exists i :: 0 <= i < |feats| && s == Extract(feats[i], env)
    ensures ListedStations(feats, env) == [] <==> forall i :: 0 <= i < |feats| ==> !Listed(Extract(feats[i], env))
  {
    var xs := Extracted(feats, env);
    var r := ListedStations(feats, env);
    forall s ensures s in r <==> Listed(s) && exists i :: 0 <= i < |feats| && s == Extract(feats[i], env) {
      if s in xs {
        var i :| 0 <= i < |xs| && xs[i] == s;
      }
      if exists i :: 0 <= i < |feats| && s == Extract(feats[i], env) {
        var i :| 0 <= i < |feats| && s == Extract(feats[i], env);
        assert xs[i] == s;
      }
    }
    if r == [] {
      forall i | 0 <= i < |feats| ensures !Listed(Extract(feats[i], env)) {
        assert xs[i] in xs;
      }
    } else {
      assert r[0] in r;
    }
  }
}
