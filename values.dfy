/**
 * JavaScript values as the locator sees them: numbers (with NaN and the
 * infinities), the JSON values that can stand in a GeoJSON coordinate array,
 * `Array.prototype.flat`, `String(...)`, and the numeric-token conversion
 * `toNum` of app.js. The floating-point routines (`Number`, `parseFloat`,
 * `String(number)`, the LV95 polynomial and the haversine formula) are not
 * interpreted: they are the fields of a `Numerics` value that every operation
 * using them takes as a parameter.
 */
module Values {
  import opened Text

  /** A JavaScript number. */
  datatype Num = Finite(r: real) | NaN | PosInf | NegInf

  /** `x > 1000` on a JavaScript number (false for NaN and for -Infinity). */
  predicate Above1000(x: Num) {
    (x.Finite? && x.r > 1000.0) || x.PosInf?
  }

  /** The JSON values that can occur in `geometry.coordinates`. */
  datatype JsVal = JNull | JBool(b: bool) | JNum(n: Num) | JStr(s: string) | JArr(items: seq<JsVal>) | JObj

  /** The `{lat, lon}` record `lv95ToWgs` returns. */
  datatype LatLon = LatLon(lat: Num, lon: Num)

  /** The floating-point routines of the JavaScript runtime and of app.js, left uninterpreted. */
  datatype Numerics = Numerics(
    number: string -> Num,                          // Number(text)
    parseFloat: string -> Num,                      // parseFloat(text)
    numberToString: Num -> string,                  // String(number)
    lv95ToWgs: (Num, Num) -> LatLon,                // lv95ToWgs(E, N)
    haversineKm: (real, real, real, real) -> real)  // haversineKm(lat1, lon1, lat2, lon2) on finite degrees

  // ------------------------------------------------------------- flat(depth)

  /**
   * `xs.flat(depth)`: arrays nested at most `depth` levels below `xs` are
   * spliced in place. `flat(0)` changes nothing, and an array that starts with
   * a non-array value still starts with it.
   */
  function Flat(xs: seq<JsVal>, depth: nat): (r: seq<JsVal>)
    ensures depth == 0 ==> r == xs
    ensures |xs| > 0 && !xs[0].JArr? ==> |r| > 0 && r[0] == xs[0]
    decreases xs
  {
    if xs == [] then []
    else (if xs[0].JArr? && depth > 0 then Flat(xs[0].items, depth - 1) else [xs[0]]) + Flat(xs[1..], depth)
  }

  /** Every non-array value of `xs`, however deep, in document order: `xs.flat(Infinity)`. */
  function Leaves(xs: seq<JsVal>): seq<JsVal>
    decreases xs
  {
    if xs == [] then []
    else (if xs[0].JArr? then Leaves(xs[0].items) else [xs[0]]) + Leaves(xs[1..])
  }

  /** How many array levels lie below `xs`: 0 for a GeoJSON position, 3 for a MultiPolygon's coordinates. */
  function Depth(xs: seq<JsVal>): nat
    decreases xs
  {
    if xs == [] then 0
    else
      var here := if xs[0].JArr? then 1 + Depth(xs[0].items) else 0;
      var rest := Depth(xs[1..]);
      if here < rest then rest else here
  }

  lemma {:induction false} LeavesAppend(a: seq<JsVal>, b: seq<JsVal>)
    ensures Leaves(a + b) == Leaves(a) + Leaves(b)
  {
    if a == [] {
      assert a + b == b;
    } else {
      assert (a + b)[0] == a[0] && (a + b)[1..] == a[1..] + b;
      LeavesAppend(a[1..], b);
    }
  }

  /** `flat` never loses, duplicates or reorders a leaf, whatever the depth. */
  lemma {:induction false} FlatKeepsLeaves(xs: seq<JsVal>, depth: nat)
    ensures Leaves(Flat(xs, depth)) == Leaves(xs)
    decreases xs
  {
    if xs != [] {
      var head := if xs[0].JArr? && depth > 0 then Flat(xs[0].items, depth - 1) else [xs[0]];
      LeavesAppend(head, Flat(xs[1..], depth));
      FlatKeepsLeaves(xs[1..], depth);
      if xs[0].JArr? && depth > 0 {
        FlatKeepsLeaves(xs[0].items, depth - 1);
      } else {
        assert Leaves([xs[0]]) == (if xs[0].JArr? then Leaves(xs[0].items) else [xs[0]]) + Leaves([]);
      }
    }
  }

  /** When `xs` is nested no deeper than `depth`, `xs.flat(depth)` is exactly its leaves. */
  lemma {:induction false} FlatComplete(xs: seq<JsVal>, depth: nat)
    requires Depth(xs) <= depth
    ensures Flat(xs, depth) == Leaves(xs)
    decreases xs
  {
    if xs != [] {
      FlatComplete(xs[1..], depth);
      if xs[0].JArr? {
        FlatComplete(xs[0].items, depth - 1);
      }
    }
  }

  // ------------------------------------------------------------ String(value)

  /**
   * `String(v)`: a string is itself; an array is its elements joined by commas,
   * so it holds at least one comma fewer than it has elements.
   */
  function ToStr(v: JsVal, env: Numerics): (r: string)
    ensures v.JStr? ==> r == v.s
    ensures v.JArr? && |v.items| > 0 ==> Count(',', r) >= |v.items| - 1
    decreases v, 1
  {
    match v
    case JNull => "null"
    case JBool(b) => if b then "true" else "false"
    case JNum(n) => env.numberToString(n)
    case JStr(s) => s
    case JArr(items) => ArrayToStr(items, env)
    case JObj => "[object Object]"
  }

  /**
   * `String(array)`, i.e. `array.join(",")`, where `null` elements become "":
   * one comma between neighbours, and a one-string array reads as that string.
   */
  function ArrayToStr(items: seq<JsVal>, env: Numerics): (r: string)
    ensures |items| > 0 ==> Count(',', r) >= |items| - 1
    ensures |items| == 1 && items[0].JStr? ==> r == items[0].s
    decreases items, 0
  {
    if items == [] then ""
    else
      var first := if items[0].JNull? then "" else ToStr(items[0], env);
      if |items| == 1 then first
      else
        var rest := ArrayToStr(items[1..], env);
        CountAppend(',', first + ",", rest);
        CountAppend(',', first, ",");
        assert Count(',', ",") == 1;
        first + "," + rest
  }

  // ------------------------------------------------------------------ toNum

  /**
   * The text `toNum` hands to `Number`: every white-space character deleted, then
   * the first comma (only the first) made a decimal point.
   */
  function NumberText(s: string): (r: string)
    ensures NoSpace(r)
  {
    ReplaceFirst(StripSpaces(s), ',', '.')
  }

  /**
   * `toNum(v)`: a number is returned unchanged; anything else is stringified
   * (`null` as "") and cleaned by `NumberText` before `Number` parses it, so a
   * string that has neither white space nor a comma reaches `Number` as it is.
   */
  function ToNum(v: JsVal, env: Numerics): (r: Num)
    ensures v.JNum? ==> r == v.n
    ensures v.JNull? ==> r == env.number("")
    ensures v.JStr? && NoSpace(v.s) && ',' !in v.s ==> r == env.number(v.s)
  {
    if v.JNum? then v.n
    else
      var text := if v.JNull? then "" else ToStr(v, env);
      NumberTextClean(text);
      env.number(NumberText(text))
  }

  /** Text without white space and without a comma is left as it is by the cleaning. */
  lemma NumberTextClean(s: string)
    ensures NoSpace(s) && ',' !in s ==> NumberText(s) == s
  {
    if NoSpace(s) {
      StripSpacesFixes(s);
    }
  }

  /**
   * The cleaned text has no white space; of k >= 1 commas it keeps k - 1 and
   * gains one point; every other character occurs exactly as often as in the
   * input less its white space, and a number is passed through as it is.
   */
  lemma NumberTextCounts(s: string, env: Numerics)
    ensures NoSpace(NumberText(s))
    ensures Count(',', NumberText(s)) == if Count(',', s) >= 1 then Count(',', s) - 1 else 0
    ensures Count('.', NumberText(s)) == Count('.', s) + (if Count(',', s) >= 1 then 1 else 0)
    ensures forall c :: c != ',' && c != '.' ==> Count(c, NumberText(s)) == if IsSpace(c) then 0 else Count(c, s)
    ensures forall n :: ToNum(JNum(n), env) == n
  {
    var t := StripSpaces(s);
    StripSpacesCount(',', s);
    StripSpacesCount('.', s);
    CountZeroIffAbsent(',', t);
    ReplaceFirstCount(t, ',', '.');
    forall c | c != ',' && c != '.'
      ensures Count(c, NumberText(s)) == if IsSpace(c) then 0 else Count(c, s)
    {
      StripSpacesCount(c, s);
      ReplaceFirstOther(t, c);
    }
  }

  /** Replacing the first comma by a point leaves every other character's count alone. */
  lemma ReplaceFirstOther(t: string, c: char)
    requires c != ',' && c != '.'
    ensures Count(c, ReplaceFirst(t, ',', '.')) == Count(c, t)
  {
    var i := IndexOf(t, ',');
    if i < |t| {
      assert t == t[..i] + [t[i]] + t[i + 1..];
      assert ReplaceFirst(t, ',', '.') == t[..i] + ['.'] + t[i + 1..];
      CountAppend(c, t[..i] + [t[i]], t[i + 1..]);
      CountAppend(c, t[..i], [t[i]]);
      CountAppend(c, t[..i] + ['.'], t[i + 1..]);
      CountAppend(c, t[..i], ['.']);
    }
  }

  /** The characters that are kept stay in their order: cleaning is position-wise on the stripped text. */
  lemma NumberTextInOrder(s: string)
    ensures |NumberText(s)| == |StripSpaces(s)|
    ensures forall k :: 0 <= k < |NumberText(s)| && k != IndexOf(StripSpaces(s), ',') ==>
                          NumberText(s)[k] == StripSpaces(s)[k]
    ensures ',' in StripSpaces(s) ==> NumberText(s)[IndexOf(StripSpaces(s), ',')] == '.'
  {
  }
}
