/** Worked examples: concrete inputs taken through the model. */
module Examples {
  import opened Wrappers
  import opened Text
  import opened Values
  import opened Stations
  import opened Locator

  /** `toNum("1 234,5")` hands `Number` the text "1234.5": the space dropped, the decimal comma made a point. */
  lemma NumberTextExample()
    ensures NumberText("1 234,5") == "1234.5"
  {
    ExampleStripped();
  }

  lemma ExampleStripped()
    ensures StripSpaces("1 234,5") == "1234,5"
  {
  }

  /**
   * The same for any digit groups: `toNum` of "a b c,d" (spaces as thousands
   * separators, a decimal comma) hands `Number` the text "abc.d"; with a = "2",
   * b = "600", c = "100" and d = "5" this is "2 600 100,5" becoming "2600100.5".
   */
  lemma GroupedDecimal(a: string, b: string, c: string, d: string)
    requires Digits(a) && Digits(b) && Digits(c) && Digits(d)
    ensures NumberText(a + " " + b + " " + c + "," + d) == a + b + c + "." + d
  {
    GroupedStripped(a, b, c, d);
    DigitsNoComma(a + b + c);
    FirstOccurrence(a + b + c, ',', d);
    assert ((a + b + c) + [','] + d)[|a + b + c| := '.'] == (a + b + c) + ['.'] + d;
    assert a + b + c + "." + d == (a + b + c) + ['.'] + d;
  }

  lemma GroupedStripped(a: string, b: string, c: string, d: string)
    requires Digits(a) && Digits(b) && Digits(c) && Digits(d)
    ensures StripSpaces(a + " " + b + " " + c + "," + d) == (a + b + c) + [','] + d
  {
    SpaceDropped(a, b);
    SpaceDropped(a + " " + b, c);
    CommaKept(a + " " + b + " " + c, d);
    DigitsKept(a);
    DigitsKept(b);
    DigitsKept(c);
    DigitsKept(d);
  }

  lemma SpaceDropped(x: string, y: string)
    ensures StripSpaces(x + " " + y) == StripSpaces(x) + StripSpaces(y)
  {
    StripSpacesAppend(x + " ", y);
    StripSpacesAppend(x, " ");
    SingleChar(' ');
  }

  lemma CommaKept(x: string, c: string)
    ensures StripSpaces(x + "," + c) == StripSpaces(x) + [','] + StripSpaces(c)
  {
    StripSpacesAppend(x + ",", c);
    StripSpacesAppend(x, ",");
    SingleChar(',');
  }

  lemma DigitsKept(s: string)
    requires Digits(s)
    ensures StripSpaces(s) == s
  {
    assert NoSpace(s);
    StripSpacesFixes(s);
  }

  lemma DigitsNoComma(s: string)
    requires Digits(s)
    ensures ',' !in s
  {
  }

  /** Text made of decimal digits only. */
  predicate Digits(s: string) {
    forall k :: 0 <= k < |s| ==> '0' <= s[k] <= '9'
  }

  /** The first `c` of `t + [c] + u` is at `|t|` when `t` has none. */
  lemma FirstOccurrence(t: string, c: char, u: string)
    requires c !in t
    ensures IndexOf(t + [c] + u, c) == |t|
  {
    var s := t + [c] + u;
    assert s[|t|] == c;
    assert s[..|t|] == t;
    assert forall k :: 0 <= k < |t| ==> s[k] == t[k] && t[k] != c;
  }

  lemma SingleChar(c: char)
    ensures StripSpaces([c]) == if IsSpace(c) then [] else [c]
  {
    assert [c][1..] == [];
  }

  /** A code typed with surrounding blanks is trimmed and accepted. */
  lemma ZipGateAcceptsPadded()
    ensures ZipGate(Some(" 8400 ")) == Some("8400")
  {
    PaddedLeading();
    PaddedTrailing();
    assert " 8400 "[1..] == "8400 ";
    assert "8400 "[..4] == "8400";
    assert FourDigits("8400");
  }

  lemma PaddedLeading()
    ensures Leading(" 8400 ") == 1
  {
    var s := " 8400 ";
    assert IsSpace(s[0]) && s[1..] == "8400 ";
    assert !IsSpace('8');
  }

  lemma PaddedTrailing()
    ensures Trailing("8400 ") == 1
  {
    var s := "8400 ";
    assert IsSpace(s[4]) && s[..4] == "8400";
    assert !IsSpace('0');
  }

  /** Three or five digits, letters and a missing value are turned away. */
  lemma ZipGateRejects()
    ensures ZipGate(Some("123")) == None
    ensures ZipGate(Some("12345")) == None
    ensures ZipGate(Some("abcd")) == None
    ensures ZipGate(None) == None
  {
    RejectsShort();
    RejectsLong();
    RejectsLetters();
    assert Trim("") == "";
  }

  lemma RejectsShort()
    ensures ZipGate(Some("123")) == None
  {
    assert !IsSpace('1') && !IsSpace('3');
    TrimFixes("123");
  }

  lemma RejectsLong()
    ensures ZipGate(Some("12345")) == None
  {
    assert !IsSpace('1') && !IsSpace('5');
    TrimFixes("12345");
  }

  lemma RejectsLetters()
    ensures ZipGate(Some("abcd")) == None
  {
    assert !IsSpace('a') && !IsSpace('d');
    TrimFixes("abcd");
    assert !('0' <= "abcd"[0] <= '9');
  }

  /**
   * A point geometry `[x, y]` of two numbers, neither above 1000, without
   * properties: longitude first, the default title, no address.
   */
  lemma ExtractWgsPoint(x: real, y: real, env: Numerics)
    requires x <= 1000.0 && y <= 1000.0
    ensures Extract(Feature(map[], Some([JNum(Finite(x)), JNum(Finite(y))])), env)
            == Station(Some(Finite(y)), Some(Finite(x)), "Ladestation", "")
  {
    PointLeaves(JNum(Finite(x)), JNum(Finite(y)));
    EmptyProperties();
  }

  /**
   * A point geometry whose easting or northing exceeds 1000 is LV95 and is
   * converted; the conversion's result is kept when it is finite, as the
   * polynomial's is for Swiss coordinates.
   */
  lemma ExtractLv95Point(e: real, n: real, env: Numerics)
    requires e > 1000.0 || n > 1000.0
    requires env.lv95ToWgs(Finite(e), Finite(n)).lat.Finite? && env.lv95ToWgs(Finite(e), Finite(n)).lon.Finite?
    ensures var ll := env.lv95ToWgs(Finite(e), Finite(n));
            Extract(Feature(map[], Some([JNum(Finite(e)), JNum(Finite(n))])), env)
            == Station(Some(ll.lat), Some(ll.lon), "Ladestation", "")
  {
    PointLeaves(JNum(Finite(e)), JNum(Finite(n)));
    EmptyProperties();
  }

  /** A flat pair is its own `flat(3)`. */
  lemma PointLeaves(a: JsVal, b: JsVal)
    requires !a.JArr? && !b.JArr?
    ensures Flat([a, b], 3) == [a, b]
  {
    var c := [a, b];
    assert c[1..] == [b] && [b][1..] == [];
    assert Flat([b], 3) == [b] + Flat([], 3);
  }

  lemma EmptyProperties()
    ensures Title(map[]) == "Ladestation" && Address(map[]) == ""
  {
    TitleChoice(map[]);
    AddressEmptyWithoutFields(map[]);
  }
}
