/**
 * Line resolution (`get_gpio`): a command-line token names a GPIO either by
 * a symbolic name of the selected board generation's table or by number.
 */
module Resolver {
  import opened Wrappers
  import opened Numerals

  /** One row of a board's name table. */
  datatype MapEntry = MapEntry(n: nat, name: string)

  /** The names of the first board generation. */
  const Gen1Map: seq<MapEntry> := [
    MapEntry(14, "USER"),
    MapEntry(89, "SLOT_0_TWARN"),
    MapEntry(90, "SLOT_1_TWARN"),
    MapEntry(91, "SLOT_0_TSHUT"),
    MapEntry(92, "SLOT_1_TSHUT"),
    MapEntry(93, "SLOT_0_SALRT"),
    MapEntry(94, "SLOT_1_SALRT")
  ]

  /** The names of the second board generation. */
  const Gen2Map: seq<MapEntry> := [
    MapEntry(31, "USER"),
    MapEntry(39, "SLOT_0_TWARN"),
    MapEntry(37, "SLOT_1_TWARN"),
    MapEntry(33, "SLOT_0_TSHUT"),
    MapEntry(38, "SLOT_1_TSHUT"),
    MapEntry(35, "SLOT_0_SALRT"),
    MapEntry(34, "SLOT_1_SALRT")
  ]

  /** The index of the first entry named token, if any. */
  function FindName(table: seq<MapEntry>, token: string): (r: Option<nat>)
    ensures r.Some? ==> r.value < |table| && table[r.value].name == token
    ensures r.Some? ==> forall j :: 0 <= j < r.value ==> table[j].name != token
    ensures r.None? ==> forall j :: 0 <= j < |table| ==> table[j].name != token
  {
    if table == [] then None
    else if table[0].name == token then Some(0)
    else match FindName(table[1..], token)
      case None => None
      case Some(k) => Some(k + 1)
  }

  /** What `get_gpio` returns for a token: the number of the first table
      entry with that name; otherwise the token read by strtoul in base 0,
      provided strtoul consumed all of it; None where the program exits. */
  function Resolve(table: seq<MapEntry>, token: string): Option<nat>
  {
    match FindName(table, token)
    case Some(k) => Some(table[k].n)
    case None =>
      var c := Strtoul(token);
      if c.end == |token| then Some(c.value) else None
  }

  /** `get_gpio`: the table scan, then the number parse. */
  method GetGpio(table: seq<MapEntry>, token: string) returns (r: Option<nat>)
    ensures r == Resolve(table, token)
  {
    var i := 0;
    while i < |table|
      invariant i <= |table|
      invariant forall j :: 0 <= j < i ==> table[j].name != token
    {
      if table[i].name == token {
        return Some(table[i].n);
      }
      i := i + 1;
    }
    var c := Strtoul(token);
    if c.end != |token| {
      return None;
    }
    return Some(c.value);
  }

  /** A name wins over any number: the first entry carrying it decides. */
  lemma ResolveName(table: seq<MapEntry>, token: string, k: nat)
    requires k < |table| && table[k].name == token
    requires forall j :: 0 <= j < k ==> table[j].name != token
    ensures Resolve(table, token) == Some(table[k].n)
  {
  }

  /** A token that is no name resolves to the number strtoul reads, or
      fails when strtoul leaves characters unread. */
  lemma ResolveNumber(table: seq<MapEntry>, token: string)
    requires forall j :: 0 <= j < |table| ==> table[j].name != token
    ensures Resolve(table, token).Some? <==> Strtoul(token).end == |token|
    ensures Resolve(table, token).Some? ==> Resolve(table, token).value == Strtoul(token).value
  {
  }

  /** Every name of either table starts with a letter, never a digit. */
  lemma NamesStartWithLetters(table: seq<MapEntry>)
    requires table == Gen1Map || table == Gen2Map
    ensures forall j :: 0 <= j < |table| ==> table[j].name != [] && DigitValue(table[j].name[0]) >= 10
  {
  }

  /** No name of either generation's table starts with a digit, so every
      number written in decimal, in hexadecimal after "0x", or in octal
      after "0" resolves to itself. */
  lemma ResolveNumerals(table: seq<MapEntry>, m: nat)
    requires table == Gen1Map || table == Gen2Map
    requires m <= ULongMax
    ensures Resolve(table, Decimal(m)) == Some(m)
    ensures Resolve(table, "0x" + Digits(m, 16)) == Some(m)
    ensures Resolve(table, "0" + Digits(m, 8)) == Some(m)
  {
    DigitsShape(m, 10);
    DigitsShape(m, 16);
    DigitsShape(m, 8);
    NamesStartWithLetters(table);
    var dec, hex, oct := Decimal(m), "0x" + Digits(m, 16), "0" + Digits(m, 8);
    assert DigitValue(dec[0]) < 10 && DigitValue(hex[0]) < 10 && DigitValue(oct[0]) < 10;
    DecimalRoundTrip(m);
    HexRoundTrip(m);
    OctalRoundTrip(m);
    ResolveNumber(table, dec);
    ResolveNumber(table, hex);
    ResolveNumber(table, oct);
  }

  /** "FOO" is neither a name nor a number in either table: `get_gpio`
      exits. */
  lemma UnknownTokenFails(table: seq<MapEntry>, s: string)
    requires table == Gen1Map || table == Gen2Map
    requires s == "FOO"
    ensures Resolve(table, s) == None
  {
    FooIsNoNumber(s);
    assert forall j :: 0 <= j < |table| ==> table[j].name != s;
  }

  lemma FooIsNoNumber(s: string)
    requires s == "FOO"
    ensures Strtoul(s).end == 0
  {
    assert LeadingSpaces(s) == 0;
    assert !HexPrefix(s, 0) && Radix(s, 0) == 10;
    assert s[0..] == s;
    assert DigitRun(s, 10) == 0;
  }

  /** Base 0 reads a leading "0" as octal: "010" is GPIO 8. */
  lemma LeadingZeroIsOctal(table: seq<MapEntry>, s: string)
    requires table == Gen1Map || table == Gen2Map
    requires s == "010"
    ensures Resolve(table, s) == Some(8)
  {
    ResolveNumerals(table, 8);
    EightInOctal();
    assert "0" + Digits(8, 8) == s;
  }

  lemma EightInOctal()
    ensures Digits(8, 8) == "10"
  {
    assert DigitChar(1) == '1' && DigitChar(0) == '0';
    assert Digits(8, 8) == Digits(1, 8) + [DigitChar(0)];
  }

  /** "08" is rejected: strtoul reads the "0" in octal and stops at the '8'. */
  lemma OctalStopsAtEight()
    ensures Resolve(Gen1Map, "08") == None
  {
    var s := "08";
    assert LeadingSpaces(s) == 0;
    assert !HexPrefix(s, 0) && Radix(s, 0) == 8;
    assert s[0..] == s;
    assert DigitRun(s[1..], 8) == 0;
    assert DigitRun(s, 8) == 1;
    assert Strtoul(s).end == 1;
    NamesStartWithLetters(Gen1Map);
    assert DigitValue(s[0]) == 0;
    ResolveNumber(Gen1Map, s);
  }

  /** The empty token is GPIO 0: strtoul converts nothing and leaves `end`
      at the terminating NUL, which `get_gpio` does not reject. */
  lemma EmptyTokenIsZero()
    ensures Resolve(Gen1Map, "") == Some(0)
    ensures Resolve(Gen2Map, "") == Some(0)
  {
    assert Strtoul("") == Conversion(0, 0);
  }
}
