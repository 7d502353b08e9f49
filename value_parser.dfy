/** The ValueParser contract: a table from converted (trimmed and
    case-folded) names to the sequence of string values added under them,
    with typed getters that parse those strings. */
module ValueParser {
  import opened Wrappers
  import opened JavaLang

  /** The url.case.folding setting. */
  datatype Folding = NoFolding | LowerFolding | UpperFolding

  /** Which stored value getString returns for a name holding several. */
  datatype Pick = FirstValue | LastValue

  /** The integral Java types the numeric getters produce. */
  datatype NumberKind = IntKind | LongKind | ByteKind {
    function Min(): int {
      match this
      case IntKind => INT_MIN
      case LongKind => LONG_MIN
      case ByteKind => BYTE_MIN
    }

    function Max(): int {
      match this
      case IntKind => INT_MAX
      case LongKind => LONG_MAX
      case ByteKind => BYTE_MAX
    }
  }

  /** convert: the name trimmed, then folded as configured. */
  function Convert(folding: Folding, name: string): string
  {
    var t := Trim(name);
    match folding
    case NoFolding => t
    case LowerFolding => ToLower(t)
    case UpperFolding => ToUpper(t)
  }

  /** A converted name converts to itself, so stored names stay put. */
  lemma ConvertIdempotent(folding: Folding, name: string)
    ensures Convert(folding, Convert(folding, name)) == Convert(folding, name)
  {
    var t := Trim(name);
    TrimIdempotent(name);
    FoldedTrimIsClean(name);
    ToLowerIdempotent(t);
    ToUpperIdempotent(t);
  }

  /** With lower folding, names that differ only in letter case convert to
      the same key. */
  lemma ConvertIgnoresCase(a: string, b: string)
    requires EqualsIgnoreCase(a, b)
    ensures Convert(LowerFolding, a) == Convert(LowerFolding, b)
  {
    TrimToLower(a);
    TrimToLower(b);
  }

  /** Integer.valueOf, Long.valueOf or Byte.valueOf on one stored value:
      None for a NumberFormatException. */
  function ParseNumber(s: string, kind: NumberKind): (r: Option<int>)
    ensures r.Some? ==> kind.Min() <= r.value <= kind.Max()
  {
    ParseInRange(s, 10, kind.Min(), kind.Max())
  }

  /** A number written with Integer.toString reads back as itself. */
  lemma ParseNumberOfToString(n: int, kind: NumberKind)
    requires kind.Min() <= n <= kind.Max()
    ensures ParseNumber(IntToString(n), kind) == Some(n)
  {
    ParseIntToString(n, kind.Min(), kind.Max());
  }

  /** A value holding a letter, such as "a", is unparsable. */
  lemma ParseNumberRejectsLetter(s: string, kind: NumberKind, i: nat)
    requires i < |s| && ('a' <= s[i] <= 'z' || 'A' <= s[i] <= 'Z')
    ensures ParseNumber(s, kind) == None
  {
    ParseSignedRejectsNonDigit(s, 10, i);
  }

  const TRUE_VALUES: seq<string> := ["true", "on", "1", "yes"]
  const FALSE_VALUES: seq<string> := ["false", "off", "0", "no"]

  /** The boolean a stored value stands for, compared without regard to
      case; None for anything else. */
  function ParseBoolean(s: string): Option<bool>
  {
    var lower := ToLower(s);
    if lower in TRUE_VALUES then Some(true)
    else if lower in FALSE_VALUES then Some(false)
    else None
  }

  /** Only the case of the letters is ignored: strings equal up to case
      read the same, and a value reads as true exactly when it is one of
      true, on, 1, yes in some case, as false exactly when it is one of
      false, off, 0, no. */
  lemma ParseBooleanMeaning(s: string, t: string)
    requires EqualsIgnoreCase(s, t)
    ensures ParseBoolean(s) == ParseBoolean(t)
    ensures ParseBoolean(s) == Some(true) <==> exists i :: 0 <= i < |TRUE_VALUES| && EqualsIgnoreCase(s, TRUE_VALUES[i])
    ensures ParseBoolean(s) == Some(false) <==> exists i :: 0 <= i < |FALSE_VALUES| && EqualsIgnoreCase(s, FALSE_VALUES[i])
  {
    forall i | 0 <= i < |TRUE_VALUES| ensures ToLower(TRUE_VALUES[i]) == TRUE_VALUES[i] { }
    forall i | 0 <= i < |FALSE_VALUES| ensures ToLower(FALSE_VALUES[i]) == FALSE_VALUES[i] { }
  }

  /** The values the boolean getters are shown to accept, in mixed case. */
  lemma ParseBooleanExamples()
    ensures ParseBoolean("trUe") == Some(true) && ParseBoolean("yEs") == Some(true)
    ensures ParseBoolean("1") == Some(true) && ParseBoolean("oN") == Some(true)
    ensures ParseBoolean("falSe") == Some(false) && ParseBoolean("nO") == Some(false)
    ensures ParseBoolean("0") == Some(false) && ParseBoolean("oFf") == Some(false)
    ensures ParseBoolean("a") == None
  {
    assert ToLower("trUe") == "true";
    assert ToLower("yEs") == "yes";
    assert ToLower("1") == "1";
    assert ToLower("oN") == "on";
    assert ToLower("falSe") == "false";
    assert ToLower("nO") == "no";
    assert ToLower("0") == "0";
    assert ToLower("oFf") == "off";
    assert ToLower("a") == "a";
  }

  /** The values parsed one by one, each in its own position. */
  function ParseEach(values: seq<string>, kind: NumberKind): (r: seq<Option<int>>)
    ensures |r| == |values|
    ensures forall i :: 0 <= i < |values| ==> r[i] == ParseNumber(values[i], kind)
  {
    if |values| == 0 then [] else [ParseNumber(values[0], kind)] + ParseEach(values[1..], kind)
  }

  /** The primitive array: null (unparsable) elements become 0 in place. */
  function OrZero(xs: seq<Option<int>>): (r: seq<int>)
    ensures |r| == |xs|
    ensures forall i :: 0 <= i < |xs| ==> r[i] == xs[i].GetOr(0)
  {
    if |xs| == 0 then [] else [xs[0].GetOr(0)] + OrZero(xs[1..])
  }

  lemma ParseEachSnoc(values: seq<string>, v: string, kind: NumberKind)
    ensures ParseEach(values + [v], kind) == ParseEach(values, kind) + [ParseNumber(v, kind)]
  {
    var r := ParseEach(values + [v], kind);
    assert forall i :: 0 <= i < |values| ==> (values + [v])[i] == values[i];
  }

  lemma OrZeroSnoc(xs: seq<Option<int>>, x: Option<int>)
    ensures OrZero(xs + [x]) == OrZero(xs) + [x.GetOr(0)]
  {
    assert forall i :: 0 <= i < |xs| ==> (xs + [x])[i] == xs[i];
  }

  /** The values stored under key k in table m, none when absent. */
  function ValuesIn(m: map<string, seq<string>>, k: string): seq<string>
  {
    if k in m then m[k] else []
  }

  /** The table after appending vs to key k's values; a key with nothing
      added is not created. */
  function Appended(m: map<string, seq<string>>, k: string, vs: seq<string>): (r: map<string, seq<string>>)
    ensures ValuesIn(r, k) == ValuesIn(m, k) + vs
    ensures forall j :: j != k ==> (j in r <==> j in m) && ValuesIn(r, j) == ValuesIn(m, j)
  {
    if |vs| == 0 then m else m[k := ValuesIn(m, k) + vs]
  }

  /** Appending twice to one key is appending both runs at once. */
  lemma AppendedTwice(m: map<string, seq<string>>, k: string, vs: seq<string>, v: string)
    ensures Appended(Appended(m, k, vs), k, [v]) == Appended(m, k, vs + [v])
  {
    assert ValuesIn(m, k) + vs + [v] == ValuesIn(m, k) + (vs + [v]);
  }

  class ValueParser {
    /** The parameters: converted name to the values added under it. */
    var table: map<string, seq<string>>
    var characterEncoding: string
    const folding: Folding
    const pick: Pick

    constructor(folding: Folding, pick: Pick, characterEncoding: string)
      ensures table == map[]
      ensures this.folding == folding && this.pick == pick && this.characterEncoding == characterEncoding
    {
      table := map[];
      this.folding := folding;
      this.pick := pick;
      this.characterEncoding := characterEncoding;
    }

    /** containsKey: whether the converted name holds values. */
    predicate ContainsKey(name: string)
      reads this
    {
      Convert(folding, name) in table
    }

    /** getStrings: every value stored under the name, in the order added;
        null when absent. */
    function GetStrings(name: string): (r: Option<seq<string>>)
      reads this
      ensures r.Some? <==> ContainsKey(name)
    {
      var k := Convert(folding, name);
      if k in table then Some(table[k]) else None
    }

    /** getString: one of the stored values; null when absent. */
    function GetString(name: string): (r: Option<string>)
      reads this
      ensures r.Some? ==> GetStrings(name).Some? && r.value in GetStrings(name).value
      ensures r.Some? <==> ContainsKey(name) && |GetStrings(name).value| > 0
      ensures ContainsKey(name) && |GetStrings(name).value| == 1 ==> r == Some(GetStrings(name).value[0])
      ensures r.Some? && pick == FirstValue ==> r.value == GetStrings(name).value[0]
      ensures r.Some? && pick == LastValue ==> r.value == GetStrings(name).value[|GetStrings(name).value| - 1]
    {
      match GetStrings(name)
      case None => None
      case Some(vs) =>
        if |vs| == 0 then None
        else Some(match pick case FirstValue => vs[0] case LastValue => vs[|vs| - 1])
    }

    /** getString(name, defaultValue). */
    function GetStringOr(name: string, defaultValue: string): (r: string)
      reads this
      ensures !ContainsKey(name) ==> r == defaultValue
      ensures r == defaultValue || r in GetStrings(name).value
      ensures GetString(name).Some? ==> r == GetString(name).value
      ensures GetString(name).None? ==> r == defaultValue
    {
      GetString(name).GetOr(defaultValue)
    }

    /** getIntObject, getLongObject, getByteObject: the value parsed;
        null when absent or unparsable. */
    function GetNumberObject(name: string, kind: NumberKind): (r: Option<int>)
      reads this
      ensures !ContainsKey(name) ==> r.None?
      ensures r.Some? ==> kind.Min() <= r.value <= kind.Max()
      ensures r.Some? <==> GetString(name).Some? && ParseNumber(GetString(name).value, kind).Some?
      ensures GetString(name).Some? ==> r == ParseNumber(GetString(name).value, kind)
      ensures ContainsKey(name) && |GetStrings(name).value| == 1 ==> r == ParseNumber(GetStrings(name).value[0], kind)
    {
      match GetString(name)
      case None => None
      case Some(s) => ParseNumber(s, kind)
    }

    /** getIntObject(name, defaultValue) and its long and byte forms: the
        default when absent or unparsable. */
    function GetNumberObjectOr(name: string, kind: NumberKind, defaultValue: Option<int>): (r: Option<int>)
      reads this
      ensures !ContainsKey(name) ==> r == defaultValue
      ensures GetNumberObject(name, kind).Some? ==> r == GetNumberObject(name, kind)
      ensures GetNumberObject(name, kind).None? ==> r == defaultValue
    {
      if GetNumberObject(name, kind).Some? then GetNumberObject(name, kind) else defaultValue
    }

    /** getInt, getLong, getByte with a default (0 when none is given):
        the default when absent or unparsable. */
    function GetNumber(name: string, kind: NumberKind, defaultValue: int): (r: int)
      reads this
      ensures !ContainsKey(name) ==> r == defaultValue
      ensures GetNumberObject(name, kind).Some? ==> r == GetNumberObject(name, kind).value
      ensures GetNumberObject(name, kind).None? ==> r == defaultValue
    {
      GetNumberObject(name, kind).GetOr(defaultValue)
    }

    /** getIntObjects, getLongObjects: each value parsed in its place,
        null where unparsable; null when the name is absent. */
    function GetNumberObjects(name: string, kind: NumberKind): (r: Option<seq<Option<int>>>)
      reads this
      ensures r.Some? <==> ContainsKey(name)
      ensures r.Some? ==> |r.value| == |GetStrings(name).value|
    {
      match GetStrings(name)
      case None => None
      case Some(vs) => Some(ParseEach(vs, kind))
    }

    /** getInts, getLongs: each value parsed in its place, 0 where
        unparsable; null when the name is absent. */
    function GetNumbers(name: string, kind: NumberKind): (r: Option<seq<int>>)
      reads this
      ensures r.Some? <==> ContainsKey(name)
      ensures r.Some? ==> |r.value| == |GetStrings(name).value|
    {
      match GetNumberObjects(name, kind)
      case None => None
      case Some(xs) => Some(OrZero(xs))
    }

    /** The array getters keep positions: element i is the i-th stored
        value parsed, or 0 / null when that value alone is unparsable. */
    lemma NumberArraysByPosition(name: string, kind: NumberKind)
      requires ContainsKey(name)
      ensures var vs := GetStrings(name).value;
        forall i :: 0 <= i < |vs| ==>
          && GetNumberObjects(name, kind).value[i] == ParseNumber(vs[i], kind)
          && GetNumbers(name, kind).value[i] == (if ParseNumber(vs[i], kind).Some? then ParseNumber(vs[i], kind).value else 0)
    {
    }

    /** getBooleanObject: the boolean the value stands for; null when
        absent or unparsable. */
    function GetBooleanObject(name: string): (r: Option<bool>)
      reads this
      ensures !ContainsKey(name) ==> r.None?
      ensures r.Some? <==> GetString(name).Some? && ParseBoolean(GetString(name).value).Some?
      ensures GetString(name).Some? ==> r == ParseBoolean(GetString(name).value)
      ensures ContainsKey(name) && |GetStrings(name).value| == 1 ==> r == ParseBoolean(GetStrings(name).value[0])
    {
      match GetString(name)
      case None => None
      case Some(s) => ParseBoolean(s)
    }

    /** getBooleanObject(name, defaultValue): the default when absent or
        unparsable. */
    function GetBooleanObjectOr(name: string, defaultValue: Option<bool>): (r: Option<bool>)
      reads this
      ensures !ContainsKey(name) ==> r == defaultValue
      ensures GetBooleanObject(name).Some? ==> r == GetBooleanObject(name)
      ensures GetBooleanObject(name).None? ==> r == defaultValue
    {
      if GetBooleanObject(name).Some? then GetBooleanObject(name) else defaultValue
    }

    /** getBoolean with a default (false when none is given). */
    function GetBoolean(name: string, defaultValue: bool): (r: bool)
      reads this
      ensures !ContainsKey(name) ==> r == defaultValue
      ensures GetBooleanObject(name).Some? ==> r == GetBooleanObject(name).value
      ensures GetBooleanObject(name).None? ==> r == defaultValue
    {
      GetBooleanObject(name).GetOr(defaultValue)
    }

    /** A name holding the single value written for n reads back as n from
        every int, long or byte getter, whatever the defaults. */
    lemma NumberReadsBack(name: string, kind: NumberKind, n: int, defaultValue: int, defaultObject: Option<int>)
      requires GetStrings(name) == Some([IntToString(n)])
      requires kind.Min() <= n <= kind.Max()
      ensures GetNumberObject(name, kind) == Some(n)
      ensures GetNumberObjectOr(name, kind, defaultObject) == Some(n)
      ensures GetNumber(name, kind, defaultValue) == n
    {
      ParseNumberOfToString(n, kind);
    }

    /** A name holding the single value s reads back as the boolean s
        stands for, and as the default only when s stands for none. */
    lemma BooleanReadsBack(name: string, s: string, defaultValue: bool)
      requires GetStrings(name) == Some([s])
      ensures GetBooleanObject(name) == ParseBoolean(s)
      ensures GetBoolean(name, defaultValue) == if ParseBoolean(s).Some? then ParseBoolean(s).value else defaultValue
      ensures GetBoolean(name, false) <==> exists i :: 0 <= i < |TRUE_VALUES| && EqualsIgnoreCase(s, TRUE_VALUES[i])
    {
      ParseBooleanMeaning(s, s);
    }

    /** The boolean scenario: "trUe" stored alone under a name reads as
        true and "nO" as false, whatever the default. */
    lemma BooleanTestValues(name: string, defaultValue: bool)
      ensures GetStrings(name) == Some(["trUe"]) ==> GetBoolean(name, defaultValue)
      ensures GetStrings(name) == Some(["nO"]) ==> !GetBoolean(name, defaultValue)
    {
      ParseBooleanExamples();
    }

    /** A name holding the single value s reads back as s from both string
        getters. */
    lemma StringReadsBack(name: string, s: string, defaultValue: string)
      requires GetStrings(name) == Some([s])
      ensures GetString(name) == Some(s)
      ensures GetStringOr(name, defaultValue) == s
    {
    }

    /** With lower folding, containsKey ignores letter case. */
    lemma ContainsKeyIgnoresCase(a: string, b: string)
      requires folding == LowerFolding && EqualsIgnoreCase(a, b)
      ensures ContainsKey(a) == ContainsKey(b)
    {
      ConvertIgnoresCase(a, b);
    }

    /** clear: no name is left. */
    method Clear()
      modifies this
      ensures table == map[]
      ensures forall name :: !ContainsKey(name)
      ensures characterEncoding == old(characterEncoding)
    {
      table := map[];
    }

    method SetCharacterEncoding(s: string)
      modifies this
      ensures characterEncoding == s && table == old(table)
    {
      characterEncoding := s;
    }

    /** add(name, value): appends value to the values of the converted
        name, leaving every other name alone. */
    method Add(name: string, value: string)
      modifies this
      ensures table == Appended(old(table), Convert(folding, name), [value])
      ensures GetStrings(name) == Some(old(GetStrings(name)).GetOr([]) + [value])
      ensures !old(ContainsKey(name)) ==> GetStrings(name) == Some([value])
      ensures pick == LastValue ==> GetString(name) == Some(value)
      ensures pick == FirstValue && old(GetString(name)).Some? ==> GetString(name) == old(GetString(name))
      ensures characterEncoding == old(characterEncoding)
    {
      var k := Convert(folding, name);
      var before := ValuesIn(table, k);
      table := table[k := before + [value]];
      assert k !in old(table) ==> before + [value] == [value];
    }

    /** append(name, value): adds value after those already stored. */
    method Append(name: string, value: string)
      modifies this
      ensures table == Appended(old(table), Convert(folding, name), [value])
      ensures characterEncoding == old(characterEncoding)
    {
      Add(name, value);
    }

    /** add(name, values): adds the values one by one, in order. */
    method AddAll(name: string, values: seq<string>)
      modifies this
      ensures table == Appended(old(table), Convert(folding, name), values)
      ensures characterEncoding == old(characterEncoding)
    {
      var k := Convert(folding, name);
      var i := 0;
      while i < |values|
        invariant 0 <= i <= |values|
        invariant table == Appended(old(table), k, values[..i])
        invariant characterEncoding == old(characterEncoding)
      {
        Add(name, values[i]);
        AppendedTwice(old(table), k, values[..i], values[i]);
        assert values[..i + 1] == values[..i] + [values[i]];
        i := i + 1;
      }
      assert values[..i] == values;
    }

    /** add(name, int), add(name, long): the number stored as its decimal
        string, so the numeric array getters end with it. */
    method AddNumber(name: string, n: int, kind: NumberKind)
      requires kind.Min() <= n <= kind.Max()
      modifies this
      ensures table == Appended(old(table), Convert(folding, name), [IntToString(n)])
      ensures GetNumberObjects(name, kind) == Some(old(GetNumberObjects(name, kind)).GetOr([]) + [Some(n)])
      ensures GetNumbers(name, kind) == Some(old(GetNumbers(name, kind)).GetOr([]) + [n])
      ensures characterEncoding == old(characterEncoding)
    {
      ghost var k := Convert(folding, name);
      ghost var before := ValuesIn(table, k);
      assert old(GetNumberObjects(name, kind)).GetOr([]) == ParseEach(before, kind);
      assert old(GetNumbers(name, kind)).GetOr([]) == OrZero(ParseEach(before, kind));
      Add(name, IntToString(n));
      assert table[k] == before + [IntToString(n)];
      ParseNumberOfToString(n, kind);
      ParseEachSnoc(before, IntToString(n), kind);
      OrZeroSnoc(ParseEach(before, kind), Some(n));
    }

    /** remove: drops the converted name and returns what it held, or
        null when it held nothing. */
    method Remove(name: string) returns (r: Option<seq<string>>)
      modifies this
      ensures r == old(GetStrings(name))
      ensures table == old(table) - {Convert(folding, name)}
      ensures !ContainsKey(name)
      ensures characterEncoding == old(characterEncoding)
    {
      var k := Convert(folding, name);
      r := if k in table then Some(table[k]) else None;
      table := table - {k};
    }

    /** setString: the name now holds exactly value. */
    method SetString(name: string, value: string)
      modifies this
      ensures table == old(table)[Convert(folding, name) := [value]]
      ensures GetString(name) == Some(value)
      ensures characterEncoding == old(characterEncoding)
    {
      SetStrings(name, [value]);
    }

    /** setStrings: the name now holds exactly values. */
    method SetStrings(name: string, values: seq<string>)
      modifies this
      ensures table == old(table)[Convert(folding, name) := values]
      ensures GetStrings(name) == Some(values)
      ensures characterEncoding == old(characterEncoding)
    {
      table := table[Convert(folding, name) := values];
    }
  }

  /** The numeric test scenario: "1", "a", "3" added under one name read
      back as 1, 0, 3 from the primitive getter and 1, null, 3 from the
      object getter. */
  lemma UnparsableElementKeepsItsPlace(kind: NumberKind)
    ensures ParseEach(["1", "a", "3"], kind) == [Some(1), None, Some(3)]
    ensures OrZero([Some(1), None, Some(3)]) == [1, 0, 3]
  {
    ParseNumberOfToString(1, kind);
    ParseNumberOfToString(3, kind);
    assert IntToString(1) == "1" && IntToString(3) == "3";
    ParseNumberRejectsLetter("a", kind, 0);
  }
}
