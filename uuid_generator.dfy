/** UUIdGenerator: ids made of a time-based base followed by two counter
    characters, and the six address bytes parsed from the uuid.address
    setting (an IP address, a MAC address, or random bytes). */
module UUIdGenerator {
  import opened Wrappers
  import opened Errors
  import opened JavaLang

  const ERROR_STRING: string := "uuid.address property in "
    + "TurbineResources.properties should be a valid IP\n "
    + "e.g. 18.2.3.100, or an ethernet address e.g. "
    + "AE:10:3E:de:f5:77 uuid.address was "

  /** The number of address bytes. */
  const ADDRESS_LENGTH: nat := 6

  /** The largest counter value an id is handed out for. */
  const MAX_COUNT: int := 4095

  /** The TurbineException thrown for a bad address, with the cause of
      the failure when a number did not parse. */
  function BadAddress(addr: string, cause: Option<Error>): Error
  {
    TurbineException(ERROR_STRING + addr, cause)
  }

  // ---------------------------------------------------------------------
  // Address parsing

  /** How one address token becomes a byte. */
  datatype OctetRule =
    /** Integer.valueOf(token, 16).byteValue(): any int, truncated. */
    | IpOctet
    /** Byte.parseByte(token, 16): only -80..7F in hexadecimal. */
    | MacOctet
    /** Integer.parseInt(token, 16) in 00..FF, then truncated to a byte. */
    | UnsignedMacOctet

  function ParseOctet(token: string, rule: OctetRule): (r: Option<int>)
    ensures r.Some? ==> BYTE_MIN <= r.value <= BYTE_MAX
  {
    match rule
    case IpOctet =>
      (match ParseInRange(token, 16, INT_MIN, INT_MAX) case Some(v) => Some(ByteValue(v)) case None => None)
    case MacOctet => ParseInRange(token, 16, BYTE_MIN, BYTE_MAX)
    case UnsignedMacOctet =>
      (match ParseInRange(token, 16, 0, 255) case Some(v) => Some(ByteValue(v)) case None => None)
  }

  /** The bytes of all tokens, or None when one of them does not parse. */
  function ParseOctets(tokens: seq<string>, rule: OctetRule): (r: Option<seq<int>>)
    ensures r.Some? <==> forall i :: 0 <= i < |tokens| ==> ParseOctet(tokens[i], rule).Some?
    ensures r.Some? ==> forall i :: 0 <= i < |r.value| ==> BYTE_MIN <= r.value[i] <= BYTE_MAX
    ensures r.Some? ==> (|r.value| == |tokens|
      && forall i :: 0 <= i < |tokens| ==> r.value[i] == ParseOctet(tokens[i], rule).value)
  {
    if |tokens| == 0 then Some([])
    else
      match ParseOctet(tokens[0], rule)
      case None => None
      case Some(b) =>
        match ParseOctets(tokens[1..], rule)
        case None => None
        case Some(bs) => Some([b] + bs)
  }

  /** Six signed bytes. */
  predicate IsAddress(bytes: seq<int>)
  {
    |bytes| == ADDRESS_LENGTH && forall i :: 0 <= i < |bytes| ==> BYTE_MIN <= bytes[i] <= BYTE_MAX
  }

  /** The random address: each sample, a value 255 * Math.random()
      truncated to int, cast to a byte. */
  function RandomAddress(samples: seq<int>): (r: seq<int>)
    requires |samples| == ADDRESS_LENGTH
    ensures IsAddress(r)
  {
    seq(ADDRESS_LENGTH, i requires 0 <= i < ADDRESS_LENGTH => ByteValue(samples[i]))
  }

  /** The IP branch: four tokens separated by '.', stored after two bytes
      (byte) 255. */
  function IpAddress(addr: string): (r: Result<seq<int>, Option<Error>>)
    ensures r.Success? ==> IsAddress(r.value)
  {
    var tokens := Tokens(addr, '.');
    if |tokens| != 4 then Failure(None)
    else
      match ParseOctets(tokens, IpOctet)
      case None => Failure(Some(NumberFormatException))
      case Some(bs) => Success([-1, -1] + bs)
  }

  /** The MAC branch: six tokens separated by ':'. */
  function MacAddress(addr: string, mac: OctetRule): (r: Result<seq<int>, Option<Error>>)
    ensures r.Success? ==> IsAddress(r.value)
  {
    var tokens := Tokens(addr, ':');
    if |tokens| != ADDRESS_LENGTH then Failure(None)
    else
      match ParseOctets(tokens, mac)
      case None => Failure(Some(NumberFormatException))
      case Some(bs) => Success(bs)
  }

  /** The six bytes the constructor stores for addr, parsing MAC octets
      with the given rule; an empty setting gives the random address. */
  function AddressWith(addr: string, samples: seq<int>, mac: OctetRule): Result<seq<int>, Option<Error>>
    requires |samples| == ADDRESS_LENGTH
  {
    if |addr| == 0 then Success(RandomAddress(samples))
    else if IndexOf(addr, '.') > 0 then IpAddress(addr)
    else if IndexOf(addr, ':') > 0 then MacAddress(addr, mac)
    else Failure(None)
  }

  /** Every parsed address is six signed bytes. */
  lemma AddressIsSixBytes(addr: string, samples: seq<int>, mac: OctetRule)
    requires |samples| == ADDRESS_LENGTH
    ensures var r := AddressWith(addr, samples, mac); r.Success? ==> IsAddress(r.value)
  {
  }

  /** The constructor's address parsing as written: MAC octets go through
      Byte.parseByte(token, 16). */
  function ParseAddress(addr: string, samples: seq<int>): Result<seq<int>, Option<Error>>
    requires |samples| == ADDRESS_LENGTH
  {
    AddressWith(addr, samples, MacOctet)
  }

  /** The same parsing with MAC octets read as unsigned 00..FF. */
  function ParseAddressUnsigned(addr: string, samples: seq<int>): Result<seq<int>, Option<Error>>
    requires |samples| == ADDRESS_LENGTH
  {
    AddressWith(addr, samples, UnsignedMacOctet)
  }

  /** An address with a '.' after its first char is an IP address: it
      needs exactly four tokens, each an int in hexadecimal; the result is
      255, 255 and the four tokens truncated to bytes. */
  lemma IpAddressBytes(addr: string, samples: seq<int>)
    requires |samples| == ADDRESS_LENGTH && |addr| > 0 && IndexOf(addr, '.') > 0
    ensures var tokens := Tokens(addr, '.');
      var r := ParseAddress(addr, samples);
      && (|tokens| != 4 ==> r == Failure(None))
      && (r.Success? <==> |tokens| == 4 && forall i :: 0 <= i < 4 ==> ParseInRange(tokens[i], 16, INT_MIN, INT_MAX).Some?)
      && (r.Success? ==>
            && r.value[0] == -1 && r.value[1] == -1
            && forall i :: 0 <= i < 4 ==> r.value[2 + i] == ByteValue(ParseInRange(tokens[i], 16, INT_MIN, INT_MAX).value))
  {
    assert ParseAddress(addr, samples) == IpAddress(addr);
  }

  /** Otherwise an address with a ':' after its first char is a MAC
      address: exactly six tokens, each a signed byte in hexadecimal. */
  lemma MacAddressBytes(addr: string, samples: seq<int>)
    requires |samples| == ADDRESS_LENGTH && |addr| > 0 && IndexOf(addr, '.') <= 0 && IndexOf(addr, ':') > 0
    ensures var tokens := Tokens(addr, ':');
      var r := ParseAddress(addr, samples);
      && (|tokens| != ADDRESS_LENGTH ==> r == Failure(None))
      && (r.Success? <==> (|tokens| == ADDRESS_LENGTH
            && forall i :: 0 <= i < ADDRESS_LENGTH ==> ParseInRange(tokens[i], 16, BYTE_MIN, BYTE_MAX).Some?))
      && (r.Success? ==> forall i :: 0 <= i < ADDRESS_LENGTH ==> r.value[i] == ParseInRange(tokens[i], 16, BYTE_MIN, BYTE_MAX).value)
  {
  }

  /** A non-empty address with neither a '.' nor a ':' after its first char
      is rejected. */
  lemma OtherAddressRejected(addr: string, samples: seq<int>)
    requires |samples| == ADDRESS_LENGTH && |addr| > 0 && IndexOf(addr, '.') <= 0 && IndexOf(addr, ':') <= 0
    ensures ParseAddress(addr, samples) == Failure(None)
  {
  }

  /** The six octets are non-empty and free of both separators. */
  predicate PlainOctets(parts: seq<string>)
  {
    |parts| == ADDRESS_LENGTH && forall i :: 0 <= i < |parts| ==> |parts[i]| > 0 && ':' !in parts[i] && '.' !in parts[i]
  }

  /** Six octets joined by ':' take the MAC branch and split back. */
  lemma MacTextTokens(parts: seq<string>)
    requires PlainOctets(parts)
    ensures var addr := Join(parts, [':']);
      && |addr| > 0 && IndexOf(addr, '.') == -1 && IndexOf(addr, ':') == |parts[0]| > 0
      && Tokens(addr, ':') == parts
  {
    TokensOfJoin(parts, ':');
    JoinFreeOf(parts, ':', '.');
    IndexOfJoin(parts, ':');
  }

  /** The octets of a MAC address decide its parsing alone. */
  lemma MacTextParsing(parts: seq<string>, samples: seq<int>, mac: OctetRule)
    requires |samples| == ADDRESS_LENGTH && PlainOctets(parts)
    ensures AddressWith(Join(parts, [':']), samples, mac)
      == match ParseOctets(parts, mac) case None => Failure(Some(NumberFormatException)) case Some(bs) => Success(bs)
  {
    MacTextTokens(parts);
  }

  /** The octet AE, which the error message itself gives as an example,
      is 174 and so out of Byte.parseByte's range. */
  lemma HighOctetRejected()
    ensures ParseOctet("AE", MacOctet) == None
    ensures ParseOctet("AE", UnsignedMacOctet) == Some(ByteValue(174))
  {
    assert AllDigits("AE", 16);
    assert "AE"[..1] == "A" && "A"[..0] == [];
    assert DigitsValue("AE", 16) == 174;
  }

  /** Byte.parseByte rejects every MAC address whose first octet is AE. */
  lemma MacHighOctetRejected(parts: seq<string>, samples: seq<int>)
    requires |samples| == ADDRESS_LENGTH && PlainOctets(parts) && parts[0] == "AE"
    ensures ParseAddress(Join(parts, [':']), samples).Failure?
  {
    MacTextParsing(parts, samples, MacOctet);
    HighOctetRejected();
  }

  /** Read as unsigned, every MAC address of six two-digit hexadecimal
      octets is accepted, each stored as its value truncated to a byte. */
  lemma UnsignedMacAccepted(parts: seq<string>, samples: seq<int>)
    requires |samples| == ADDRESS_LENGTH && |parts| == ADDRESS_LENGTH
    requires forall i :: 0 <= i < ADDRESS_LENGTH ==> |parts[i]| == 2 && AllDigits(parts[i], 16)
    ensures var r := ParseAddressUnsigned(Join(parts, [':']), samples);
      && r.Success?
      && forall i :: 0 <= i < ADDRESS_LENGTH ==> r.value[i] == ByteValue(DigitsValue(parts[i], 16))
  {
    forall i | 0 <= i < ADDRESS_LENGTH
      ensures ':' !in parts[i] && '.' !in parts[i]
      ensures ParseOctet(parts[i], UnsignedMacOctet) == Some(ByteValue(DigitsValue(parts[i], 16)))
    {
      HexOctetValue(parts[i]);
    }
    MacTextParsing(parts, samples, UnsignedMacOctet);
  }

  /** A two-digit hexadecimal octet has no separator and reads as 00..FF. */
  lemma HexOctetValue(t: string)
    requires |t| == 2 && AllDigits(t, 16)
    ensures ':' !in t && '.' !in t
    ensures ParseOctet(t, UnsignedMacOctet) == Some(ByteValue(DigitsValue(t, 16)))
  {
    assert IsDigit(t[0], 16) && IsDigit(t[1], 16);
    assert DigitValue(':') == -1 && DigitValue('.') == -1;
    TwoDigitRange(t);
  }

  lemma TwoDigitRange(t: string)
    requires |t| == 2 && AllDigits(t, 16)
    ensures DigitsValue(t, 16) <= 255
  {
    assert IsDigit(t[0], 16) && IsDigit(t[1], 16);
    assert t[..1][..0] == [] && t[..1][0] == t[0];
    assert DigitsValue(t[..1], 16) == DigitValue(t[0]);
  }

  // ---------------------------------------------------------------------
  // Ids

  /** countChar[d]: A-Z, a-z, 0-9, '-' and '_', in that order. */
  function CountChar(d: int): (c: char)
    requires 0 <= d < 64
  {
    if d < 26 then ('A' as int + d) as char
    else if d < 52 then ('a' as int + d - 26) as char
    else if d < 62 then ('0' as int + d - 52) as char
    else if d == 62 then '-'
    else '_'
  }

  /** The position of c in countChar, or -1. */
  function CountValue(c: char): int
  {
    if 'A' <= c <= 'Z' then c as int - 'A' as int
    else if 'a' <= c <= 'z' then c as int - 'a' as int + 26
    else if '0' <= c <= '9' then c as int - '0' as int + 52
    else if c == '-' then 62
    else if c == '_' then 63
    else -1
  }

  /** The table has 64 distinct entries: each reads back as its position. */
  lemma CountCharDecodes(d: int)
    requires 0 <= d < 64
    ensures CountValue(CountChar(d)) == d
  {
  }

  /** The two counter chars of an id with 0 <= index < 4096. */
  function Suffix(index: int): (r: string)
    requires 0 <= index <= MAX_COUNT
  {
    [CountChar(index / 64), CountChar(index % 64)]
  }

  /** The suffix reads back as the index, so different indices give
      different suffixes and ids of one base never repeat. */
  lemma SuffixDecodes(index: int)
    requires 0 <= index <= MAX_COUNT
    ensures var s := Suffix(index); CountValue(s[0]) * 64 + CountValue(s[1]) == index
  {
    CountCharDecodes(index / 64);
    CountCharDecodes(index % 64);
  }

  lemma SuffixInjective(i: int, j: int)
    requires 0 <= i <= MAX_COUNT && 0 <= j <= MAX_COUNT && i != j
    ensures Suffix(i) != Suffix(j)
  {
    SuffixDecodes(i);
    SuffixDecodes(j);
  }

  /** generateNewBaseId: the Base64 text of the time with '/' made '_' and
      '*' made '-'. */
  function BaseIdOf(encoded: string): (r: string)
    ensures |r| == |encoded| && '/' !in r && '*' !in r
  {
    ReplaceChar(ReplaceChar(encoded, '/', '_'), '*', '-')
  }

  /** StringBuffer.append of a possibly null string. */
  function BaseText(baseId: Option<string>): string
  {
    match baseId case Some(b) => b case None => "null"
  }

  /** The generator state getId reads and writes. */
  datatype IdState = IdState(counter: int, baseId: Option<string>)

  /** One getId as written, given the outcome of encoding the current
      time: the new state and the id, or the exception thrown. */
  function NextId(s: IdState, encoded: Result<string, Error>): (IdState, Result<string, Error>)
    requires s.counter >= 0
  {
    var index := s.counter + 1;
    if index <= MAX_COUNT then
      (IdState(index, s.baseId), Success(BaseText(s.baseId) + [CountChar(index / 64), CountChar(index % 64)]))
    else
      match encoded
      case Failure(e) => (IdState(index, s.baseId), Failure(e))
      // the counter is reset, but index keeps its value: countChar[index / 64]
      case Success(text) => (IdState(0, Some(BaseIdOf(text))), Failure(IndexOutOfBounds(index / 64)))
  }

  /** Below the limit an id is the base text and the suffix of the new
      counter value. */
  lemma NextIdBelowLimit(s: IdState, encoded: Result<string, Error>)
    requires 0 <= s.counter < MAX_COUNT
    ensures NextId(s, encoded) == (IdState(s.counter + 1, s.baseId), Success(BaseText(s.baseId) + Suffix(s.counter + 1)))
  {
  }

  /** The call that takes the counter past 4095 renews the base and resets
      the counter, but still indexes countChar with 4096 / 64 = 64, past
      the end of the table. */
  lemma NextIdOverflows(s: IdState, text: string)
    requires s.counter == MAX_COUNT
    ensures NextId(s, Success(text)) == (IdState(0, Some(BaseIdOf(text))), Failure(IndexOutOfBounds(64)))
  {
  }

  /** getId as evidently intended: past 4095 the base is renewed and the
      id uses counter value 0 with the new base. */
  function NextIdFixed(s: IdState, encoded: Result<string, Error>): (IdState, Result<string, Error>)
    requires 0 <= s.counter <= MAX_COUNT
  {
    var index := s.counter + 1;
    if index <= MAX_COUNT then (IdState(index, s.baseId), Success(BaseText(s.baseId) + Suffix(index)))
    else
      match encoded
      case Failure(e) => (s, Failure(e))
      case Success(text) => (IdState(0, Some(BaseIdOf(text))), Success(BaseIdOf(text) + Suffix(0)))
  }

  /** The intended getId never indexes past the table, keeps the counter
      in 0..4095, and an id is its base followed by the suffix of the new
      counter. */
  lemma NextIdFixedInBounds(s: IdState, encoded: Result<string, Error>)
    requires 0 <= s.counter <= MAX_COUNT
    ensures var (s', r) := NextIdFixed(s, encoded);
      && 0 <= s'.counter <= MAX_COUNT
      && (encoded.Success? || s.counter < MAX_COUNT ==> r.Success?)
      && (r.Success? ==> r.value == BaseText(s'.baseId) + Suffix(s'.counter))
  {
  }

  /** Ids handed out with the same base are distinct exactly when their
      counter values are. */
  lemma FixedIdsDistinct(base: Option<string>, i: int, j: int)
    requires 0 <= i <= MAX_COUNT && 0 <= j <= MAX_COUNT && i != j
    ensures BaseText(base) + Suffix(i) != BaseText(base) + Suffix(j)
  {
    SuffixInjective(i, j);
    var b := BaseText(base);
    assert (b + Suffix(i))[|b|..] == Suffix(i);
    assert (b + Suffix(j))[|b|..] == Suffix(j);
  }

  /** As written the base id starts out null: a fresh generator's first
      id is "null" followed by two counter chars, six chars instead of the
      eighteen promised. */
  lemma FirstIdUsesNull(encoded: Result<string, Error>)
    ensures NextId(IdState(0, None), encoded).1 == Success("null" + Suffix(1))
    ensures |NextId(IdState(0, None), encoded).1.value| == 6
  {
  }

  /** With the base generated when the generator is made, every id of the
      first run is that base and a suffix. */
  lemma FirstIdUsesGeneratedBase(text: string, encoded: Result<string, Error>)
    ensures NextIdFixed(IdState(0, Some(BaseIdOf(text))), encoded).1 == Success(BaseIdOf(text) + Suffix(1))
    ensures |NextIdFixed(IdState(0, Some(BaseIdOf(text))), encoded).1.value| == |text| + 2
  {
  }

  class UUIdGenerator {
    /** The six address bytes, signed. */
    const address: array<int>
    /** The base of the ids, null until first renewed. */
    var baseId: Option<string>
    /** The count of ids handed out since the base was renewed. */
    var counter: int

    ghost predicate Valid()
      reads this, address
    {
      address.Length == ADDRESS_LENGTH && counter >= 0
    }

    constructor()
      ensures Valid() && fresh(address)
      ensures address[..] == [0, 0, 0, 0, 0, 0] && baseId.None? && counter == 0
    {
      address := new int[ADDRESS_LENGTH](_ => 0);
      baseId := None;
      counter := 0;
    }

    /** The constructor: a generator whose address is parsed from addr, or
        the TurbineException it throws. */
    static method Create(addr: string, samples: seq<int>) returns (r: Result<UUIdGenerator, Error>)
      requires |samples| == ADDRESS_LENGTH
      ensures match ParseAddress(addr, samples)
        case Failure(cause) => r == Failure(BadAddress(addr, cause))
        case Success(bytes) =>
          && r.Success? && fresh(r.value) && fresh(r.value.address) && r.value.Valid()
          && r.value.address[..] == bytes && r.value.baseId.None? && r.value.counter == 0
    {
      var g := new UUIdGenerator();
      var parsed := g.FillAddress(addr, samples);
      if parsed.Failure? {
        return Failure(BadAddress(addr, parsed.error));
      }
      r := Success(g);
    }

    /** Fills address from addr as the constructor does; a failure
        carries the cause of the TurbineException. */
    method FillAddress(addr: string, samples: seq<int>) returns (r: Result<(), Option<Error>>)
      requires Valid() && |samples| == ADDRESS_LENGTH
      modifies address
      ensures Valid()
      ensures match ParseAddress(addr, samples)
        case Failure(cause) => r == Failure(cause)
        case Success(bytes) => r.Success? && address[..] == bytes
    {
      if |addr| == 0 {
        FillRandom(samples);
        return Success(());
      }
      if IndexOf(addr, '.') > 0 {
        r := FillIp(addr);
        return;
      }
      if IndexOf(addr, ':') > 0 {
        r := FillMac(addr);
        return;
      }
      r := Failure(None);
    }

    /** The loop storing the six random bytes. */
    method FillRandom(samples: seq<int>)
      requires Valid() && |samples| == ADDRESS_LENGTH
      modifies address
      ensures Valid() && address[..] == RandomAddress(samples)
    {
      var i := 0;
      while i < ADDRESS_LENGTH
        invariant 0 <= i <= ADDRESS_LENGTH
        invariant forall j :: 0 <= j < i ==> address[j] == ByteValue(samples[j])
      {
        address[i] := ByteValue(samples[i]);
        i := i + 1;
      }
    }

    method FillIp(addr: string) returns (r: Result<(), Option<Error>>)
      requires Valid()
      modifies address
      ensures Valid()
      ensures match IpAddress(addr)
        case Failure(cause) => r == Failure(cause)
        case Success(bytes) => r.Success? && address[..] == bytes
    {
      var tokens := Tokens(addr, '.');
      if |tokens| != 4 {
        return Failure(None);
      }
      address[0] := -1;
      address[1] := -1;
      ghost var high := address[..2];
      assert high == [-1, -1];
      var ok := FillOctets(tokens, 2, IpOctet);
      if !ok {
        return Failure(Some(NumberFormatException));
      }
      ghost var bs := ParseOctets(tokens, IpOctet).value;
      assert IpAddress(addr) == Success(high + bs);
      assert address[..] == address[..2] + address[2..];
      r := Success(());
    }

    method FillMac(addr: string) returns (r: Result<(), Option<Error>>)
      requires Valid()
      modifies address
      ensures Valid()
      ensures match MacAddress(addr, MacOctet)
        case Failure(cause) => r == Failure(cause)
        case Success(bytes) => r.Success? && address[..] == bytes
    {
      var tokens := Tokens(addr, ':');
      if |tokens| != ADDRESS_LENGTH {
        return Failure(None);
      }
      var ok := FillOctets(tokens, 0, MacOctet);
      if !ok {
        return Failure(Some(NumberFormatException));
      }
      assert address[..] == address[0..];
      r := Success(());
    }

    /** The tokenizer loop: parses each token into address[start + i],
        stopping at the first token that does not parse. */
    method FillOctets(tokens: seq<string>, start: nat, rule: OctetRule) returns (ok: bool)
      requires Valid() && start + |tokens| == ADDRESS_LENGTH
      modifies address
      ensures Valid()
      ensures ok == ParseOctets(tokens, rule).Some?
      ensures ok ==> address[start..] == ParseOctets(tokens, rule).value
      ensures address[..start] == old(address[..start])
    {
      var i := 0;
      while i < |tokens|
        invariant 0 <= i <= |tokens|
        invariant forall j :: 0 <= j < i ==> ParseOctet(tokens[j], rule).Some?
        invariant forall j :: 0 <= j < i ==> address[start + j] == ParseOctet(tokens[j], rule).value
        invariant address[..start] == old(address[..start])
      {
        var b := ParseOctet(tokens[i], rule);
        if b.None? {
          return false;
        }
        address[start + i] := b.value;
        i := i + 1;
      }
      ok := true;
    }

    /** getId, given the outcome of encoding the current time should the
        base be renewed. */
    method GetId(encoded: Result<string, Error>) returns (r: Result<string, Error>)
      requires Valid()
      modifies this
      ensures Valid()
      ensures (IdState(counter, baseId), r) == NextId(IdState(old(counter), old(baseId)), encoded)
    {
      counter := counter + 1;
      var index := counter;
      if index > MAX_COUNT {
        match encoded {
          case Failure(e) =>
            return Failure(e);
          case Success(text) =>
            baseId := Some(BaseIdOf(text));
            counter := 0;
        }
      }
      if index / 64 >= 64 {
        return Failure(IndexOutOfBounds(index / 64));
      }
      r := Success(BaseText(baseId) + [CountChar(index / 64), CountChar(index % 64)]);
    }
  }
}
