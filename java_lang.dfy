/** The parts of java.lang and java.util behaviour the modelled code relies
    on: String.trim, indexOf, lastIndexOf, startsWith, replace, the
    StringTokenizer (and StringUtils.split) tokenisation, StringUtils.join,
    Integer.parseInt with a radix, Integer.toString, the narrowing cast to
    byte and AbstractCollection.toString. Characters are UTF-16 code units;
    case folding and digit recognition are ASCII only. */
module JavaLang {
  import opened Wrappers

  // ---------------------------------------------------------------------
  // Trimming

  /** String.trim removes every leading and trailing char at or below ' '. */
  predicate IsTrimmed(c: char) { c <= ' ' }

  function TrimLeft(s: string): (r: string)
    ensures |r| <= |s| && r == s[|s| - |r|..]
    ensures r == [] || !IsTrimmed(r[0])
    ensures forall i :: 0 <= i < |s| - |r| ==> IsTrimmed(s[i])
  {
    if |s| > 0 && IsTrimmed(s[0]) then TrimLeft(s[1..]) else s
  }

  function TrimRight(s: string): (r: string)
    ensures |r| <= |s| && r == s[..|r|]
    ensures r == [] || !IsTrimmed(r[|r| - 1])
    ensures forall i :: |r| <= i < |s| ==> IsTrimmed(s[i])
  {
    if |s| > 0 && IsTrimmed(s[|s| - 1]) then TrimRight(s[..|s| - 1]) else s
  }

  /** String.trim: the result neither starts nor ends with a trimmed char. */
  function Trim(s: string): (r: string)
    ensures |r| <= |s|
    ensures r == [] || (!IsTrimmed(r[0]) && !IsTrimmed(r[|r| - 1]))
  {
    TrimRight(TrimLeft(s))
  }

  lemma TrimLeftOfClean(s: string)
    requires s == [] || !IsTrimmed(s[0])
    ensures TrimLeft(s) == s
  {
  }

  lemma TrimRightOfClean(s: string)
    requires s == [] || !IsTrimmed(s[|s| - 1])
    ensures TrimRight(s) == s
  {
  }

  /** Trimming twice is trimming once. */
  lemma TrimIdempotent(s: string)
    ensures Trim(Trim(s)) == Trim(s)
  {
    var t := Trim(s);
    TrimLeftOfClean(t);
    TrimRightOfClean(t);
  }

  // ---------------------------------------------------------------------
  // Searching

  /** String.indexOf(char): the first position of c, or -1. */
  function IndexOf(s: string, c: char): (r: int)
    ensures -1 <= r < |s|
    ensures r == -1 <==> c !in s
    ensures r >= 0 ==> s[r] == c && c !in s[..r]
  {
    if |s| == 0 then -1
    else if s[0] == c then 0
    else
      var k := IndexOf(s[1..], c);
      assert s[1..][..if k < 0 then 0 else k] == s[1..1 + if k < 0 then 0 else k];
      if k == -1 then -1 else k + 1
  }

  /** String.indexOf(char, fromIndex) for a fromIndex that is not negative. */
  function IndexOfFrom(s: string, c: char, from: nat): (r: int)
    ensures r == -1 || from <= r < |s|
    ensures r == -1 <==> (from >= |s| || c !in s[from..])
    ensures r >= 0 ==> s[r] == c && c !in s[from..r]
  {
    if from >= |s| then -1
    else
      var k := IndexOf(s[from..], c);
      assert k >= 0 ==> s[from..][..k] == s[from..from + k];
      if k == -1 then -1 else from + k
  }

  /** String.lastIndexOf(char): the last position of c, or -1. */
  function LastIndexOf(s: string, c: char): (r: int)
    ensures -1 <= r < |s|
    ensures r == -1 <==> c !in s
    ensures r >= 0 ==> s[r] == c && c !in s[r + 1..]
  {
    if |s| == 0 then -1
    else if s[|s| - 1] == c then |s| - 1
    else
      var k := LastIndexOf(s[..|s| - 1], c);
      assert s == s[..|s| - 1] + [s[|s| - 1]];
      k
  }

  /** The position found for c in p + [c] + rest, when p holds no c, is |p|. */
  lemma IndexOfAfterPrefix(p: string, c: char, rest: string)
    requires c !in p
    ensures IndexOf(p + [c] + rest, c) == |p|
  {
    var s := p + [c] + rest;
    assert s[|p|] == c;
    assert forall j :: 0 <= j < |p| ==> s[j] == p[j];
  }

  /** The last position of c in p + [c] + rest, when rest holds no c, is |p|. */
  lemma {:induction false} LastIndexOfBeforeSuffix(p: string, c: char, rest: string)
    requires c !in rest
    ensures LastIndexOf(p + [c] + rest, c) == |p|
    decreases |rest|
  {
    var s := p + [c] + rest;
    if rest != [] {
      var shorter := rest[..|rest| - 1];
      assert s[..|s| - 1] == p + [c] + shorter;
      assert s[|s| - 1] == rest[|rest| - 1];
      LastIndexOfBeforeSuffix(p, c, shorter);
    }
  }

  predicate StartsWith(s: string, prefix: string) {
    |prefix| <= |s| && s[..|prefix|] == prefix
  }

  /** String.replace(char, char): every a becomes b, nothing else changes. */
  function ReplaceChar(s: string, a: char, b: char): (r: string)
    ensures |r| == |s|
    ensures forall i :: 0 <= i < |s| ==> r[i] == (if s[i] == a then b else s[i])
  {
    seq(|s|, i requires 0 <= i < |s| => if s[i] == a then b else s[i])
  }

  // ---------------------------------------------------------------------
  // Tokenising and joining

  /** The tokens java.util.StringTokenizer (and StringUtils.split) yields
      for one delimiter: the maximal non-empty runs free of it, in order. */
  function Tokens(s: string, d: char): (r: seq<string>)
    ensures forall t :: t in r ==> |t| > 0 && d !in t
    decreases |s|
  {
    if |s| == 0 then []
    else if s[0] == d then Tokens(s[1..], d)
    else
      var k := IndexOf(s, d);
      if k == -1 then [s] else [s[..k]] + Tokens(s[k + 1..], d)
  }

  /** A non-empty string free of the delimiter is a single token. */
  lemma TokensOfToken(s: string, d: char)
    requires |s| > 0 && d !in s
    ensures Tokens(s, d) == [s]
  {
    assert s[0] in s;
  }

  /** A token followed by the delimiter is split off first. */
  lemma TokensAfterPrefix(p: string, d: char, rest: string)
    requires |p| > 0 && d !in p
    ensures Tokens(p + [d] + rest, d) == [p] + Tokens(rest, d)
  {
    var s := p + [d] + rest;
    IndexOfAfterPrefix(p, d, rest);
    assert s[0] == p[0];
    assert p[0] in p;
    assert s[..|p|] == p;
    assert s[|p| + 1..] == rest;
  }

  /** A string yields no token exactly when it is made of delimiters only. */
  lemma {:induction false} TokensEmptyIff(s: string, d: char)
    ensures Tokens(s, d) == [] <==> forall i :: 0 <= i < |s| ==> s[i] == d
    decreases |s|
  {
    if |s| > 0 && s[0] == d {
      TokensEmptyIff(s[1..], d);
      assert forall i :: 1 <= i < |s| ==> s[i] == s[1..][i - 1];
    }
  }

  /** StringUtils.join(parts, sep). */
  function Join(parts: seq<string>, sep: string): string
  {
    if |parts| == 0 then ""
    else if |parts| == 1 then parts[0]
    else parts[0] + sep + Join(parts[1..], sep)
  }

  lemma JoinThree(a: string, b: string, c: string, sep: string)
    ensures Join([a, b, c], sep) == a + sep + b + sep + c
  {
    assert [a, b, c][1..] == [b, c] && [b, c][1..] == [c];
    assert Join([b, c], sep) == b + sep + c;
  }

  /** Splitting a join on the same one-char separator gives the parts back,
      provided no part is empty or contains the separator. */
  lemma {:induction false} TokensOfJoin(parts: seq<string>, d: char)
    requires forall i :: 0 <= i < |parts| ==> |parts[i]| > 0 && d !in parts[i]
    ensures Tokens(Join(parts, [d]), d) == parts
    decreases |parts|
  {
    if |parts| == 1 {
      TokensOfToken(parts[0], d);
    } else if |parts| > 1 {
      var rest := Join(parts[1..], [d]);
      assert Join(parts, [d]) == parts[0] + [d] + rest;
      TokensAfterPrefix(parts[0], d, rest);
      TokensOfJoin(parts[1..], d);
      assert parts == [parts[0]] + parts[1..];
    }
  }

  /** A char that is not the separator and occurs in no part does not
      occur in the join. */
  lemma {:induction false} JoinFreeOf(parts: seq<string>, d: char, c: char)
    requires c != d && forall i :: 0 <= i < |parts| ==> c !in parts[i]
    ensures c !in Join(parts, [d])
    decreases |parts|
  {
    if |parts| > 1 {
      JoinFreeOf(parts[1..], d, c);
    }
  }

  /** The first separator of a join ends the first part. */
  lemma IndexOfJoin(parts: seq<string>, d: char)
    requires |parts| > 1 && d !in parts[0]
    ensures IndexOf(Join(parts, [d]), d) == |parts[0]|
  {
    IndexOfAfterPrefix(parts[0], d, Join(parts[1..], [d]));
  }

  /** AbstractCollection.toString: "[a, b, c]". */
  function ListToString(items: seq<string>): string {
    "[" + Join(items, ", ") + "]"
  }

  // ---------------------------------------------------------------------
  // ASCII case folding

  function LowerChar(c: char): char {
    if 'A' <= c <= 'Z' then (c as int + 32) as char else c
  }

  function UpperChar(c: char): char {
    if 'a' <= c <= 'z' then (c as int - 32) as char else c
  }

  function ToLower(s: string): (r: string)
    ensures |r| == |s| && forall i :: 0 <= i < |s| ==> r[i] == LowerChar(s[i])
  {
    seq(|s|, i requires 0 <= i < |s| => LowerChar(s[i]))
  }

  function ToUpper(s: string): (r: string)
    ensures |r| == |s| && forall i :: 0 <= i < |s| ==> r[i] == UpperChar(s[i])
  {
    seq(|s|, i requires 0 <= i < |s| => UpperChar(s[i]))
  }

  lemma ToLowerIdempotent(s: string)
    ensures ToLower(ToLower(s)) == ToLower(s)
  {
  }

  lemma ToUpperIdempotent(s: string)
    ensures ToUpper(ToUpper(s)) == ToUpper(s)
  {
  }

  /** Trimming and lower-casing commute: folding never turns a trimmed
      char into an untrimmed one or back. */
  lemma {:induction false} TrimLeftToLower(s: string)
    ensures TrimLeft(ToLower(s)) == ToLower(TrimLeft(s))
    decreases |s|
  {
    if |s| > 0 {
      assert ToLower(s)[0] == LowerChar(s[0]);
      if IsTrimmed(s[0]) {
        assert ToLower(s)[1..] == ToLower(s[1..]);
        TrimLeftToLower(s[1..]);
      }
    }
  }

  lemma {:induction false} TrimRightToLower(s: string)
    ensures TrimRight(ToLower(s)) == ToLower(TrimRight(s))
    decreases |s|
  {
    if |s| > 0 {
      assert ToLower(s)[|s| - 1] == LowerChar(s[|s| - 1]);
      if IsTrimmed(s[|s| - 1]) {
        assert ToLower(s)[..|s| - 1] == ToLower(s[..|s| - 1]);
        TrimRightToLower(s[..|s| - 1]);
      }
    }
  }

  lemma TrimToLower(s: string)
    ensures Trim(ToLower(s)) == ToLower(Trim(s))
  {
    TrimLeftToLower(s);
    TrimRightToLower(TrimLeft(s));
  }

  /** Folding a trimmed string leaves nothing to trim. */
  lemma FoldedTrimIsClean(s: string)
    ensures Trim(ToLower(Trim(s))) == ToLower(Trim(s))
    ensures Trim(ToUpper(Trim(s))) == ToUpper(Trim(s))
  {
    var t := Trim(s);
    if |t| > 0 {
      assert ToLower(t)[0] == LowerChar(t[0]) && ToLower(t)[|t| - 1] == LowerChar(t[|t| - 1]);
      assert ToUpper(t)[0] == UpperChar(t[0]) && ToUpper(t)[|t| - 1] == UpperChar(t[|t| - 1]);
    }
    TrimLeftOfClean(ToLower(t));
    TrimRightOfClean(ToLower(t));
    TrimLeftOfClean(ToUpper(t));
    TrimRightOfClean(ToUpper(t));
  }

  /** String.equalsIgnoreCase, restricted to ASCII letters. */
  predicate EqualsIgnoreCase(a: string, b: string) {
    ToLower(a) == ToLower(b)
  }

  // ---------------------------------------------------------------------
  // Numbers

  const INT_MIN: int := -0x8000_0000
  const INT_MAX: int := 0x7fff_ffff
  const LONG_MIN: int := -0x8000_0000_0000_0000
  const LONG_MAX: int := 0x7fff_ffff_ffff_ffff
  const BYTE_MIN: int := -128
  const BYTE_MAX: int := 127

  /** Character.digit(c, 36) for ASCII: the value of a digit or letter, or -1. */
  function DigitValue(c: char): (r: int)
    ensures -1 <= r < 36
  {
    if '0' <= c <= '9' then c as int - '0' as int
    else if 'a' <= c <= 'z' then c as int - 'a' as int + 10
    else if 'A' <= c <= 'Z' then c as int - 'A' as int + 10
    else -1
  }

  predicate IsDigit(c: char, radix: nat) { 0 <= DigitValue(c) < radix }

  predicate AllDigits(s: string, radix: nat) {
    forall i :: 0 <= i < |s| ==> IsDigit(s[i], radix)
  }

  /** The value of a string of digits, most significant first. */
  function DigitsValue(s: string, radix: nat): nat
    requires AllDigits(s, radix)
  {
    if |s| == 0 then 0
    else DigitsValue(s[..|s| - 1], radix) * radix + DigitValue(s[|s| - 1])
  }

  /** The exact value Integer.parseInt(s, radix) reads: an optional sign and
      at least one digit; the range check is left to ParseInRange. */
  function ParseSigned(s: string, radix: nat): Option<int>
  {
    if |s| == 0 then None
    else if s[0] == '-' || s[0] == '+' then
      if |s| == 1 || !AllDigits(s[1..], radix) then None
      else
        var magnitude: int := DigitsValue(s[1..], radix);
        Some(if s[0] == '-' then -magnitude else magnitude)
    else if AllDigits(s, radix) then Some(DigitsValue(s, radix))
    else None
  }

  /** A char that is neither a digit nor a leading sign makes parsing fail. */
  lemma ParseSignedRejectsNonDigit(s: string, radix: nat, i: nat)
    requires i < |s| && !IsDigit(s[i], radix)
    requires i == 0 ==> s[0] != '-' && s[0] != '+'
    ensures ParseSigned(s, radix) == None
  {
    if i > 0 && |s| > 1 {
      assert s[1..][i - 1] == s[i];
    }
  }

  /** Integer.parseInt, Long.parseLong and Byte.parseByte: the parsed value
      when it lies in lo..hi, otherwise a NumberFormatException (None). */
  function ParseInRange(s: string, radix: nat, lo: int, hi: int): (r: Option<int>)
    ensures r.Some? ==> lo <= r.value <= hi
    ensures r.Some? <==> ParseSigned(s, radix).Some? && lo <= ParseSigned(s, radix).value <= hi
  {
    match ParseSigned(s, radix)
    case Some(v) => if lo <= v <= hi then Some(v) else None
    case None => None
  }

  function DigitChar(d: nat): (c: char)
    requires d < 10
    ensures DigitValue(c) == d
  {
    ('0' as int + d) as char
  }

  /** The decimal digits of n, without sign. */
  function NatToString(n: nat): (r: string)
    ensures |r| > 0
    decreases n
  {
    if n < 10 then [DigitChar(n)] else NatToString(n / 10) + [DigitChar(n % 10)]
  }

  /** Integer.toString / Long.toString. */
  function IntToString(n: int): string {
    if n < 0 then "-" + NatToString(-n) else NatToString(n)
  }

  lemma {:induction false} NatToStringValue(n: nat)
    ensures AllDigits(NatToString(n), 10)
    ensures DigitsValue(NatToString(n), 10) == n
    decreases n
  {
    var s := NatToString(n);
    if n >= 10 {
      NatToStringValue(n / 10);
      assert s[..|s| - 1] == NatToString(n / 10);
    }
  }

  /** Integer.parseInt(Integer.toString(n)) == n for every n in range. */
  lemma ParseIntToString(n: int, lo: int, hi: int)
    requires lo <= n <= hi
    ensures ParseInRange(IntToString(n), 10, lo, hi) == Some(n)
  {
    var s := IntToString(n);
    if n < 0 {
      NatToStringValue(-n);
      assert s[1..] == NatToString(-n);
    } else {
      NatToStringValue(n);
      assert DigitValue(s[0]) >= 0;
    }
  }

  /** The narrowing cast (byte) n: the low eight bits, read as signed. */
  function ByteValue(n: int): (r: int)
    ensures BYTE_MIN <= r <= BYTE_MAX
    ensures (n - r) % 256 == 0
    ensures BYTE_MIN <= n <= BYTE_MAX ==> r == n
  {
    var m := n % 256;
    if m >= 128 then m - 256 else m
  }
}
