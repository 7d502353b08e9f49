/** DefaultParameterParser: fills a ValueParser from a servlet request
    (request parameters first, then name/value pairs read from the path
    info) and keeps the uploaded file items per name. */
module DefaultParameterParser {
  import opened Wrappers
  import opened JavaLang
  import VP = ValueParser

  /** TurbineConstants.PARAMETER_ENCODING_DEFAULT. */
  const PARAMETER_ENCODING_DEFAULT: string := "ISO-8859-1"

  /** The path-info separator the tokenizer splits on. */
  const PATH_SEPARATOR: char := '/'

  /** What the parser reads from an HttpServletRequest: its character
      encoding, its parameters in enumeration order with all their values,
      and its path info (null when the request has none). */
  datatype Request = Request(
    characterEncoding: Option<string>,
    parameters: seq<(string, seq<string>)>,
    pathInfo: Option<string>)

  /** An uploaded file (commons-fileupload FileItem), kept opaque. */
  datatype FileItem = FileItem(fieldName: string, fileName: string, content: seq<bv8>)

  /** The table after adding each request parameter with all its values,
      in order. */
  function AddParameters(m: map<string, seq<string>>, folding: VP.Folding,
                         ps: seq<(string, seq<string>)>): map<string, seq<string>>
  {
    if |ps| == 0 then m
    else
      var last := ps[|ps| - 1];
      VP.Appended(AddParameters(m, folding, ps[..|ps| - 1]), VP.Convert(folding, last.0), last.1)
  }

  /** The table after adding each pair's value under its converted name. */
  function AddPairs(m: map<string, seq<string>>, folding: VP.Folding,
                    pairs: seq<(string, string)>): map<string, seq<string>>
  {
    if |pairs| == 0 then m
    else
      var last := pairs[|pairs| - 1];
      VP.Appended(AddPairs(m, folding, pairs[..|pairs| - 1]), VP.Convert(folding, last.0), [last.1])
  }

  /** The pairs the path-info loop adds from the tokens ts when the next
      token is a name. Decoding failure (None) ends the loop: nothing from
      there on is added. */
  function PathPairs(ts: seq<string>, decode: string -> Option<string>): seq<(string, string)>
    decreases |ts|, 1
  {
    if |ts| == 0 then []
    else
      match decode(ts[0])
      case None => []
      case Some(name) => PendingPairs(name, ts[1..], decode)
  }

  /** The pairs added when the decoded name is pending and the next token
      is its value; a pair whose name decodes to "" is skipped, and a name
      with no value after it adds nothing. */
  function PendingPairs(name: string, ts: seq<string>, decode: string -> Option<string>): seq<(string, string)>
    decreases |ts|, 0
  {
    if |ts| == 0 then []
    else
      match decode(ts[0])
      case None => []
      case Some(value) =>
        (if |name| > 0 then [(name, value)] else []) + PathPairs(ts[1..], decode)
  }

  /** Every pair added has a non-empty name and comes from decoding a
      name token and the value token right after it. */
  lemma {:induction false} PathPairsAreDecodedPairs(ts: seq<string>, decode: string -> Option<string>)
    ensures forall p :: p in PathPairs(ts, decode) ==>
              |p.0| > 0 && exists i :: 0 <= i < |ts| - 1 && decode(ts[i]) == Some(p.0) && decode(ts[i + 1]) == Some(p.1)
    decreases |ts|
  {
    if |ts| >= 2 && decode(ts[0]).Some? && decode(ts[1]).Some? {
      PathPairsAreDecodedPairs(ts[2..], decode);
      assert ts[1..][1..] == ts[2..];
      forall p | p in PathPairs(ts[2..], decode)
        ensures exists i :: 0 <= i < |ts| - 1 && decode(ts[i]) == Some(p.0) && decode(ts[i + 1]) == Some(p.1)
      {
        var i :| 0 <= i < |ts[2..]| - 1 && decode(ts[2..][i]) == Some(p.0) && decode(ts[2..][i + 1]) == Some(p.1);
        assert ts[2..][i] == ts[i + 2] && ts[2..][i + 1] == ts[i + 3];
      }
    }
  }

  /** The tokens a list of pairs is written as: name, value, name, ... */
  function Flatten(pairs: seq<(string, string)>): (r: seq<string>)
    ensures |r| == 2 * |pairs|
    ensures forall i :: 0 <= i < |pairs| ==> r[2 * i] == pairs[i].0 && r[2 * i + 1] == pairs[i].1
  {
    if |pairs| == 0 then [] else [pairs[0].0, pairs[0].1] + Flatten(pairs[1..])
  }

  /** A path info written as name/value/name/value... with names that are
      not empty and tokens that decode to themselves yields exactly those
      pairs, in order. */
  lemma {:induction false} PathPairsOfFlatten(pairs: seq<(string, string)>, decode: string -> Option<string>)
    requires forall i :: 0 <= i < |pairs| ==>
               |pairs[i].0| > 0 && decode(pairs[i].0) == Some(pairs[i].0) && decode(pairs[i].1) == Some(pairs[i].1)
    ensures PathPairs(Flatten(pairs), decode) == pairs
    decreases |pairs|
  {
    if |pairs| > 0 {
      var ts := Flatten(pairs);
      assert ts == [pairs[0].0, pairs[0].1] + Flatten(pairs[1..]);
      assert ts[1..][1..] == Flatten(pairs[1..]);
      PathPairsOfFlatten(pairs[1..], decode);
      assert pairs == [pairs[0]] + pairs[1..];
    }
  }

  /** The path info "/n1/v1/n2/v2/..." (leading slash optional) gives
      back its pairs when no token is empty or holds a slash and every
      token decodes to itself. */
  lemma PathInfoRoundTrip(pairs: seq<(string, string)>, decode: string -> Option<string>)
    requires forall i :: 0 <= i < |pairs| ==>
               && |pairs[i].0| > 0 && |pairs[i].1| > 0
               && PATH_SEPARATOR !in pairs[i].0 && PATH_SEPARATOR !in pairs[i].1
               && decode(pairs[i].0) == Some(pairs[i].0) && decode(pairs[i].1) == Some(pairs[i].1)
    ensures PathPairs(Tokens(Join(Flatten(pairs), [PATH_SEPARATOR]), PATH_SEPARATOR), decode) == pairs
    ensures PathPairs(Tokens([PATH_SEPARATOR] + Join(Flatten(pairs), [PATH_SEPARATOR]), PATH_SEPARATOR), decode) == pairs
  {
    var ts := Flatten(pairs);
    var joined := Join(ts, [PATH_SEPARATOR]);
    assert ([PATH_SEPARATOR] + joined)[1..] == joined;
    forall i | 0 <= i < |ts| ensures |ts[i]| > 0 && PATH_SEPARATOR !in ts[i] {
      assert ts[2 * (i / 2)] == pairs[i / 2].0 && ts[2 * (i / 2) + 1] == pairs[i / 2].1;
    }
    TokensOfJoin(ts, PATH_SEPARATOR);
    PathPairsOfFlatten(pairs, decode);
  }

  /** A token that fails to decode cuts the path info there: the pairs
      are those of the tokens before it. */
  lemma {:induction false} PathPairsStopAtFailure(ts: seq<string>, decode: string -> Option<string>, j: nat)
    requires j < |ts| && decode(ts[j]).None?
    ensures PathPairs(ts, decode) == PathPairs(ts[..j], decode)
    decreases |ts|
  {
    if j >= 2 && decode(ts[0]).Some? && decode(ts[1]).Some? {
      assert ts[1..][1..] == ts[2..];
      assert ts[..j][1..][1..] == ts[2..][..j - 2];
      PathPairsStopAtFailure(ts[2..], decode, j - 2);
    } else if j == 1 && decode(ts[0]).Some? {
      assert ts[1..][0] == ts[1];
    }
  }

  /** A name left without a value at the end adds nothing. */
  lemma {:induction false} PathPairsDropTrailingName(ts: seq<string>, name: string, decode: string -> Option<string>)
    requires |ts| % 2 == 0
    ensures PathPairs(ts + [name], decode) == PathPairs(ts, decode)
    decreases |ts|
  {
    var us := ts + [name];
    if |ts| > 0 {
      assert us[0] == ts[0] && us[1] == ts[1];
      assert us[1..][1..] == ts[2..] + [name];
      assert ts[1..][1..] == ts[2..];
      PathPairsDropTrailingName(ts[2..], name, decode);
    }
  }

  /** The pairs still to come in the path-info loop, from the state of
      its isNameTok flag and the pending name. */
  function Remaining(isNameTok: bool, pending: string, ts: seq<string>, decode: string -> Option<string>): seq<(string, string)>
  {
    if isNameTok then PathPairs(ts, decode) else PendingPairs(pending, ts, decode)
  }

  /** One token of the path-info loop, read as a name or as a value. */
  lemma PathStep(ts: seq<string>, j: nat, isNameTok: bool, pending: string, text: string, decode: string -> Option<string>)
    requires j < |ts| && decode(ts[j]) == Some(text)
    ensures isNameTok ==> Remaining(isNameTok, pending, ts[j..], decode) == Remaining(false, text, ts[j + 1..], decode)
    ensures !isNameTok ==> (Remaining(isNameTok, pending, ts[j..], decode)
            == (if |pending| > 0 then [(pending, text)] else []) + Remaining(true, pending, ts[j + 1..], decode))
  {
    assert ts[j..][0] == ts[j] && ts[j..][1..] == ts[j + 1..];
  }

  lemma PathStopsAt(ts: seq<string>, j: nat, isNameTok: bool, pending: string, decode: string -> Option<string>)
    requires j < |ts| && decode(ts[j]).None?
    ensures Remaining(isNameTok, pending, ts[j..], decode) == []
  {
    assert ts[j..][0] == ts[j];
  }

  lemma AddParametersStep(m: map<string, seq<string>>, folding: VP.Folding, ps: seq<(string, seq<string>)>, i: nat)
    requires i < |ps|
    ensures AddParameters(m, folding, ps[..i + 1])
         == VP.Appended(AddParameters(m, folding, ps[..i]), VP.Convert(folding, ps[i].0), ps[i].1)
  {
    assert ps[..i + 1][..i] == ps[..i];
  }

  lemma AddPairsSnoc(m: map<string, seq<string>>, folding: VP.Folding, pairs: seq<(string, string)>, p: (string, string))
    ensures AddPairs(m, folding, pairs + [p]) == VP.Appended(AddPairs(m, folding, pairs), VP.Convert(folding, p.0), [p.1])
  {
    assert (pairs + [p])[..|pairs|] == pairs;
  }

  class DefaultParameterParser {
    /** The parameters (the BaseValueParser part of this parser). */
    const parameters: VP.ValueParser
    /** URLDecoder.decode: None when it throws. */
    const decode: string -> Option<string>
    /** The parsed request, null until setRequest. */
    var request: Option<Request>
    /** The raw data of a file upload. */
    var uploadData: Option<seq<bv8>>
    /** Uploaded items per converted name. */
    var fileParameters: map<string, seq<FileItem>>

    /** Every stored item array holds at least one item. */
    ghost predicate Valid()
      reads this
    {
      forall k :: k in fileParameters ==> |fileParameters[k]| > 0
    }

    constructor(parameters: VP.ValueParser, decode: string -> Option<string>)
      ensures Valid()
      ensures this.parameters == parameters && this.decode == decode
      ensures request.None? && uploadData.None? && fileParameters == map[]
    {
      this.parameters := parameters;
      this.decode := decode;
      request := None;
      uploadData := None;
      fileParameters := map[];
    }

    /** The path-info tokens: none when the request has no path info (the
        tokenizer then throws, which the parser ignores). */
    static function PathTokens(req: Request): seq<string>
    {
      match req.pathInfo
      case None => []
      case Some(p) => Tokens(p, PATH_SEPARATOR)
    }

    /** setRequest: clears the parameters and upload data, takes the
        request's encoding (or the default), adds every request parameter
        and then every path-info pair. The file items are kept. */
    method SetRequest(req: Request)
      requires Valid()
      modifies this, parameters
      ensures Valid()
      ensures parameters.characterEncoding == req.characterEncoding.GetOr(PARAMETER_ENCODING_DEFAULT)
      ensures parameters.table ==
                AddPairs(AddParameters(map[], parameters.folding, req.parameters), parameters.folding,
                         PathPairs(PathTokens(req), decode))
      ensures request == Some(req) && uploadData.None?
      ensures fileParameters == old(fileParameters)
    {
      parameters.Clear();
      uploadData := None;
      parameters.SetCharacterEncoding(req.characterEncoding.GetOr(PARAMETER_ENCODING_DEFAULT));
      AddRequestParameters(req.parameters);
      AddPathInfo(PathTokens(req));
      request := Some(req);
    }

    /** The request-parameter loop of setRequest: each name, converted,
        with all its values. */
    method AddRequestParameters(ps: seq<(string, seq<string>)>)
      modifies parameters
      ensures parameters.table == AddParameters(old(parameters.table), parameters.folding, ps)
      ensures parameters.characterEncoding == old(parameters.characterEncoding)
    {
      var folding := parameters.folding;
      var i := 0;
      while i < |ps|
        invariant 0 <= i <= |ps|
        invariant parameters.table == AddParameters(old(parameters.table), folding, ps[..i])
        invariant parameters.characterEncoding == old(parameters.characterEncoding)
      {
        var (name, values) := ps[i];
        VP.ConvertIdempotent(folding, name);
        AddParametersStep(old(parameters.table), folding, ps, i);
        parameters.AddAll(VP.Convert(folding, name), values);
        i := i + 1;
      }
      assert ps[..i] == ps;
    }

    /** One name/value pair of the path info, added as a parameter. */
    method AddPathPair(name: string, value: string)
      modifies parameters
      ensures parameters.table == VP.Appended(old(parameters.table), VP.Convert(parameters.folding, name), [value])
      ensures parameters.characterEncoding == old(parameters.characterEncoding)
    {
      parameters.Add(name, value);
    }

    /** The path-info loop of setRequest: tokens alternate between a name
        and its value; decoding failure ends the loop silently. */
    method AddPathInfo(tokens: seq<string>)
      modifies parameters
      ensures parameters.table == AddPairs(old(parameters.table), parameters.folding, PathPairs(tokens, decode))
      ensures parameters.characterEncoding == old(parameters.characterEncoding)
    {
      var folding := parameters.folding;
      var isNameTok := true;
      var pending := "";
      ghost var added: seq<(string, string)> := [];
      var j := 0;
      while j < |tokens|
        invariant 0 <= j <= |tokens|
        invariant parameters.table == AddPairs(old(parameters.table), folding, added)
        invariant PathPairs(tokens, decode) == added + Remaining(isNameTok, pending, tokens[j..], decode)
        invariant parameters.characterEncoding == old(parameters.characterEncoding)
      {
        var decoded := decode(tokens[j]);
        if decoded.None? {
          PathStopsAt(tokens, j, isNameTok, pending, decode);
          break;
        }
        var text := decoded.value;
        PathStep(tokens, j, isNameTok, pending, text, decode);
        if isNameTok {
          pending := text;
          isNameTok := false;
        } else {
          if |pending| > 0 {
            ghost var rest := Remaining(true, pending, tokens[j + 1..], decode);
            assert added + ([(pending, text)] + rest) == (added + [(pending, text)]) + rest;
            AddPathPair(pending, text);
            AddPairsSnoc(old(parameters.table), folding, added, (pending, text));
            added := added + [(pending, text)];
          } else {
            assert [] + Remaining(true, pending, tokens[j + 1..], decode) == Remaining(true, pending, tokens[j + 1..], decode);
          }
          isNameTok := true;
        }
        j := j + 1;
      }
      if j == |tokens| {
        assert tokens[j..] == [];
      }
      assert added + [] == added;
    }

    /** getFileItems: the items stored under the converted name; null when
        there are none. */
    function GetFileItems(name: string): (r: Option<seq<FileItem>>)
      reads this, parameters
      ensures Valid() && r.Some? ==> |r.value| > 0
    {
      var k := VP.Convert(parameters.folding, name);
      if k in fileParameters then Some(fileParameters[k]) else None
    }

    /** getFileItem: the first item stored under the name, or null. */
    function GetFileItem(name: string): (r: Option<FileItem>)
      requires Valid()
      reads this, parameters
      ensures r.Some? <==> GetFileItems(name).Some?
      ensures r.Some? ==> r.value == GetFileItems(name).value[0]
    {
      match GetFileItems(name)
      case None => None
      case Some(items) => Some(items[0])
    }

    /** append(name, item): a new name gets a one-item array; otherwise the
        old items followed by the new one. No other name changes. */
    method AppendFileItem(name: string, item: FileItem)
      requires Valid()
      modifies this
      ensures Valid()
      ensures fileParameters == old(fileParameters)[VP.Convert(parameters.folding, name) := old(GetFileItems(name)).GetOr([]) + [item]]
      ensures GetFileItems(name) == Some(old(GetFileItems(name)).GetOr([]) + [item])
      ensures GetFileItem(name) == Some(old(GetFileItems(name)).GetOr([item])[0])
      ensures request == old(request) && uploadData == old(uploadData)
    {
      var items := GetFileItems(name);
      var k := VP.Convert(parameters.folding, name);
      match items {
        case None =>
          assert [] + [item] == [item];
          fileParameters := fileParameters[k := [item]];
        case Some(old_items) =>
          fileParameters := fileParameters[k := old_items + [item]];
      }
    }

    /** dispose: forgets the request, the upload data and the file items. */
    method Dispose()
      modifies this
      ensures Valid()
      ensures request.None? && uploadData.None? && fileParameters == map[]
    {
      request := None;
      uploadData := None;
      fileParameters := map[];
    }
  }
}
