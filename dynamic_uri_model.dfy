/** DynamicURIModel.exec: turns the argument list of a FreeMarker call
    into the parts of a DynamicURI (scheme, server, port, path info and
    query data). The rendering of the URI is not modelled. */
module DynamicURIModel {
  import opened Wrappers
  import opened Errors
  import opened JavaLang

  /** The argument that switches the remaining pairs to query data. */
  const QUERY_MARKER: string := "?"

  /** The path-info key the template is stored under. */
  const TEMPLATE_KEY: string := "template"

  type Pair = (string, string)

  /** What exec sets on the DynamicURI: None leaves the value the URI
      takes from the request. Path info and query data keep their order. */
  datatype Uri = Uri(scheme: Option<string>, serverName: Option<string>, port: Option<int>,
                     pathInfo: seq<Pair>, queryData: seq<Pair>)

  // ---------------------------------------------------------------------
  // The pairs after the template

  /** The pairs the arguments after the template add, as path info and as
      query data: arguments are taken two by two; a "?" where a pair would
      start is consumed and sends every later pair to the query data; a
      last argument without a partner adds nothing. */
  function Pairs(rest: seq<string>, queryData: bool): (r: (seq<Pair>, seq<Pair>))
    ensures queryData ==> r.0 == []
    decreases |rest|
  {
    if |rest| == 0 then ([], [])
    else if rest[0] == QUERY_MARKER then Pairs(rest[1..], true)
    else if |rest| == 1 then ([], [])
    else
      var tail := Pairs(rest[2..], queryData);
      if queryData then (tail.0, [(rest[0], rest[1])] + tail.1)
      else ([(rest[0], rest[1])] + tail.0, tail.1)
  }

  /** Argument i and i + 1 paired, for every even i below |args| - 1. */
  function PairUp(args: seq<string>): (r: seq<Pair>)
    ensures |r| == |args| / 2
    ensures forall k :: 0 <= k < |r| ==> r[k] == (args[2 * k], args[2 * k + 1])
    decreases |args|
  {
    if |args| < 2 then [] else [(args[0], args[1])] + PairUp(args[2..])
  }

  /** Without a "?" the arguments are paired in order, the pairs go to the
      path info (or all to the query data once switched), and a trailing
      unpaired argument is dropped. */
  lemma {:induction false} PairsWithoutMarker(rest: seq<string>, queryData: bool)
    requires QUERY_MARKER !in rest
    ensures Pairs(rest, queryData) == if queryData then ([], PairUp(rest)) else (PairUp(rest), [])
    decreases |rest|
  {
    if |rest| >= 2 {
      assert rest[0] in rest;
      assert forall x :: x in rest[2..] ==> x in rest;
      PairsWithoutMarker(rest[2..], queryData);
    } else if |rest| == 1 {
      assert rest[0] in rest;
    }
  }

  /** A "?" where a pair would start sends every later pair to the query
      data. */
  lemma QueryMarkerSwitches(rest: seq<string>, queryData: bool)
    ensures Pairs([QUERY_MARKER] + rest, queryData) == ([], Pairs(rest, true).1)
  {
    assert ([QUERY_MARKER] + rest)[1..] == rest;
  }

  /** A "?" in the second place of a pair is an ordinary value. */
  lemma MarkerAsValue(name: string, rest: seq<string>)
    requires name != QUERY_MARKER
    ensures Pairs([name, QUERY_MARKER] + rest, false).0 == [(name, QUERY_MARKER)] + Pairs(rest, false).0
  {
    assert ([name, QUERY_MARKER] + rest)[2..] == rest;
  }

  /** The state of the pair loop. */
  datatype PairState = PairState(firstOfPair: bool, queryData: bool, first: string,
                                 pathInfo: seq<Pair>, queryPairs: seq<Pair>)

  /** One iteration of the pair loop on one argument. */
  function Step(st: PairState, arg: string): PairState
  {
    if st.firstOfPair then
      if arg == QUERY_MARKER then st.(queryData := true)
      else st.(first := arg, firstOfPair := false)
    else if st.queryData then st.(queryPairs := st.queryPairs + [(st.first, arg)], firstOfPair := true)
    else st.(pathInfo := st.pathInfo + [(st.first, arg)], firstOfPair := true)
  }

  /** The loop's state after it has consumed args. */
  ghost function Fold(st: PairState, args: seq<string>): PairState
    decreases |args|
  {
    if |args| == 0 then st else Fold(Step(st, args[0]), args[1..])
  }

  /** Started at the beginning of a pair, the loop appends exactly the
      pairs Pairs describes. */
  lemma {:induction false} FoldPairs(rest: seq<string>, queryData: bool, first: string,
                                     path: seq<Pair>, query: seq<Pair>)
    ensures var st := Fold(PairState(true, queryData, first, path, query), rest);
      st.pathInfo == path + Pairs(rest, queryData).0 && st.queryPairs == query + Pairs(rest, queryData).1
    decreases |rest|
  {
    var st := PairState(true, queryData, first, path, query);
    if |rest| == 0 {
      assert path + [] == path && query + [] == query;
    } else if rest[0] == QUERY_MARKER {
      FoldPairs(rest[1..], true, first, path, query);
    } else if |rest| == 1 {
      assert Fold(st, rest) == Fold(Step(st, rest[0]), []);
      assert path + [] == path && query + [] == query;
    } else {
      var pair := (rest[0], rest[1]);
      var st2 := Step(Step(st, rest[0]), rest[1]);
      assert rest[1..][0] == rest[1] && rest[1..][1..] == rest[2..];
      assert Fold(st, rest) == Fold(st2, rest[2..]);
      var tail := Pairs(rest[2..], queryData);
      FoldPairs(rest[2..], queryData, rest[0], st2.pathInfo, st2.queryPairs);
      if queryData {
        assert query + [pair] + tail.1 == query + ([pair] + tail.1);
      } else {
        assert path + [pair] + tail.0 == path + ([pair] + tail.0);
      }
    }
  }

  // ---------------------------------------------------------------------
  // exec

  /** Scheme, server name and port as exec reads them from a first
      argument starting with "http". */
  type Server = (Option<string>, Option<string>, Option<int>)

  /** The server part of "http..." up to the first ':' (the scheme), from
      three chars after it (past "//") to a second ':' or the end (the
      server name), and after the second ':' (the port); the exception
      thrown by substring or parseInt. */
  function ServerOf(firstArg: string): Result<Server, Error>
  {
    var colon := IndexOf(firstArg, ':');
    if colon == -1 then Success((Some(firstArg), None, None))
    else
      var second := IndexOfFrom(firstArg, ':', colon + 1);
      if second == -1 then
        if colon + 3 > |firstArg| then Failure(IndexOutOfBounds(colon + 3))
        else Success((Some(firstArg[..colon]), Some(firstArg[colon + 3..]), None))
      else if colon + 3 > second then Failure(IndexOutOfBounds(colon + 3))
      else WithPort(firstArg, colon, second)
  }

  /** The server part with a port after the second ':', or the
      NumberFormatException of parseInt. */
  function WithPort(a: string, colon: nat, second: nat): Result<Server, Error>
    requires colon + 3 <= second < |a|
  {
    match ParseInRange(a[second + 1..], 10, INT_MIN, INT_MAX)
    case None => Failure(NumberFormatException)
    case Some(port) => Success((Some(a[..colon]), Some(a[colon + 3..second]), Some(port)))
  }

  /** The head of exec: the URI before the pairs, and the index the pairs
      start at; the exception thrown by args.get, substring or parseInt. */
  function Head(args: seq<string>): (r: Result<(Uri, nat), Error>)
    ensures r.Success? ==> r.value.1 <= |args|
  {
    if |args| == 0 then Failure(IndexOutOfBounds(0))
    else if StartsWith(args[0], "http") then
      match ServerOf(args[0])
      case Failure(e) => Failure(e)
      case Success(s) =>
        if |args| < 2 then Failure(IndexOutOfBounds(1))
        else Success((Uri(s.0, s.1, s.2, [(TEMPLATE_KEY, args[1])], []), 2))
    else Success((Uri(None, None, None, [(TEMPLATE_KEY, ReplaceChar(args[0], '/', ','))], []), 1))
  }

  /** Two ':' far enough apart give scheme, server name and port, or a
      NumberFormatException for a port that is not an int. */
  lemma ServerWithPort(a: string, colon: int, second: int)
    requires IndexOf(a, ':') == colon >= 0 && IndexOfFrom(a, ':', colon + 1) == second >= colon + 3
    ensures ServerOf(a) == WithPort(a, colon, second)
  {
  }

  /** With a server part, the template is the second argument and the
      pairs start at the third. */
  lemma ExecWithServerPart(args: seq<string>, s: Server)
    requires |args| >= 2 && StartsWith(args[0], "http") && ServerOf(args[0]) == Success(s)
    ensures Exec(args) == Success(Uri(s.0, s.1, s.2,
                                      [(TEMPLATE_KEY, args[1])] + Pairs(args[2..], false).0, Pairs(args[2..], false).1))
  {
  }

  /** What exec sets on the URI, or the exception it throws. */
  function Exec(args: seq<string>): Result<Uri, Error>
  {
    match Head(args)
    case Failure(e) => Failure(e)
    case Success((uri, start)) =>
      var pairs := Pairs(args[start..], false);
      Success(uri.(pathInfo := uri.pathInfo + pairs.0, queryData := pairs.1))
  }

  /** A first argument "http..." without a ':' is the scheme; the template
      is the second argument and the pairs start at the third. */
  lemma ExecSchemeOnly(args: seq<string>)
    requires |args| >= 2 && StartsWith(args[0], "http") && ':' !in args[0]
    ensures Exec(args) == Success(Uri(Some(args[0]), None, None,
                                      [(TEMPLATE_KEY, args[1])] + Pairs(args[2..], false).0, Pairs(args[2..], false).1))
  {
    ExecWithServerPart(args, (Some(args[0]), None, None));
  }

  /** With a ':' the scheme is the text before it and the server name
      runs from three chars after it (past "//") to the end when there is
      no second ':'. */
  lemma ExecWithServer(args: seq<string>, colon: nat)
    requires |args| >= 2 && StartsWith(args[0], "http")
    requires colon < |args[0]| && args[0][colon] == ':' && ':' !in args[0][..colon]
    requires colon + 3 <= |args[0]| && ':' !in args[0][colon + 1..]
    ensures Exec(args) == Success(Uri(Some(args[0][..colon]), Some(args[0][colon + 3..]), None,
                                      [(TEMPLATE_KEY, args[1])] + Pairs(args[2..], false).0, Pairs(args[2..], false).1))
  {
    var a := args[0];
    assert IndexOf(a, ':') == colon;
    assert IndexOfFrom(a, ':', colon + 1) == -1;
    assert ServerOf(a) == Success((Some(a[..colon]), Some(a[colon + 3..]), None));
    ExecWithServerPart(args, (Some(a[..colon]), Some(a[colon + 3..]), None));
  }

  /** With a second ':' the server name ends there and the text after it
      must be an int: the port, or a NumberFormatException. */
  lemma ExecWithPort(args: seq<string>, colon: nat, second: nat)
    requires |args| >= 2 && StartsWith(args[0], "http")
    requires colon + 3 <= second < |args[0]| && args[0][colon] == ':' && args[0][second] == ':'
    requires ':' !in args[0][..colon] && ':' !in args[0][colon + 1..second]
    ensures var a := args[0];
      var port := ParseInRange(a[second + 1..], 10, INT_MIN, INT_MAX);
      Exec(args) == if port.None? then Failure(NumberFormatException)
        else Success(Uri(Some(a[..colon]), Some(a[colon + 3..second]), port,
                         [(TEMPLATE_KEY, args[1])] + Pairs(args[2..], false).0, Pairs(args[2..], false).1))
  {
    var a := args[0];
    assert IndexOf(a, ':') == colon;
    assert IndexOfFrom(a, ':', colon + 1) == second;
    ServerWithPort(a, colon, second);
    ExecWithPortPart(args, colon, second);
  }

  /** ExecWithPort once the server part is known to be WithPort's. */
  lemma ExecWithPortPart(args: seq<string>, colon: nat, second: nat)
    requires |args| >= 2 && StartsWith(args[0], "http")
    requires colon + 3 <= second < |args[0]| && ServerOf(args[0]) == WithPort(args[0], colon, second)
    ensures var a := args[0];
      var port := ParseInRange(a[second + 1..], 10, INT_MIN, INT_MAX);
      Exec(args) == if port.None? then Failure(NumberFormatException)
        else Success(Uri(Some(a[..colon]), Some(a[colon + 3..second]), port,
                         [(TEMPLATE_KEY, args[1])] + Pairs(args[2..], false).0, Pairs(args[2..], false).1))
  {
    var a := args[0];
    match ParseInRange(a[second + 1..], 10, INT_MIN, INT_MAX)
    case None =>
    case Some(p) =>
      ExecWithServerPart(args, (Some(a[..colon]), Some(a[colon + 3..second]), Some(p)));
  }

  /** A server part too short to hold "//" after the ':' makes substring
      throw. */
  lemma ExecShortServer(args: seq<string>, colon: nat)
    requires |args| >= 1 && StartsWith(args[0], "http")
    requires colon < |args[0]| && args[0][colon] == ':' && ':' !in args[0][..colon]
    requires colon + 3 > |args[0]|
    ensures Exec(args) == Failure(IndexOutOfBounds(colon + 3))
  {
    assert IndexOf(args[0], ':') == colon;
    var second := IndexOfFrom(args[0], ':', colon + 1);
    assert second == -1 || colon + 3 > second;
    assert ServerOf(args[0]) == Failure(IndexOutOfBounds(colon + 3));
  }

  /** Any other first argument is the template with each '/' made ','; the
      pairs start at the second argument and the server is left alone. */
  lemma ExecTemplateOnly(args: seq<string>)
    requires |args| >= 1 && !StartsWith(args[0], "http")
    ensures Exec(args) == Success(Uri(None, None, None,
                                      [(TEMPLATE_KEY, ReplaceChar(args[0], '/', ','))] + Pairs(args[1..], false).0,
                                      Pairs(args[1..], false).1))
  {
  }

  /** The exceptions of args.get: no argument at all, or "http..." with
      no template after it. */
  lemma ExecMissingArguments(args: seq<string>)
    ensures |args| == 0 ==> Exec(args) == Failure(IndexOutOfBounds(0))
    ensures |args| == 1 && StartsWith(args[0], "http") && ':' !in args[0] ==> Exec(args) == Failure(IndexOutOfBounds(1))
  {
  }

  /** Five arguments after the template: the first two form a pair; the
      third either is "?", which sends the last two to the query data, or
      pairs with the fourth, and the fifth is then left without a partner. */
  lemma FivePairArgs(x: string, y: string, m: string, u: string, v: string)
    requires x != QUERY_MARKER && u != QUERY_MARKER && v != QUERY_MARKER
    ensures Pairs([x, y, m, u, v], false)
      == if m == QUERY_MARKER then ([(x, y)], [(u, v)]) else ([(x, y), (m, u)], [])
  {
    var rest := [x, y, m, u, v];
    assert rest[2..] == [m, u, v] && [m, u, v][1..] == [u, v] && [m, u, v][2..] == [v];
    assert [u, v][2..] == [] && [v][1..] == [];
    var tail := Pairs([m, u, v], false);
    assert Pairs(rest, false) == ([(x, y)] + tail.0, tail.1);
    if m == QUERY_MARKER {
      assert tail == Pairs([u, v], true);
      assert Pairs([u, v], true) == ([], [(u, v)] + Pairs([], true).1);
      assert [(x, y)] + [] == [(x, y)] && [(u, v)] + [] == [(u, v)];
    } else {
      assert Pairs([v], false) == ([], []);
      assert tail == ([(m, u)] + Pairs([v], false).0, Pairs([v], false).1);
      assert [(x, y)] + ([(m, u)] + []) == [(x, y), (m, u)];
    }
  }

  /** The documented call links("http", t, "from", "LA", "&", "to", "SF"):
      as written, "&" does not switch to query data, so "&" and "to" form a
      path-info pair and the trailing "SF" is dropped. */
  lemma DocExampleAsWritten(t: string)
    ensures Exec(["http", t, "from", "LA", "&", "to", "SF"])
      == Success(Uri(Some("http"), None, None, [(TEMPLATE_KEY, t), ("from", "LA"), ("&", "to")], []))
  {
    var args := ["http", t, "from", "LA", "&", "to", "SF"];
    assert args[2..] == ["from", "LA", "&", "to", "SF"];
    DocExamplePairs("&");
    assert StartsWith("http", "http") && ':' !in "http";
    ExecSchemeOnly(args);
    assert [(TEMPLATE_KEY, t)] + [("from", "LA"), ("&", "to")] == [(TEMPLATE_KEY, t), ("from", "LA"), ("&", "to")];
  }

  /** The same call with "?", the marker the code reads: "to" and "SF"
      become query data. */
  lemma DocExampleWithMarker(t: string)
    ensures Exec(["http", t, "from", "LA", QUERY_MARKER, "to", "SF"])
      == Success(Uri(Some("http"), None, None, [(TEMPLATE_KEY, t), ("from", "LA")], [("to", "SF")]))
  {
    var args := ["http", t, "from", "LA", QUERY_MARKER, "to", "SF"];
    assert args[2..] == ["from", "LA", QUERY_MARKER, "to", "SF"];
    DocExamplePairs(QUERY_MARKER);
    assert StartsWith("http", "http") && ':' !in "http";
    ExecSchemeOnly(args);
    assert [(TEMPLATE_KEY, t)] + [("from", "LA")] == [(TEMPLATE_KEY, t), ("from", "LA")];
  }

  /** The pairs of the documented call. */
  lemma DocExamplePairs(marker: string)
    requires marker == "&" || marker == QUERY_MARKER
    ensures Pairs(["from", "LA", marker, "to", "SF"], false)
      == if marker == "&" then ([("from", "LA"), ("&", "to")], []) else ([("from", "LA")], [("to", "SF")])
  {
    assert "&" != QUERY_MARKER by { assert "&"[0] != QUERY_MARKER[0]; }
    assert "from" != QUERY_MARKER && "to" != QUERY_MARKER && "SF" != QUERY_MARKER by { assert |QUERY_MARKER| == 1; }
    FivePairArgs("from", "LA", marker, "to", "SF");
  }

  /** exec as written: sets the head of the URI, then loops over the
      remaining arguments with the firstOfPair and queryData flags. */
  method ExecLoop(args: seq<string>) returns (r: Result<Uri, Error>)
    ensures r == Exec(args)
  {
    var head := Head(args);
    if head.Failure? {
      return Failure(head.error);
    }
    var uri := head.value.0;
    var start := head.value.1;
    var firstOfPair := true;
    var queryData := false;
    var first := "";
    var path := uri.pathInfo;
    var query: seq<Pair> := [];
    ghost var init := PairState(true, false, "", path, query);
    var i := start;
    while i < |args|
      invariant start <= i <= |args|
      invariant Fold(PairState(firstOfPair, queryData, first, path, query), args[i..]) == Fold(init, args[start..])
    {
      ghost var before := PairState(firstOfPair, queryData, first, path, query);
      var tempArg := args[i];
      if firstOfPair {
        if tempArg == QUERY_MARKER {
          queryData := true;
        } else {
          first := tempArg;
          firstOfPair := false;
        }
      } else {
        if queryData {
          query := query + [(first, tempArg)];
        } else {
          path := path + [(first, tempArg)];
        }
        firstOfPair := true;
      }
      assert PairState(firstOfPair, queryData, first, path, query) == Step(before, tempArg);
      assert args[i..][1..] == args[i + 1..];
      i := i + 1;
    }
    FoldPairs(args[start..], false, "", uri.pathInfo, []);
    assert args[i..] == [];
    ghost var last := PairState(firstOfPair, queryData, first, path, query);
    assert Fold(last, []) == last;
    assert path == uri.pathInfo + Pairs(args[start..], false).0;
    assert query == Pairs(args[start..], false).1;
    r := Success(uri.(pathInfo := path, queryData := query));
  }
}
