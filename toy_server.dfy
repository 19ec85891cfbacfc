/** The prototype server of test/cpp/main.cpp: exact-match routing to two
    fixed handlers, a request reader that splits the request line and the
    header lines, and a serialiser whose status line always says "OK". */
module ToyServer {
  import opened TextUtil
  import opened KeyOrder
  import HttpResponse

  // ---------------------------------------------------------------------------
  // Requests

  /** `HttpRequest`: the body is never filled from the text read here (it
      comes from a second `recv`, which is not part of this model). */
  datatype Request = Request(verb: string, path: string, body: string, headers: map<string, string>)

  /** The header loop `while (getline(ss, line) && line != "\r")` from
      `pos`: a line with a ':' is filed under the text before its first ':'
      with everything after it as the value; a line without ':' is skipped. */
  function HeaderLoop(s: string, pos: nat, h: map<string, string>): map<string, string>
    decreases |s| - pos
  {
    match GetLine(s, pos, '\n')
    case None => h
    case Some(l) =>
      if l.text == "\r" then h
      else
        match FindChar(l.text, ':', 0)
        case None => HeaderLoop(s, l.next, h)
        case Some(c) => HeaderLoop(s, l.next, h[l.text[..c] := l.text[c + 1..]])
  }

  /** `parseRequest` on the text one `recv` returned: the first two words
      of the first line are the method and the path (a missing word leaves
      ""), then the header loop. No text at all gives an empty request. */
  function ParseRequest(s: string): Request
  {
    match GetLine(s, 0, '\n')
    case None => Request("", "", "", map[])
    case Some(first) =>
      var ws := Words(first.text);
      Request(WordOr(ws, 0, ""), WordOr(ws, 1, ""), "", HeaderLoop(s, first.next, map[]))
  }

  /** `parseRequest`, the loop written out. */
  method ReadRequest(s: string) returns (r: Request)
    ensures r == ParseRequest(s)
  {
    var first := GetLine(s, 0, '\n');
    if first.None? {
      return Request("", "", "", map[]);
    }
    var ws := Words(first.value.text);
    var headers: map<string, string> := map[];
    var pos := first.value.next;
    var stop := false;
    while !stop
      invariant pos <= |s|
      invariant !stop ==> HeaderLoop(s, pos, headers) == HeaderLoop(s, first.value.next, map[])
      invariant stop ==> headers == HeaderLoop(s, first.value.next, map[])
      decreases |s| - pos, if stop then 0 else 1
    {
      var line := GetLine(s, pos, '\n');
      if line.None? || line.value.text == "\r" {
        stop := true;
      } else {
        var c := FindChar(line.value.text, ':', 0);
        if c.Some? {
          var t := line.value.text;
          headers := headers[t[..c.value] := t[c.value + 1..]];
        }
        pos := line.value.next;
      }
    }
    r := Request(WordOr(ws, 0, ""), WordOr(ws, 1, ""), "", headers);
  }

  /** A line of a header block as a client sends it: a field, or a line
      without ':' (which the loop skips). */
  datatype HeaderInput = Field(key: string, value: string) | Junk(text: string)

  /** One header input well-formed for this reader: no line feed inside
      it, no ':' in a key or in a junk line, and no junk line equal to "\r". */
  predicate Readable(x: HeaderInput)
  {
    match x
    case Field(k, v) => ':' !in k && '\n' !in k && '\n' !in v
    case Junk(t) => ':' !in t && '\n' !in t && t != "\r"
  }

  function InputLine(x: HeaderInput): string
  {
    match x
    case Field(k, v) => k + ":" + v
    case Junk(t) => t
  }

  /** The header lines, each ended by '\n'. */
  function InputLines(xs: seq<HeaderInput>): string
  {
    if xs == [] then [] else InputLine(xs[0]) + "\n" + InputLines(xs[1..])
  }

  /** The map after filing the fields of `xs` in order onto `h`. */
  function Filed(h: map<string, string>, xs: seq<HeaderInput>): map<string, string>
    decreases |xs|
  {
    if xs == [] then h
    else Filed(if xs[0].Field? then h[xs[0].key := xs[0].value] else h, xs[1..])
  }

  predicate AllReadable(xs: seq<HeaderInput>)
  {
    forall i :: 0 <= i < |xs| ==> Readable(xs[i])
  }

  /** A readable input's line holds no line feed. */
  lemma LineHasNoFeed(x: HeaderInput)
    requires Readable(x)
    ensures '\n' !in InputLine(x)
  {
    match x
    case Junk(t) =>
    case Field(k, v) =>
      var line := k + ":" + v;
      forall i | 0 <= i < |line| ensures line[i] != '\n' {
        if i < |k| { assert line[i] == k[i]; }
        else if i > |k| { assert line[i] == v[i - |k| - 1]; }
      }
  }

  /** The loop's first ':' in a readable input's line: right after the key
      of a field, nowhere in a junk line. */
  lemma LineColon(x: HeaderInput)
    requires Readable(x)
    ensures x.Junk? ==> FindChar(InputLine(x), ':', 0) == None
    ensures x.Field? ==> FindChar(InputLine(x), ':', 0) == Some(|x.key|)
    ensures x.Field? ==> InputLine(x)[..|x.key|] == x.key && InputLine(x)[|x.key| + 1..] == x.value
  {
    var line := InputLine(x);
    match x
    case Junk(t) =>
      FindCharSpec(line, ':', 0);
    case Field(k, v) =>
      forall j | 0 <= j < |k| ensures line[j] != ':' {
        assert line[j] == k[j];
      }
      FindCharAt(line, ':', 0, |k|);
      assert line[..|k|] == k && line[|k| + 1..] == v;
  }

  /** A readable input's line, followed by '\n', is what `getline` reads. */
  lemma LineAt(s: string, pos: nat, x: HeaderInput, tail: string)
    requires Readable(x)
    requires pos <= |s| && s[pos..] == InputLine(x) + "\n" + tail
    ensures pos + |InputLine(x)| + 1 <= |s|
    ensures s[pos + |InputLine(x)| + 1..] == tail
    ensures GetLine(s, pos, '\n') == Some(Line(InputLine(x), pos + |InputLine(x)| + 1, false))
  {
    var line := InputLine(x);
    SplitRest(s, pos, line + "\n", tail);
    LineHasNoFeed(x);
    HttpResponse.GetLineAt(s, pos, line, '\n');
  }

  /** One turn of the header loop over a readable input's line. */
  lemma HeaderLoopStep(s: string, pos: nat, x: HeaderInput, next: nat, h: map<string, string>)
    requires Readable(x)
    requires GetLine(s, pos, '\n') == Some(Line(InputLine(x), next, false))
    ensures HeaderLoop(s, pos, h) == HeaderLoop(s, next, if x.Field? then h[x.key := x.value] else h)
  {
    LineColon(x);
    if x.Field? {
      assert InputLine(x)[|x.key|] == ':';
    }
  }

  /** The loop stops at the blank line "\r\n". */
  lemma HeaderLoopEnd(s: string, pos: nat, h: map<string, string>, rest: string)
    requires pos <= |s| && s[pos..] == "\r\n" + rest
    ensures HeaderLoop(s, pos, h) == h
  {
    SplitRest(s, pos, "\r\n", rest);
    assert s[pos..pos + 2] == "\r" + "\n";
    HttpResponse.GetLineAt(s, pos, "\r", '\n');
  }

  /** The first of the header lines is what `getline` reads; the others
      follow it. */
  lemma FirstLineAt(s: string, pos: nat, xs: seq<HeaderInput>, rest: string) returns (next: nat)
    requires xs != [] && AllReadable(xs)
    requires pos <= |s| && s[pos..] == InputLines(xs) + "\r\n" + rest
    ensures Readable(xs[0]) && AllReadable(xs[1..])
    ensures GetLine(s, pos, '\n') == Some(Line(InputLine(xs[0]), next, false))
    ensures next <= |s| && s[next..] == InputLines(xs[1..]) + "\r\n" + rest
  {
    InputLinesCons(xs, rest);
    AllReadableTail(xs);
    LineAt(s, pos, xs[0], InputLines(xs[1..]) + "\r\n" + rest);
    next := pos + |InputLine(xs[0])| + 1;
  }

  lemma InputLinesCons(xs: seq<HeaderInput>, rest: string)
    requires xs != []
    ensures InputLines(xs) + "\r\n" + rest == InputLine(xs[0]) + "\n" + (InputLines(xs[1..]) + "\r\n" + rest)
  {
  }

  lemma AllReadableTail(xs: seq<HeaderInput>)
    requires xs != [] && AllReadable(xs)
    ensures Readable(xs[0]) && AllReadable(xs[1..])
  {
    forall i | 0 <= i < |xs| - 1 ensures Readable(xs[1..][i]) {
      assert xs[1..][i] == xs[i + 1];
    }
  }

  /** Header lines followed by the blank line "\r\n": the loop files every
      field under its key, the value being all the text after the first
      ':' (a CRLF request keeps the leading space and the trailing '\r'), a
      later field overwriting an earlier one with the same key, skips every
      line without ':', and stops at the blank line whatever follows. */
  lemma {:induction false} HeaderLoopReads(s: string, pos: nat, xs: seq<HeaderInput>,
                                           h: map<string, string>, rest: string)
    requires AllReadable(xs)
    requires pos <= |s| && s[pos..] == InputLines(xs) + "\r\n" + rest
    ensures HeaderLoop(s, pos, h) == Filed(h, xs)
    decreases |xs|
  {
    if xs == [] {
      HeaderLoopEnd(s, pos, h, rest);
    } else {
      var next := FirstLineAt(s, pos, xs, rest);
      HeaderLoopStep(s, pos, xs[0], next, h);
      var h' := if xs[0].Field? then h[xs[0].key := xs[0].value] else h;
      HeaderLoopReads(s, next, xs[1..], h', rest);
    }
  }

  /** A single "Key: value" header sent with CRLF line ends is stored
      with the space after the ':' and the carriage return still in its
      value. */
  lemma CrlfHeaderValue(s: string, pos: nat, k: string, v: string, rest: string)
    requires ':' !in k && '\n' !in k && '\n' !in v
    requires pos <= |s| && s[pos..] == k + ": " + v + "\r\n\r\n" + rest
    ensures HeaderLoop(s, pos, map[]) == map[k := " " + v + "\r"]
  {
    var x := Field(k, " " + v + "\r");
    assert '\n' !in " " + v + "\r" by {
      var w := " " + v + "\r";
      forall i | 0 <= i < |w| ensures w[i] != '\n' {
        if 0 < i < |w| - 1 { assert w[i] == v[i - 1]; }
      }
    }
    assert Readable(x);
    assert AllReadable([x]);
    assert InputLines([x]) == k + ":" + (" " + v + "\r") + "\n" + [] by {
      assert [x][1..] == [];
    }
    assert s[pos..] == InputLines([x]) + "\r\n" + rest;
    HeaderLoopReads(s, pos, [x], map[], rest);
    assert [x][1..] == [];
  }

  /** The request line "METHOD SP PATH SP VERSION\r" gives the method and
      the path. */
  lemma RequestLineRead(m: string, p: string, v: string, rest: string)
    requires m != [] && NoSpace(m) && p != [] && NoSpace(p) && v != [] && NoSpace(v)
    ensures var r := ParseRequest(m + " " + p + " " + v + "\r\n" + rest);
      r.verb == m && r.path == p
  {
    var line := m + " " + p + " " + v + "\r";
    var s := line + "\n" + rest;
    assert s == m + " " + p + " " + v + "\r\n" + rest;
    assert '\n' !in line by {
      forall i | 0 <= i < |line| ensures line[i] != '\n' {
        if i < |m| { assert line[i] == m[i]; assert !IsSpace(m[i]); }
        else if i == |m| {}
        else if i < |m| + 1 + |p| { assert line[i] == p[i - |m| - 1]; assert !IsSpace(p[i - |m| - 1]); }
        else if i == |m| + 1 + |p| {}
        else if i < |line| - 1 { assert line[i] == v[i - |m| - |p| - 2]; assert !IsSpace(v[i - |m| - |p| - 2]); }
      }
    }
    assert s[0..|line| + 1] == line + "\n";
    HttpResponse.GetLineAt(s, 0, line, '\n');
    WordsOfRequestLine(m, p, v);
  }

  /** The words of "METHOD SP PATH SP VERSION\r". */
  lemma WordsOfRequestLine(m: string, p: string, v: string)
    requires m != [] && NoSpace(m) && p != [] && NoSpace(p) && v != [] && NoSpace(v)
    ensures Words(m + " " + p + " " + v + "\r") == [m, p, v]
  {
    assert m + " " + p + " " + v + "\r" == m + [' '] + (p + [' '] + (v + "\r"));
    WordsCons(m, p + [' '] + (v + "\r"));
    WordsCons(p, v + "\r");
    TokenLenOf(v, "\r");
    var t := v + "\r";
    assert t[..|v|] == v && t[|v|..] == "\r";
    assert Words("\r") == Words([]);
  }

  // ---------------------------------------------------------------------------
  // Responses and handlers

  /** The two handlers the program defines. */
  datatype Handler = HelloWorld | NotFound

  /** The fields of an `HttpResponse`; `status` is None while it holds the
      indeterminate value of a default-initialised `int`. */
  datatype Reply = Reply(status: Option<int>, body: string, headers: map<string, string>)

  /** What a handler leaves in a response. */
  function Handle(h: Handler, r: Reply): Reply
  {
    match h
    case HelloWorld => Reply(Some(200), "Hello, World!", r.headers["Content-Type" := "text/plain"])
    case NotFound => Reply(Some(404), "Not Found", r.headers["Content-Type" := "text/plain"])
  }

  /** `handleClient` without its I/O: the response starts with the Server
      header; the handler routed at exactly the request path fills it, and
      `NotFoundHandler` does when no route matches. */
  function Route(routes: map<string, Handler>, path: string): Reply
  {
    var r := Reply(None, "", map["Server" := "CustomHTTPServer"]);
    if path in routes then Handle(routes[path], r) else Handle(NotFound, r)
  }

  /** Every response carries exactly the Server and Content-Type headers and
      a status; it is "Hello, World!" with 200 exactly when the path is
      routed to the hello handler, and "Not Found" with 404 otherwise. */
  lemma RouteSpec(routes: map<string, Handler>, path: string)
    ensures var r := Route(routes, path);
      && r.headers == map["Server" := "CustomHTTPServer", "Content-Type" := "text/plain"]
      && r.status.Some?
      && (r.status == Some(200) <==> path in routes && routes[path] == HelloWorld)
      && (r.status == Some(200) ==> r.body == "Hello, World!")
      && (r.status != Some(200) ==> r.status == Some(404) && r.body == "Not Found")
  {
  }

  /** `ss << status` for an `int`. */
  function IntText(i: int): string
  {
    if i < 0 then "-" + Decimal(-i) else Decimal(i)
  }

  /** The bytes `sendResponse` sends: a status line that always says "OK",
      the headers in key order, the blank line, and the body when non-empty. */
  ghost function Serialised(status: int, headers: map<string, string>, body: string): string
  {
    "HTTP/1.1 " + IntText(status) + " OK\r\n" + HeaderBlock(headers) + "\r\n" + (if body != [] then body else [])
  }

  /** The headers every response of this server carries. */
  const ReplyHeaders: map<string, string> := map["Server" := "CustomHTTPServer", "Content-Type" := "text/plain"]

  /** Content-Type sorts before Server. */
  lemma ReplyHeadersOrder()
    ensures SortedKeys(ReplyHeaders.Keys) == ["Content-Type", "Server"]
  {
    var keys := ReplyHeaders.Keys;
    assert keys == {"Content-Type", "Server"};
    assert "Content-Type"[0] == 'C' && "Server"[0] == 'S';
    assert LexLess("Content-Type", "Server");
    assert IsLeast("Content-Type", keys);
    SortedKeysStep(keys, "Content-Type");
    assert keys - {"Content-Type"} == {"Server"};
    SortedKeysStep({"Server"}, "Server");
    assert {"Server"} - {"Server"} == {};
  }

  /** They are sent Content-Type first. */
  lemma ReplyHeadersBlock()
    ensures HeaderBlock(ReplyHeaders)
      == HeaderLine("Content-Type", "text/plain") + HeaderLine("Server", "CustomHTTPServer")
  {
    var m := ReplyHeaders;
    ReplyHeadersOrder();
    var keys := ["Content-Type", "Server"];
    assert keys[1..] == ["Server"];
    assert "Content-Type" in m && m["Content-Type"] == "text/plain";
    assert "Server" in m && m["Server"] == "CustomHTTPServer";
    assert ["Server"][1..] == [];
    assert HeaderLines(["Server"], m) == HeaderLine("Server", "CustomHTTPServer");
    assert HeaderLines(keys, m) == HeaderLine("Content-Type", "text/plain") + HeaderLines(["Server"], m);
  }

  /** What a request for an unrouted path receives, byte for byte: a 404
      whose status line still reads "OK". */
  lemma NotFoundWire(routes: map<string, Handler>, path: string)
    requires path !in routes
    ensures var r := Route(routes, path);
      Serialised(r.status.value, r.headers, r.body)
      == "HTTP/1.1 " + "404" + " OK\r\n"
         + (HeaderLine("Content-Type", "text/plain") + HeaderLine("Server", "CustomHTTPServer"))
         + "\r\n" + "Not Found"
  {
    assert Route(routes, path) == Reply(Some(404), "Not Found", ReplyHeaders);
    IntText404();
    ReplyHeadersBlock();
    SerialisedOf(404, ReplyHeaders, "Not Found", "404",
                 HeaderLine("Content-Type", "text/plain") + HeaderLine("Server", "CustomHTTPServer"));
  }

  lemma IntText404()
    ensures IntText(404) == "404"
  {
    DecimalAppend(4, 0);
    DecimalAppend(40, 4);
  }

  /** The serialised form from the spelling of the status and the header block. */
  lemma SerialisedOf(status: int, headers: map<string, string>, body: string, text: string, block: string)
    requires IntText(status) == text && HeaderBlock(headers) == block && body != []
    ensures Serialised(status, headers, body) == "HTTP/1.1 " + text + " OK\r\n" + block + "\r\n" + body
  {
  }

  class Response {
    var status: Option<int>
    var body: string
    var headers: map<string, string>

    function Value(): Reply
      reads this
    {
      Reply(status, body, headers)
    }

    /** A default-constructed response: indeterminate status, nothing else. */
    constructor ()
      ensures Value() == Reply(None, "", map[])
    {
      status, body, headers := None, "", map[];
    }

    method SetHeader(key: string, value: string)
      modifies this`headers
      ensures headers == old(headers)[key := value]
    {
      headers := headers[key := value];
    }

    /** `HelloWorldHandler::handleRequest`. */
    method HelloWorldHandler()
      modifies this
      ensures Value() == Handle(HelloWorld, old(Value()))
    {
      status := Some(200);
      body := "Hello, World!";
      headers := headers["Content-Type" := "text/plain"];
    }

    /** `NotFoundHandler::handleRequest`. */
    method NotFoundHandler()
      modifies this
      ensures Value() == Handle(NotFound, old(Value()))
    {
      status := Some(404);
      body := "Not Found";
      headers := headers["Content-Type" := "text/plain"];
    }
  }

  /** `sendResponse` without the `send`: the bytes it would write. */
  method SendResponse(status: int, headers: map<string, string>, body: string) returns (out: string)
    ensures out == Serialised(status, headers, body)
  {
    out := "HTTP/1.1 " + IntText(status) + " OK\r\n";
    ghost var start := out;
    var remaining := headers.Keys;
    ghost var done: seq<string> := [];
    while remaining != {}
      invariant remaining <= headers.Keys
      invariant SortedKeys(headers.Keys) == done + SortedKeys(remaining)
      invariant out == start + HeaderLines(done, headers)
      decreases |remaining|
    {
      LeastExists(remaining);
      var k :| IsLeast(k, remaining);
      HttpResponse.HeaderBlockStep(headers, done, remaining, k);
      out := out + HeaderLine(k, headers[k]);
      done := done + [k];
      remaining := remaining - {k};
    }
    assert SortedKeys(remaining) == [];
    assert done == SortedKeys(headers.Keys);
    out := out + "\r\n";
    if body != [] {
      out := out + body;
    }
  }

  class HttpServer {
    var port: int
    var routes: map<string, Handler>

    constructor (p: int)
      ensures port == p && routes == map[]
    {
      port, routes := p, map[];
    }

    /** `addRoute`: the last handler added for a path wins. */
    method AddRoute(path: string, handler: Handler)
      modifies this`routes
      ensures routes == old(routes)[path := handler]
    {
      routes := routes[path := handler];
    }

    /** `handleClient` on the text one `recv` returned: parse it, route it,
        and the bytes sent back. */
    method HandleClient(received: string) returns (out: string)
      ensures var r := Route(routes, ParseRequest(received).path);
        out == Serialised(r.status.value, r.headers, r.body)
    {
      var request := ReadRequest(received);
      var response := new Response();
      response.SetHeader("Server", "CustomHTTPServer");
      if request.path in routes {
        match routes[request.path]
        case HelloWorld => response.HelloWorldHandler();
        case NotFound => response.NotFoundHandler();
      } else {
        response.NotFoundHandler();
      }
      out := SendResponse(response.status.value, response.headers, response.body);
    }
  }

  /** `main`'s server, whose only route is "/": that path answers 200 with
      "Hello, World!", every other path 404 with "Not Found", both as
      plain text from CustomHTTPServer. */
  lemma MainRoutes(path: string)
    ensures var routes := map[][ "/" := HelloWorld];
      var headers := map["Server" := "CustomHTTPServer", "Content-Type" := "text/plain"];
      && Route(routes, "/") == Reply(Some(200), "Hello, World!", headers)
      && (path != "/" ==> Route(routes, path) == Reply(Some(404), "Not Found", headers))
  {
  }
}
