/** `Response` (code/src/Response.cpp): a status line, a header map and a
    body, serialised into `result` by `SetResult`, which appends. Also the
    parser of raw CGI output (`convertCGI`), as written and corrected. */
module HttpResponse {
  import opened TextUtil
  import opened KeyOrder

  /** `_statusCodes[code]` over the reason-phrase table the constructor
      fills, each phrase with its leading space; `operator[]` yields the
      empty string for a code the table does not list. */
  function Reason(code: int): (r: string)
    ensures r != [] ==> r[0] == ' '
  {
    match code
    case 200 => " OK"
    case 201 => " Created"
    case 202 => " Accepted"
    case 204 => " No Content"
    case 300 => " Multiple Choice"
    case 301 => " Moved Permanently"
    case 303 => " See Other"
    case 304 => " Not Modified"
    case 307 => " Temporary Redirect"
    case 400 => " Bad Request"
    case 401 => " Unauthorized"
    case 403 => " Forbidden"
    case 404 => " Not Found"
    case 405 => " Method Not Allowed"
    case 406 => " Not Acceptable"
    case 409 => " Conflict"
    case 410 => " Gone"
    case 412 => " Precondition Failed"
    case 414 => " URI Too Long"
    case 415 => " Unsupported Media Type"
    case 500 => " Server Error"
    case _ => ""
  }

  /** The codes the table lists. */
  const ListedCodes: set<int> :=
    {200, 201, 202, 204, 300, 301, 303, 304, 307, 400, 401, 403, 404, 405, 406,
     409, 410, 412, 414, 415, 500}

  /** Exactly the 21 listed codes have a reason phrase. */
  lemma ReasonListed(code: int)
    ensures Reason(code) != [] <==> code in ListedCodes
  {
  }

  /** What one `setStatusLine(code)` appends. */
  function StatusLineFor(code: nat): string
  {
    "HTTP/1.1 " + Decimal(code) + Reason(code)
  }

  /** The default status line of CGI output. */
  lemma StatusLine200()
    ensures StatusLineFor(200) == "HTTP/1.1 200 OK"
  {
    assert Decimal(20) == "20";
    assert Decimal(200) == "200";
  }

  /** The bytes `setResult` appends: status line, CRLF, one line per header
      in ascending key order, CRLF, body. */
  ghost function Wire(statusLine: string, headers: map<string, string>, body: string): string
  {
    statusLine + "\r\n" + HeaderBlock(headers) + "\r\n" + body
  }

  /** Codes missing from the table (408 and 413 among them) get an empty
      reason, so their error body is exactly ": Error". */
  lemma UnlistedCodeBody(code: nat)
    requires code !in ListedCodes
    ensures Reason(code) + ": Error" == ": Error"
    ensures StatusLineFor(code) == "HTTP/1.1 " + Decimal(code)
  {
  }

  lemma TimeoutBody()
    ensures Reason(408) + ": Error" == ": Error"
    ensures Reason(413) + ": Error" == ": Error"
  {
    UnlistedCodeBody(408);
    UnlistedCodeBody(413);
  }

  /** One turn of the header loop of `setResult`: the least key still to
      visit is the next key in map order, and its line follows the lines
      already written. */
  lemma HeaderBlockStep(m: map<string, string>, done: seq<string>, remaining: set<string>, k: string)
    requires remaining <= m.Keys
    requires SortedKeys(m.Keys) == done + SortedKeys(remaining)
    requires IsLeast(k, remaining)
    ensures SortedKeys(m.Keys) == (done + [k]) + SortedKeys(remaining - {k})
    ensures HeaderLines(done + [k], m) == HeaderLines(done, m) + HeaderLine(k, m[k])
  {
    SortedKeysStep(remaining, k);
    HeaderLinesAppend(done, k, m);
  }

  /** The fields of a `Response`. */
  datatype RespState = RespState(statusLine: string, headers: map<string, string>, body: string, result: string)

  class Response {
    var statusLine: string
    var headers: map<string, string>
    var body: string
    var result: string

    function State(): RespState
      reads this
    {
      RespState(statusLine, headers, body, result)
    }

    constructor ()
      ensures statusLine == [] && headers == map[] && body == [] && result == []
    {
      statusLine, headers, body, result := [], map[], [], [];
    }

    /** `setResult`: appends the wire form to `result`, never replaces it. */
    method SetResult()
      modifies this`result
      ensures result == old(result) + Wire(statusLine, headers, body)
    {
      var lines := "";
      var remaining := headers.Keys;
      ghost var done: seq<string> := [];
      while remaining != {}
        invariant remaining <= headers.Keys
        invariant SortedKeys(headers.Keys) == done + SortedKeys(remaining)
        invariant lines == HeaderLines(done, headers)
        invariant result == old(result)
        decreases |remaining|
      {
        LeastExists(remaining);
        var k :| IsLeast(k, remaining);
        HeaderBlockStep(headers, done, remaining, k);
        lines := lines + HeaderLine(k, headers[k]);
        done := done + [k];
        remaining := remaining - {k};
      }
      assert done == SortedKeys(headers.Keys);
      result := result + (statusLine + "\r\n" + lines + "\r\n" + body);
    }

    /** `setStatusLine(code)` appends to the status line. */
    method SetStatusLine(code: nat)
      modifies this`statusLine
      ensures statusLine == old(statusLine) + "HTTP/1.1 " + Decimal(code) + Reason(code)
    {
      statusLine := statusLine + StatusLineFor(code);
    }

    /** `setErrorRes(code)`: discards status line, headers and body, builds a
        plain-text error and appends its wire form to `result`. */
    method SetErrorRes(code: nat)
      modifies this
      ensures statusLine == "HTTP/1.1 " + Decimal(code) + Reason(code)
      ensures body == Reason(code) + ": Error"
      ensures headers == map["Content-Type" := "text/plain", "Content-Length" := Decimal(|body|)]
      ensures Atoi(headers["Content-Length"]) == |body|
      ensures result == old(result) + Wire(statusLine, headers, body)
    {
      statusLine := StatusLineFor(code);
      headers := map["Content-Type" := "text/plain"];
      body := Reason(code) + ": Error";
      headers := headers["Content-Length" := Decimal(|body|)];
      AtoiDecimal(|body|);
      SetResult();
    }

    /** `isInHeader(key)`. */
    method IsInHeader(key: string) returns (present: bool)
      ensures present <==> key in headers
    {
      present := key in headers;
    }

    /** `setHeaders(key, value)`: last write wins, other headers untouched. */
    method SetHeaders(key: string, value: string)
      modifies this`headers
      ensures headers == old(headers)[key := value]
      ensures key in headers && headers[key] == value
      ensures forall k :: k != key ==> (k in headers <==> k in old(headers))
      ensures forall k :: k != key && k in headers ==> headers[k] == old(headers)[k]
    {
      headers := headers[key := value];
    }

    method SetBody(b: string)
      modifies this`body
      ensures body == b
    {
      body := b;
    }

    method GetBody() returns (b: string)
      ensures b == body
    {
      b := body;
    }

    /** The header loop of `convertCGI`, from an empty status line and header
        map: stops at the blank line, at the end of the input, at a line
        without ':' or where `substr` throws. */
    method ReadCgiHeaders(cgi: string) returns (pos: nat, threw: bool)
      requires statusLine == [] && headers == map[]
      modifies this`statusLine, this`headers
      ensures var h := CgiHeaderScan(cgi, 0, "", map[], false);
        statusLine == h.statusLine && headers == h.headers && pos == h.next && threw == h.threw
    {
      pos := 0;
      threw := false;
      var stop := false;
      while !stop
        invariant pos <= |cgi|
        invariant !stop ==> !threw
        invariant !stop ==> CgiHeaderScan(cgi, pos, statusLine, headers, false)
                            == CgiHeaderScan(cgi, 0, "", map[], false)
        invariant stop ==> var h := CgiHeaderScan(cgi, 0, "", map[], false);
                           h.statusLine == statusLine && h.headers == headers &&
                           h.next == pos && h.threw == threw
        decreases |cgi| - pos, if stop then 0 else 1
      {
        var line := GetLine(cgi, pos, '\r');
        if line.None? || line.value.text == "\n" {
          if line.Some? { pos := line.value.next; }
          stop := true;
        } else if Contains(line.value.text, "HTTP/1.1") {
          statusLine := statusLine + line.value.text;
          pos := line.value.next;
        } else {
          var colon := FindChar(line.value.text, ':', 0);
          pos := line.value.next;
          if colon.None? {
            stop := true;
          } else if colon.value + 2 > |line.value.text| {
            threw := true;
            stop := true;
          } else {
            var t := line.value.text;
            headers := headers[t[..colon.value] := t[colon.value + 2..]];
          }
        }
      }
    }

    /** The body loop of `convertCGI`: every line from `start` on, each but
        the last followed by the '\n' that ended it. */
    method ReadCgiBody(cgi: string, start: nat)
      requires start <= |cgi| && body == []
      modifies this`body
      ensures body == cgi[start..]
    {
      var pos := start;
      while pos < |cgi|
        invariant start <= pos <= |cgi|
        invariant body == cgi[start..pos]
        decreases |cgi| - pos
      {
        var line := GetLine(cgi, pos, '\n').value;
        body := body + line.text;
        if !line.hitEof { body := body + "\n"; }
        assert cgi[start..line.next] == cgi[start..pos] + cgi[pos..line.next];
        pos := line.next;
      }
    }

    /** `convertCGI(cgi)`: parses raw CGI output as the source does (see
        `CgiParse`), back-fills a 200 status line and a Content-Length, and
        appends the wire form. `ok` is false when `substr` throws
        `std::out_of_range` (a header line ending right after its ':'); the
        exception then leaves the fields as they were at that point. */
    method ConvertCgi(cgi: string) returns (ok: bool)
      modifies this
      ensures var p := CgiParse(cgi, false);
        && ok == !p.threw
        && (ok ==> && body == p.body
                   && statusLine == (if p.statusLine == "" then "HTTP/1.1 200 OK" else p.statusLine)
                   && headers == (if "Content-Length" in p.headers then p.headers
                                  else p.headers["Content-Length" := Decimal(|p.body|)])
                   && result == old(result) + Wire(statusLine, headers, body))
        && (!ok ==> statusLine == p.statusLine && headers == p.headers && body == []
                    && result == old(result))
    {
      headers, body, statusLine := map[], [], [];
      var pos, threw := ReadCgiHeaders(cgi);
      if threw {
        ok := false;
        return;
      }
      ok := true;
      ReadCgiBody(cgi, pos);
      ApplyCgiDefaults();
    }

    /** The end of `convertCGI`: a 200 status line when the program gave
        none, a Content-Length when it gave none, then `setResult`. */
    method ApplyCgiDefaults()
      modifies this
      ensures body == old(body)
      ensures statusLine == (if old(statusLine) == "" then "HTTP/1.1 200 OK" else old(statusLine))
      ensures headers == (if "Content-Length" in old(headers) then old(headers)
                          else old(headers)["Content-Length" := Decimal(|body|)])
      ensures result == old(result) + Wire(statusLine, headers, body)
    {
      if statusLine == "" {
        SetStatusLine(200);
        StatusLine200();
      }
      if "Content-Length" !in headers {
        SetHeaders("Content-Length", Decimal(|body|));
      }
      SetResult();
    }
  }

  // ---------------------------------------------------------------------------
  // Parsing raw CGI output

  /** Where the header loop of `convertCGI` stops: the status line and header
      map it built, the position of the rest, and whether `substr` threw. */
  datatype CgiHead = CgiHead(statusLine: string, headers: map<string, string>, next: nat, threw: bool)

  /** The header name of a CGI line split at its first ':' (index `colon`).
      As written the name is everything before the ':'; corrected, the line
      feed left over from splitting at '\r' is dropped first, as
      code/src/Request.cpp does for request headers. */
  function CgiKey(line: string, colon: nat, corrected: bool): string
    requires colon <= |line|
  {
    if !corrected then line[..colon]
    else
      match FindNotIn(line, {'\n'}, 0)
      case Some(k) => if k <= colon then line[k..colon] else []
      case None => []
  }

  /** The header loop `while (getline(ss, line, '\r') && line != "\n")`
      of `convertCGI`, from position `pos`: a line holding "HTTP/1.1" is
      appended to the status line; any other line is split at its first ':'
      with the value taken from two characters after it; a line without ':'
      ends the loop. */
  function CgiHeaderScan(s: string, pos: nat, statusLine: string, headers: map<string, string>,
                         corrected: bool): (r: CgiHead)
    decreases |s| - pos
    ensures pos <= |s| ==> pos <= r.next <= |s|
  {
    match GetLine(s, pos, '\r')
    case None => CgiHead(statusLine, headers, pos, false)
    case Some(l) =>
      if l.text == "\n" then CgiHead(statusLine, headers, l.next, false)
      else if Contains(l.text, "HTTP/1.1") then
        CgiHeaderScan(s, l.next, statusLine + l.text, headers, corrected)
      else
        match FindChar(l.text, ':', 0)
        case None => CgiHead(statusLine, headers, l.next, false)
        case Some(p) =>
          if p + 2 > |l.text| then CgiHead(statusLine, headers, l.next, true)
          else CgiHeaderScan(s, l.next, statusLine,
                             headers[CgiKey(l.text, p, corrected) := l.text[p + 2..]], corrected)
  }

  /** Status line, headers and body that `convertCGI` reads out of `cgi`
      before its defaults are applied. As written, the body is everything
      after the header loop (it begins with the line feed of the blank
      line); corrected, that line feed is skipped, as code/src/Request.cpp
      does before its body loop. */
  datatype CgiParsed = CgiParsed(statusLine: string, headers: map<string, string>, body: string, threw: bool)

  function CgiParse(cgi: string, corrected: bool): (r: CgiParsed)
    ensures r.threw ==> r.body == []
  {
    var h := CgiHeaderScan(cgi, 0, "", map[], corrected);
    if h.threw then CgiParsed(h.statusLine, h.headers, [], true)
    else if !corrected || h.next >= |cgi| then CgiParsed(h.statusLine, h.headers, cgi[h.next..], false)
    else CgiParsed(h.statusLine, h.headers, cgi[GetLine(cgi, h.next, '\n').value.next..], false)
  }

  /** The corrected reading of CGI output. */
  function CgiParseCorrected(cgi: string): CgiParsed
  {
    CgiParse(cgi, true)
  }

  // ---------------------------------------------------------------------------
  // Serialise, then parse back

  /** A header that survives a trip through the wire: no ':' or line break in
      the name, no '\r' in the value, and no "HTTP/1.1" in its line. */
  predicate PlainField(key: string, value: string)
  {
    && ':' !in key && '\r' !in key && '\n' !in key
    && '\r' !in value
    && !Contains("\n" + key + ": " + value, "HTTP/1.1")
  }

  /** A status line that the CGI parser recognises as one. */
  predicate PlainStatusLine(sl: string)
  {
    '\r' !in sl && Contains(sl, "HTTP/1.1")
  }

  /** The name under which the parser files header `k` of the wire form. */
  function ReadName(k: string, corrected: bool): (n: string)
    ensures !corrected ==> |n| == |k| + 1 && n[0] == '\n' && n[1..] == k
    ensures corrected ==> n == k
  {
    if corrected then k else "\n" + k
  }

  /** The header map the loop builds from `acc` by reading the header lines
      of those of `keys` that `m` holds, one after the other. */
  function ReadHeaders(acc: map<string, string>, keys: seq<string>, m: map<string, string>,
                       corrected: bool): map<string, string>
    decreases |keys|
  {
    if keys == [] then acc
    else if keys[0] in m then ReadHeaders(acc[ReadName(keys[0], corrected) := m[keys[0]]], keys[1..], m, corrected)
    else ReadHeaders(acc, keys[1..], m, corrected)
  }

  /** The names under which the headers of `keys` are read back. */
  function ReadNames(keys: seq<string>, corrected: bool): set<string>
    decreases |keys|
  {
    if keys == [] then {} else {ReadName(keys[0], corrected)} + ReadNames(keys[1..], corrected)
  }

  lemma {:induction false} ReadNamesSpec(keys: seq<string>, corrected: bool, x: string)
    ensures x in ReadNames(keys, corrected) <==> exists k :: k in keys && x == ReadName(k, corrected)
    decreases |keys|
  {
    if keys != [] {
      ReadNamesSpec(keys[1..], corrected, x);
      if x == ReadName(keys[0], corrected) {
        assert keys[0] in keys;
      }
      if exists k :: k in keys && x == ReadName(k, corrected) {
        var k :| k in keys && x == ReadName(k, corrected);
        if k != keys[0] {
          assert k in keys[1..];
        }
      }
    }
  }

  /** Every header of `keys` is read back under its name with its value;
      entries of `acc` under other names are kept; nothing else is added. */
  lemma {:induction false} ReadHeadersSpec(acc: map<string, string>, keys: seq<string>,
                                           m: map<string, string>, corrected: bool)
    requires forall k :: k in keys ==> k in m
    ensures var r := ReadHeaders(acc, keys, m, corrected);
      && (forall k :: k in keys ==> ReadName(k, corrected) in r && r[ReadName(k, corrected)] == m[k])
      && (forall x :: x in acc && x !in ReadNames(keys, corrected) ==> x in r && r[x] == acc[x])
      && (forall x :: x in r ==> x in acc || x in ReadNames(keys, corrected))
    decreases |keys|
  {
    if keys != [] {
      var n0 := ReadName(keys[0], corrected);
      var acc' := acc[n0 := m[keys[0]]];
      ReadHeadersSpec(acc', keys[1..], m, corrected);
      var r := ReadHeaders(acc, keys, m, corrected);
      assert r == ReadHeaders(acc', keys[1..], m, corrected);
      forall k | k in keys
        ensures ReadName(k, corrected) in r && r[ReadName(k, corrected)] == m[k]
      {
        if k !in keys[1..] {
          ReadNamesSpec(keys[1..], corrected, n0);
        }
      }
    }
  }

  lemma {:induction false} GetLineAt(s: string, pos: nat, text: string, delim: char)
    requires pos + |text| < |s|
    requires s[pos..pos + |text| + 1] == text + [delim]
    requires delim !in text
    ensures GetLine(s, pos, delim) == Some(Line(text, pos + |text| + 1, false))
  {
    var e := pos + |text|;
    assert s[e] == delim by {
      assert s[pos..e + 1][|text|] == delim;
    }
    forall j | pos <= j < e ensures s[j] != delim {
      assert s[j] == s[pos..e + 1][j - pos] == text[j - pos];
    }
    FindCharAt(s, delim, pos, e);
    assert s[pos..e] == s[pos..e + 1][..|text|];
  }

  /** One header line of the wire form, as the header loop sees it. */
  lemma {:induction false} CgiScanHeaderStep(s: string, pos: nat, k: string, v: string, corrected: bool)
    requires PlainField(k, v)
    requires pos + |k| + |v| + 4 < |s|
    requires s[pos..pos + |k| + |v| + 4] == "\n" + k + ": " + v + "\r"
    ensures var l := "\n" + k + ": " + v;
      && GetLine(s, pos, '\r') == Some(Line(l, pos + |k| + |v| + 4, false))
      && l != "\n" && !Contains(l, "HTTP/1.1")
      && FindChar(l, ':', 0) == Some(|k| + 1)
      && |k| + 3 <= |l|
      && CgiKey(l, |k| + 1, corrected) == ReadName(k, corrected)
      && l[|k| + 3..] == v
  {
    var l := "\n" + k + ": " + v;
    assert |l| == |k| + |v| + 3;
    assert s[pos..pos + |l| + 1] == l + ['\r'];
    assert '\r' !in l by {
      forall i | 0 <= i < |l| ensures l[i] != '\r' {
        if 1 <= i < |k| + 1 { assert l[i] == k[i - 1]; }
        else if i >= |k| + 3 { assert l[i] == v[i - |k| - 3]; }
      }
    }
    GetLineAt(s, pos, l, '\r');
    assert l[|k| + 1] == ':';
    forall j | 0 <= j < |k| + 1 ensures l[j] != ':' {
      if j > 0 { assert l[j] == k[j - 1]; }
    }
    FindCharAt(l, ':', 0, |k| + 1);
    if corrected {
      assert l[0] == '\n';
      assert l[1] != '\n' by {
        if |k| > 0 { assert l[1] == k[0]; }
      }
      FindNotInSpec(l, {'\n'}, 0);
      assert FindNotIn(l, {'\n'}, 0) == Some(1);
      assert l[1..|k| + 1] == k;
    } else {
      assert l[..|k| + 1] == "\n" + k;
    }
    assert l[|k| + 3..] == v;
  }

  /** The header loop ends at the line "\n" (the CRLF CRLF separator). */
  lemma ScanStopsAtBlankLine(s: string, pos: nat, sl: string, acc: map<string, string>, corrected: bool)
    requires GetLine(s, pos, '\r').Some? && GetLine(s, pos, '\r').value.text == "\n"
    ensures CgiHeaderScan(s, pos, sl, acc, corrected)
            == CgiHead(sl, acc, GetLine(s, pos, '\r').value.next, false)
  {
  }

  /** A header line with its ':' at `p` and a value is filed and the loop
      goes on. */
  lemma ScanReadsField(s: string, pos: nat, sl: string, acc: map<string, string>, corrected: bool,
                       text: string, next: nat, p: nat, acc': map<string, string>)
    requires GetLine(s, pos, '\r') == Some(Line(text, next, false))
    requires text != "\n" && !Contains(text, "HTTP/1.1")
    requires FindChar(text, ':', 0) == Some(p) && p + 2 <= |text|
    requires acc' == acc[CgiKey(text, p, corrected) := text[p + 2..]]
    ensures CgiHeaderScan(s, pos, sl, acc, corrected) == CgiHeaderScan(s, next, sl, acc', corrected)
  {
  }

  /** The blank line that ends the header block of the wire form. */
  lemma {:induction false} CgiScanBlankLine(s: string, pos: nat, sl: string, acc: map<string, string>, body: string,
                                            corrected: bool)
    requires pos <= |s| && s[pos..] == "\n" + "\r\n" + body
    ensures CgiHeaderScan(s, pos, sl, acc, corrected) == CgiHead(sl, acc, |s| - |body| - 1, false)
  {
    assert |s| - pos == |body| + 3;
    assert s[pos..pos + 2] == "\n\r";
    GetLineAt(s, pos, "\n", '\r');
    ScanStopsAtBlankLine(s, pos, sl, acc, corrected);
  }

  /** The first header line of what is left of the wire form, and the rest. */
  lemma WireFieldCons(keys: seq<string>, m: map<string, string>, body: string)
    requires keys != [] && keys[0] in m
    ensures "\n" + HeaderLines(keys, m) + "\r\n" + body
            == ("\n" + keys[0] + ": " + m[keys[0]] + "\r") + ("\n" + HeaderLines(keys[1..], m) + "\r\n" + body)
  {
    assert HeaderLines(keys, m) == HeaderLine(keys[0], m[keys[0]]) + HeaderLines(keys[1..], m);
  }

  lemma WireFieldSplit(s: string, pos: nat, keys: seq<string>, m: map<string, string>, body: string)
    requires keys != [] && keys[0] in m
    requires pos <= |s| && s[pos..] == "\n" + HeaderLines(keys, m) + "\r\n" + body
    ensures var n := |keys[0]| + |m[keys[0]]| + 4;
      && pos + n < |s|
      && s[pos..pos + n] == "\n" + keys[0] + ": " + m[keys[0]] + "\r"
      && s[pos + n..] == "\n" + HeaderLines(keys[1..], m) + "\r\n" + body
  {
    WireFieldCons(keys, m, body);
    SplitRest(s, pos, "\n" + keys[0] + ": " + m[keys[0]] + "\r", "\n" + HeaderLines(keys[1..], m) + "\r\n" + body);
  }

  /** The header loop files one header line of the wire form and goes on. */
  lemma CgiScanField(s: string, pos: nat, k: string, v: string, sl: string, acc: map<string, string>,
                     corrected: bool)
    requires PlainField(k, v)
    requires pos + |k| + |v| + 4 < |s|
    requires s[pos..pos + |k| + |v| + 4] == "\n" + k + ": " + v + "\r"
    ensures CgiHeaderScan(s, pos, sl, acc, corrected)
            == CgiHeaderScan(s, pos + |k| + |v| + 4, sl, acc[ReadName(k, corrected) := v], corrected)
  {
    CgiScanHeaderStep(s, pos, k, v, corrected);
    ScanReadsField(s, pos, sl, acc, corrected, "\n" + k + ": " + v, pos + |k| + |v| + 4, |k| + 1,
                   acc[ReadName(k, corrected) := v]);
  }

  /** `s` holds, from `pos` on, the plain header lines of `keys` line by line,
      each after the '\n' that follows the previous '\r', then the blank
      line and `body`. */
  predicate WireTail(s: string, pos: nat, keys: seq<string>, m: map<string, string>, body: string)
    decreases |keys|
  {
    if keys == [] then pos <= |s| && s[pos..] == "\n" + "\r\n" + body
    else
      && keys[0] in m
      && var n := |keys[0]| + |m[keys[0]]| + 4;
      && PlainField(keys[0], m[keys[0]])
      && pos + n < |s|
      && s[pos..pos + n] == "\n" + keys[0] + ": " + m[keys[0]] + "\r"
      && WireTail(s, pos + n, keys[1..], m, body)
  }

  /** Every key of `keys` is a plain header of `m`. */
  predicate AllPlain(keys: seq<string>, m: map<string, string>)
    decreases |keys|
  {
    keys == [] || (keys[0] in m && PlainField(keys[0], m[keys[0]]) && AllPlain(keys[1..], m))
  }

  lemma {:induction false} AllPlainOf(keys: seq<string>, m: map<string, string>)
    requires forall k :: k in keys ==> k in m
    requires forall k :: k in m ==> PlainField(k, m[k])
    ensures AllPlain(keys, m)
    decreases |keys|
  {
    if keys != [] {
      assert keys[0] in m;
      AllPlainOf(keys[1..], m);
    }
  }

  lemma {:induction false} WireTailOf(s: string, pos: nat, keys: seq<string>, m: map<string, string>, body: string)
    requires AllPlain(keys, m)
    requires pos <= |s| && s[pos..] == "\n" + HeaderLines(keys, m) + "\r\n" + body
    ensures WireTail(s, pos, keys, m, body)
    decreases |keys|
  {
    if keys == [] {
      WireTailEnd(s, pos, m, body);
    } else {
      WireFieldSplit(s, pos, keys, m, body);
      var next := pos + |keys[0]| + |m[keys[0]]| + 4;
      WireTailOf(s, next, keys[1..], m, body);
      assert WireTail(s, next, keys[1..], m, body);
    }
  }

  lemma WireTailEnd(s: string, pos: nat, m: map<string, string>, body: string)
    requires pos <= |s| && s[pos..] == "\n" + HeaderLines([], m) + "\r\n" + body
    ensures WireTail(s, pos, [], m, body)
  {
    assert "\n" + HeaderLines([], m) == "\n";
  }

  /** Following the header lines of the wire form, the loop files the headers
      of `keys` in order, as `ReadHeaders` does, and stops at the blank line. */
  lemma {:induction false} WireTailScan(s: string, pos: nat, keys: seq<string>, m: map<string, string>,
                                        sl: string, acc: map<string, string>, body: string, corrected: bool)
    requires WireTail(s, pos, keys, m, body)
    ensures |body| + 1 <= |s|
    ensures CgiHeaderScan(s, pos, sl, acc, corrected)
            == CgiHead(sl, ReadHeaders(acc, keys, m, corrected), |s| - |body| - 1, false)
    decreases |keys|
  {
    if keys == [] {
      CgiScanBlankLine(s, pos, sl, acc, body, corrected);
    } else {
      var k, v := keys[0], m[keys[0]];
      var acc' := acc[ReadName(k, corrected) := v];
      WireTailScan(s, pos + |k| + |v| + 4, keys[1..], m, sl, acc', body, corrected);
      CgiScanField(s, pos, k, v, sl, acc, corrected);
    }
  }

  /** From the '\n' after the status line, the header loop reads back the
      headers of `keys` and stops before the body's line feed. */
  lemma WireHeadersScan(s: string, pos: nat, keys: seq<string>, m: map<string, string>, sl: string, body: string,
                        corrected: bool)
    requires AllPlain(keys, m)
    requires pos <= |s| && s[pos..] == "\n" + HeaderLines(keys, m) + "\r\n" + body
    ensures |body| + 1 <= |s|
    ensures CgiHeaderScan(s, pos, sl, map[], corrected)
            == CgiHead(sl, ReadHeaders(map[], keys, m, corrected), |s| - |body| - 1, false)
  {
    WireTailOf(s, pos, keys, m, body);
    WireTailScan(s, pos, keys, m, sl, map[], body, corrected);
  }

  /** The wire form cut after the status line's '\r'. */
  lemma WireStart(sl: string, m: map<string, string>, body: string)
    ensures var s := Wire(sl, m, body);
      && |sl| < |s|
      && s[..|sl| + 1] == sl + ['\r']
      && s[|sl| + 1..] == "\n" + HeaderLines(SortedKeys(m.Keys), m) + "\r\n" + body
  {
    var rest := "\n" + HeaderLines(SortedKeys(m.Keys), m) + "\r\n" + body;
    var s := Wire(sl, m, body);
    assert s == (sl + ['\r']) + rest;
    SplitRest(s, 0, sl + ['\r'], rest);
  }

  /** The first line of the wire form is taken as the status line. */
  lemma ScanStatusLine(s: string, sl: string, corrected: bool)
    requires PlainStatusLine(sl)
    requires |sl| < |s| && s[..|sl| + 1] == sl + ['\r']
    ensures CgiHeaderScan(s, 0, "", map[], corrected) == CgiHeaderScan(s, |sl| + 1, sl, map[], corrected)
  {
    assert s[0..|sl| + 1] == sl + ['\r'];
    GetLineAt(s, 0, sl, '\r');
    assert sl != "\n" by {
      if sl == "\n" {
        ContainsIff(sl, "HTTP/1.1");
      }
    }
    assert "" + sl == sl;
  }

  /** Both readings up to the blank line. */
  lemma CgiReadBack(sl: string, m: map<string, string>, body: string, corrected: bool)
    requires PlainStatusLine(sl)
    requires forall k :: k in m ==> PlainField(k, m[k])
    ensures var s := Wire(sl, m, body);
      && |body| + 1 <= |s|
      && CgiHeaderScan(s, 0, "", map[], corrected)
         == CgiHead(sl, ReadHeaders(map[], SortedKeys(m.Keys), m, corrected), |s| - |body| - 1, false)
  {
    var keys := SortedKeys(m.Keys);
    SortedKeysSpec(m.Keys);
    AllPlainOf(keys, m);
    WireStart(sl, m, body);
    ReadBackFrom(Wire(sl, m, body), sl, keys, m, body, corrected);
  }

  /** The status line, then the header lines of `keys`, then the blank line. */
  lemma ReadBackFrom(s: string, sl: string, keys: seq<string>, m: map<string, string>, body: string,
                     corrected: bool)
    requires PlainStatusLine(sl) && AllPlain(keys, m)
    requires |sl| < |s| && s[..|sl| + 1] == sl + ['\r']
    requires s[|sl| + 1..] == "\n" + HeaderLines(keys, m) + "\r\n" + body
    ensures |body| + 1 <= |s|
    ensures CgiHeaderScan(s, 0, "", map[], corrected)
            == CgiHead(sl, ReadHeaders(map[], keys, m, corrected), |s| - |body| - 1, false)
  {
    WireHeadersScan(s, |sl| + 1, keys, m, sl, body, corrected);
    ScanStatusLine(s, sl, corrected);
  }

  /** Read back by the corrected parser, the headers of the wire form are
      exactly the serialised map. */
  lemma ReadHeadersCorrected(m: map<string, string>)
    ensures ReadHeaders(map[], SortedKeys(m.Keys), m, true) == m
  {
    var keys := SortedKeys(m.Keys);
    SortedKeysSpec(m.Keys);
    ReadHeadersSpec(map[], keys, m, true);
    var r := ReadHeaders(map[], keys, m, true);
    forall x | x in r ensures x in m {
      ReadNamesSpec(keys, true, x);
    }
  }

  /** Read back as written, every header name gains a leading line feed. */
  lemma ReadHeadersAsWritten(m: map<string, string>)
    ensures var r := ReadHeaders(map[], SortedKeys(m.Keys), m, false);
      && (forall k :: k in m ==> "\n" + k in r && r["\n" + k] == m[k])
      && (forall x :: x in r ==> |x| > 0 && x[0] == '\n' && x[1..] in m)
  {
    var keys := SortedKeys(m.Keys);
    SortedKeysSpec(m.Keys);
    ReadHeadersSpec(map[], keys, m, false);
    var r := ReadHeaders(map[], keys, m, false);
    forall x | x in r ensures |x| > 0 && x[0] == '\n' && x[1..] in m {
      ReadNamesSpec(keys, false, x);
    }
  }

  /** The wire form ends with the line feed of the blank line, then the body. */
  lemma WireBody(sl: string, m: map<string, string>, body: string)
    ensures var s := Wire(sl, m, body);
      |body| + 1 <= |s| && s[|s| - |body| - 1..] == "\n" + body
  {
    var s := Wire(sl, m, body);
    var front := sl + "\r\n" + HeaderBlock(m) + "\r";
    assert s == front + ("\n" + body);
    SplitRest(s, 0, front, "\n" + body);
  }

  /** The corrected parser's `getline(ss, line)` after the header loop eats
      exactly that line feed. */
  lemma SkipLineFeed(s: string, e: nat, body: string)
    requires e <= |s| && s[e..] == "\n" + body
    ensures e < |s| && GetLine(s, e, '\n') == Some(Line([], e + 1, false)) && s[e + 1..] == body
  {
    SplitRest(s, e, "\n", body);
    GetLineAt(s, e, [], '\n');
  }

  /** Serialising a response and reading the bytes back as CGI output gives
      the status line, every header and the body back, when the corrected
      parser reads them. */
  lemma CgiRoundTripCorrected(sl: string, m: map<string, string>, body: string)
    requires PlainStatusLine(sl)
    requires forall k :: k in m ==> PlainField(k, m[k])
    ensures CgiParseCorrected(Wire(sl, m, body)) == CgiParsed(sl, m, body, false)
  {
    var s := Wire(sl, m, body);
    WireBody(sl, m, body);
    SkipLineFeed(s, |s| - |body| - 1, body);
    ReadHeadersCorrected(m);
    CgiReadBack(sl, m, body, true);
  }

  /** As written, every header name read back from the wire form keeps the
      line feed that follows the previous '\r', and the body gains a leading
      line feed. */
  lemma CgiAsWrittenKeepsLineFeed(sl: string, m: map<string, string>, body: string)
    requires PlainStatusLine(sl)
    requires forall k :: k in m ==> PlainField(k, m[k])
    ensures var p := CgiParse(Wire(sl, m, body), false);
      && !p.threw
      && p.statusLine == sl
      && (forall k :: k in m ==> "\n" + k in p.headers && p.headers["\n" + k] == m[k])
      && (forall x :: x in p.headers ==> |x| > 0 && x[0] == '\n' && x[1..] in m)
      && p.body == "\n" + body
  {
    var s := Wire(sl, m, body);
    var r := ReadHeaders(map[], SortedKeys(m.Keys), m, false);
    CgiReadBack(sl, m, body, false);
    WireBody(sl, m, body);
    ParseAsWritten(s, sl, r, |s| - |body| - 1, "\n" + body);
    ReadHeadersAsWritten(m);
  }

  /** Where the header loop stopped without throwing, the as-written body is
      the rest of the input. */
  lemma ParseAsWritten(s: string, sl: string, r: map<string, string>, e: nat, tail: string)
    requires CgiHeaderScan(s, 0, "", map[], false) == CgiHead(sl, r, e, false)
    requires e <= |s| && s[e..] == tail
    ensures CgiParse(s, false) == CgiParsed(sl, r, tail, false)
  {
  }

  /** A header map whose names all begin with a line feed has no entry
      under a name that does not. */
  lemma HiddenKey(h: map<string, string>, m: map<string, string>, key: string)
    requires forall x :: x in h ==> |x| > 0 && x[0] == '\n' && x[1..] in m
    requires |key| > 0 && key[0] != '\n'
    ensures key !in h
  {
  }

  /** CGI output that states its own Content-Length: as written the parser
      files it under "\nContent-Length", so `convertCGI` finds no
      Content-Length and adds a second one, counting the extra line feed. */
  lemma CgiContentLengthDuplicated(sl: string, m: map<string, string>, body: string)
    requires PlainStatusLine(sl)
    requires forall k :: k in m ==> PlainField(k, m[k])
    requires "Content-Length" in m
    ensures var p := CgiParse(Wire(sl, m, body), false);
      && !p.threw
      && "Content-Length" !in p.headers
      && "\nContent-Length" in p.headers && p.headers["\nContent-Length"] == m["Content-Length"]
      && |p.body| == |body| + 1
  {
    assert "\n" + "Content-Length" == "\nContent-Length";
    var p := CgiParse(Wire(sl, m, body), false);
    CgiAsWrittenKeepsLineFeed(sl, m, body);
    HiddenKey(p.headers, m, "Content-Length");
  }
}
