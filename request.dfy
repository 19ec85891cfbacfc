/** `Request` (code/src/Request.cpp): the raw bytes of one HTTP request as
    they arrive, and what `parsing` makes of them once the header block is
    complete: the request-line words, the header map, the body, a MIME type
    for the target and a status code. */
module HttpRequest {
  import opened TextUtil

  // ---------------------------------------------------------------------------
  // Reading `std::map::operator[]`

  /** `h[k]` as `operator[]` reads it: the stored value, or "" (which it
      also inserts). */
  function Slot(h: map<string, string>, k: string): string
  {
    if k in h then h[k] else ""
  }

  /** The map after `operator[]` has been used on `k`. */
  function Touch(h: map<string, string>, k: string): (r: map<string, string>)
    ensures r.Keys == h.Keys + {k}
    ensures forall x :: x in h ==> r[x] == h[x]
    ensures r[k] == Slot(h, k)
  {
    if k in h then h else h[k := ""]
  }

  // ---------------------------------------------------------------------------
  // parseUrl: the MIME type of the target and the BasicURI

  /** What `stat` says about a path: no such file, a directory, or anything
      else. The filesystem is not modelled; callers pass it as an oracle. */
  datatype FileKind = Missing | Directory | Regular

  /** The `_mimeTypes` table `parseUrl` fills; "else" and "directory" are
      keys like the file suffixes. */
  function MimeOf(ext: string): Option<string>
  {
    match ext
    case "html" => Some("text/html")
    case "css" => Some("text/css")
    case "js" => Some("text/javascript")
    case "jpg" => Some("image/jpeg")
    case "png" => Some("image/png")
    case "gif" => Some("image/gif")
    case "txt" => Some("text/plain")
    case "pdf" => Some("application/pdf")
    case "json" => Some("application/json")
    case "ttf" => Some("font/ttf")
    case "woff" => Some("font/woff")
    case "woff2" => Some("font/woff2")
    case "otf" => Some("font/otf")
    case "else" => Some("application/octet-stream")
    case "directory" => Some("directory")
    case _ => None
  }

  /** The text after the last '.' of the target, if it has one. */
  function Extension(uri: string): (r: Option<string>)
    ensures r.Some? ==> '.' !in r.value
  {
    match RFindChar(uri, '.')
    case None => None
    case Some(d) =>
      NoneInSlice(uri, d + 1, |uri|, '.');
      assert uri[d + 1..|uri|] == uri[d + 1..];
      Some(uri[d + 1..])
  }

  /** A target that ends in "." followed by a dot-free suffix has that
      suffix as its extension, and a dot-free target has none. */
  lemma ExtensionOf(stem: string, ext: string)
    requires '.' !in ext
    ensures Extension(stem + "." + ext) == Some(ext)
    ensures '.' !in stem ==> Extension(stem) == None
  {
    var uri := stem + "." + ext;
    var d := |stem|;
    assert uri[d] == '.';
    forall k | d < k < |uri| ensures uri[k] != '.' {
      assert uri[k] == ext[k - d - 1];
    }
    match RFindChar(uri, '.')
    case None =>
    case Some(r) =>
    assert uri[d + 1..] == ext;
  }

  /** The MIME type and status after the suffix lookup of `parseUrl`: a
      listed suffix gives its type; an unlisted one asks `stat`, which gives
      404 for a missing file, "directory" for a directory and
      "application/octet-stream" otherwise; no '.' changes nothing. */
  function MimeStep(uri: string, mime: string, status: int, fs: string -> FileKind): (string, int)
  {
    match Extension(uri)
    case None => (mime, status)
    case Some(ext) =>
      match MimeOf(ext)
      case Some(t) => (t, status)
      case None =>
        match fs(uri)
        case Missing => (mime, 404)
        case Directory => ("directory", status)
        case Regular => ("application/octet-stream", status)
  }

  /** Where `parseUrl` starts looking for the path: after "://" when the
      target has one, at 0 otherwise. */
  function PathSearchStart(uri: string): (r: nat)
    ensures r <= |uri|
  {
    match FindSub(uri, "://", 0)
    case None => 0
    case Some(p) => p + 3
  }

  /** `uri.substr(pos, uri.find('?', pos) - pos)` with `pos` the first '/'
      from `PathSearchStart`: the path up to the query. None when there is
      no such '/': `substr(npos)` throws `out_of_range`. */
  function BasicUri(uri: string): (r: Option<string>)
  {
    match FindChar(uri, '/', PathSearchStart(uri))
    case None => None
    case Some(p) =>
      match FindChar(uri, '?', p)
      case None => Some(uri[p..])
      case Some(q) => Some(uri[p..q])
  }

  lemma SuffixSlice(s: string, p: nat)
    requires p <= |s|
    ensures s[p..] == s[p..|s|]
  {
  }

  lemma SliceJoin(s: string, a: nat, b: nat, c: nat)
    requires a <= b <= c <= |s|
    ensures s[a..c] == s[a..b] + s[b..c]
  {
  }

  /** BasicURI is the part of the target that starts at the first '/' after
      the scheme and runs up to the first '?' or the end; it exists exactly
      when there is such a '/'. */
  lemma BasicUriSpec(uri: string)
    ensures BasicUri(uri).None? <==> forall j :: PathSearchStart(uri) <= j < |uri| ==> uri[j] != '/'
    ensures BasicUri(uri).Some? ==>
      var b := BasicUri(uri).value;
      exists p, e :: && PathSearchStart(uri) <= p <= e <= |uri| && b == uri[p..e]
                     && (forall j :: PathSearchStart(uri) <= j < p ==> uri[j] != '/')
                     && b != [] && b[0] == '/' && '?' !in b
                     && (e == |uri| || uri[e] == '?')
  {
    var start := PathSearchStart(uri);
    if FindChar(uri, '/', start).Some? {
      var p := FindChar(uri, '/', start).value;
      var q := FindChar(uri, '?', p);
      var e := if q.Some? then q.value else |uri|;
      var b := uri[p..e];
      if q.None? {
        assert BasicUri(uri) == Some(uri[p..]);
        SuffixSlice(uri, p);
      } else {
        assert BasicUri(uri) == Some(uri[p..q.value]);
      }
      FindCharSpec(uri, '/', start);
      FindCharSpec(uri, '?', p);
      assert b[0] == '/';
      NoneInSlice(uri, p, e, '?');
    } else {
      FindCharSpec(uri, '/', start);
    }
  }

  // ---------------------------------------------------------------------------
  // One header line

  /** The characters `find_first_not_of(" ")` skips. */
  const Blank: set<char> := {' '}

  /** How `parsing` reads one header line: no ':' (status 400, the loop
      stops), a ':' with nothing but spaces after it (`substr(npos)`
      throws), or a key and a value. */
  datatype FieldRead = NoColon | ValueThrows | Field(key: string, value: string)

  /** `s` without its leading line feeds. */
  function DropLineFeeds(s: string): (r: string)
    ensures |r| <= |s|
    ensures r == [] || r[0] != '\n'
  {
    if s != [] && s[0] == '\n' then DropLineFeeds(s[1..]) else s
  }

  lemma {:induction false} DropLineFeedsSuffix(s: string)
    ensures DropLineFeeds(s) == s[|s| - |DropLineFeeds(s)|..]
    decreases |s|
  {
    if s != [] && s[0] == '\n' {
      DropLineFeedsSuffix(s[1..]);
      assert s[1..][|s| - 1 - |DropLineFeeds(s)|..] == s[|s| - |DropLineFeeds(s)|..];
    }
  }

  /** The key is `line.substr(find_first_not_of('\n'), pos - ...)`: since the
      ':' at `pos` is not a line feed, that is the text before the first ':'
      without its leading line feeds. The value starts at the first
      character after the ':' that is not a space and runs to the end. */
  function HeaderField(line: string): (r: FieldRead)
  {
    match FindChar(line, ':', 0)
    case None => NoColon
    case Some(p) =>
      match FindNotIn(line, Blank, p + 1)
      case None => ValueThrows
      case Some(v) => Field(DropLineFeeds(line[..p]), line[v..])
  }

  predicate AllAre(s: string, c: char)
  {
    forall i :: 0 <= i < |s| ==> s[i] == c
  }

  /** A line made of line feeds, a ':'-free key that does not start with a
      line feed, a ':', spaces and a value that does not start with a space
      is read as exactly that key and value. */
  lemma HeaderFieldOf(lfs: string, key: string, sps: string, value: string)
    requires AllAre(lfs, '\n') && AllAre(sps, ' ')
    requires ':' !in key && (key == [] || key[0] != '\n')
    requires value != [] && value[0] != ' '
    ensures HeaderField(lfs + key + ":" + sps + value) == Field(key, value)
  {
    var line := lfs + key + ":" + sps + value;
    var p := |lfs| + |key|;
    forall j | 0 <= j < p ensures line[j] != ':' {
      if j >= |lfs| { assert line[j] == key[j - |lfs|]; }
    }
    FindCharAt(line, ':', 0, p);
    var v := p + 1 + |sps|;
    forall j | p + 1 <= j < v ensures line[j] in Blank {
      assert line[j] == sps[j - p - 1];
    }
    assert line[v] == value[0];
    FindNotInSpec(line, Blank, p + 1);
    assert FindNotIn(line, Blank, p + 1) == Some(v);
    assert line[..p] == lfs + key;
    DropLineFeedsOf(lfs, key);
    assert line[v..] == value;
  }

  lemma {:induction false} DropLineFeedsOf(lfs: string, key: string)
    requires AllAre(lfs, '\n') && (key == [] || key[0] != '\n')
    ensures DropLineFeeds(lfs + key) == key
    decreases |lfs|
  {
    if lfs == [] {
      assert lfs + key == key;
    } else {
      assert (lfs + key)[1..] == lfs[1..] + key;
      DropLineFeedsOf(lfs[1..], key);
    }
  }

  /** Conversely, every field read comes from a line of that shape. */
  lemma HeaderFieldShape(line: string, key: string, value: string)
    requires HeaderField(line) == Field(key, value)
    ensures ':' !in key && (key == [] || key[0] != '\n')
    ensures value != [] && value[0] != ' '
    ensures exists lfs, sps :: AllAre(lfs, '\n') && AllAre(sps, ' ') && line == lfs + key + ":" + sps + value
  {
    FieldPositions(line);
    var p, v :| && FindChar(line, ':', 0) == Some(p) && FindNotIn(line, Blank, p + 1) == Some(v)
            && HeaderField(line) == Field(DropLineFeeds(line[..p]), line[v..]);
    FindCharSpec(line, ':', 0);
    FindNotInSpec(line, Blank, p + 1);
    LineShape(line, p, v);
  }

  /** A line with its first ':' at `p` and only spaces between it and `v`. */
  lemma LineShape(line: string, p: nat, v: nat)
    requires p < v <= |line| && line[p] == ':'
    requires forall k :: 0 <= k < p ==> line[k] != ':'
    requires forall k :: p + 1 <= k < v ==> line[k] in Blank
    ensures var key := DropLineFeeds(line[..p]);
      && ':' !in key
      && exists lfs, sps :: AllAre(lfs, '\n') && AllAre(sps, ' ') && line == lfs + key + ":" + sps + line[v..]
  {
    NoneInSlice(line, 0, p, ':');
    assert line[0..p] == line[..p];
    KeyParts(line[..p]);
    AllInSlice(line, p + 1, v, ' ');
    var key := DropLineFeeds(line[..p]);
    var lfs, sps := line[..p][..p - |key|], line[p + 1..v];
    CutTwice(line, p, v);
    assert line == lfs + key + ":" + sps + line[v..];
  }

  /** Where the ':' and the value of a field line are. */
  lemma FieldPositions(line: string)
    requires HeaderField(line).Field?
    ensures exists p, v :: && FindChar(line, ':', 0) == Some(p) && FindNotIn(line, Blank, p + 1) == Some(v)
                           && HeaderField(line) == Field(DropLineFeeds(line[..p]), line[v..])
  {
    var p := FindChar(line, ':', 0).value;
    var v := FindNotIn(line, Blank, p + 1).value;
    assert HeaderField(line) == Field(DropLineFeeds(line[..p]), line[v..]);
  }

  /** `s` cut at `p` and `v`, the character at `p` on its own. */
  lemma CutTwice(s: string, p: nat, v: nat)
    requires p < v <= |s|
    ensures s == s[..p] + [s[p]] + s[p + 1..v] + s[v..]
  {
    assert s[p..] == [s[p]] + s[p + 1..v] + s[v..];
    assert s == s[..p] + s[p..];
  }

  lemma AllInSlice(s: string, i: nat, j: nat, c: char)
    requires i <= j <= |s| && forall k :: i <= k < j ==> s[k] == c
    ensures AllAre(s[i..j], c)
  {
    forall k | 0 <= k < j - i ensures s[i..j][k] == c {
      assert s[i..j][k] == s[i + k];
    }
  }

  lemma NoneInSlice(s: string, i: nat, j: nat, c: char)
    requires i <= j <= |s| && forall k :: i <= k < j ==> s[k] != c
    ensures c !in s[i..j]
  {
    forall k | 0 <= k < j - i ensures s[i..j][k] != c {
      assert s[i..j][k] == s[i + k];
    }
  }

  /** The text before the ':' is its leading line feeds, then the key. */
  lemma KeyParts(prefix: string)
    ensures var key := DropLineFeeds(prefix);
      && AllAre(prefix[..|prefix| - |key|], '\n')
      && prefix == prefix[..|prefix| - |key|] + key
      && (':' !in prefix ==> ':' !in key)
  {
    DropLineFeedsPrefix(prefix);
    DropLineFeedsSuffix(prefix);
    var key := DropLineFeeds(prefix);
    assert prefix == prefix[..|prefix| - |key|] + prefix[|prefix| - |key|..];
  }

  lemma {:induction false} DropLineFeedsPrefix(s: string)
    ensures AllAre(s[..|s| - |DropLineFeeds(s)|], '\n')
    decreases |s|
  {
    if s != [] && s[0] == '\n' {
      DropLineFeedsPrefix(s[1..]);
      var n := |s| - |DropLineFeeds(s)|;
      forall i | 0 <= i < n ensures s[..n][i] == '\n' {
        if i > 0 { assert s[..n][i] == s[1..][..n - 1][i - 1]; }
      }
    }
  }

  // ---------------------------------------------------------------------------
  // The header loop and the rest of `parsing`

  /** Where the header loop stops: the header map, the position after the
      last line read, whether a line without ':' was met, and whether
      `substr` threw. */
  datatype HeaderEnd = HeaderEnd(header: map<string, string>, next: nat, bad: bool, threw: bool)

  /** `while (getline(ss, line, '\r') && line != "\n")`: each line is read as
      a header field and filed, a later one overwriting an earlier one with
      the same key. */
  function HeaderScan(s: string, pos: nat, h: map<string, string>): (r: HeaderEnd)
    decreases |s| - pos
    ensures pos <= |s| ==> pos <= r.next <= |s|
  {
    match GetLine(s, pos, '\r')
    case None => HeaderEnd(h, pos, false, false)
    case Some(l) =>
      if l.text == "\n" then HeaderEnd(h, l.next, false, false)
      else
        match HeaderField(l.text)
        case NoColon => HeaderEnd(h, l.next, true, false)
        case ValueThrows => HeaderEnd(h, l.next, false, true)
        case Field(k, v) => HeaderScan(s, l.next, h[k := v])
  }

  /** The header loop only adds and overwrites entries. */
  lemma {:induction false} HeaderScanKeeps(s: string, pos: nat, h: map<string, string>)
    ensures h.Keys <= HeaderScan(s, pos, h).header.Keys
    decreases |s| - pos
  {
    match GetLine(s, pos, '\r')
    case None =>
    case Some(l) =>
      if l.text != "\n" {
        match HeaderField(l.text)
        case NoColon =>
        case ValueThrows =>
        case Field(k, v) => HeaderScanKeeps(s, l.next, h[k := v]);
      }
  }

  /** The loop stops on its own only at the blank line between two '\r':
      when it was not stopped by a bad line or a throw and input was left,
      the line feed and '\r' just before where it stopped are that line. */
  lemma {:induction false} HeaderScanEndsAtBlankLine(s: string, pos: nat, h: map<string, string>)
    requires pos < |s|
    ensures var r := HeaderScan(s, pos, h);
      !r.bad && !r.threw && r.next < |s| ==> pos + 2 <= r.next && s[r.next - 2..r.next] == "\n\r"
    decreases |s| - pos
  {
    var l := GetLine(s, pos, '\r').value;
    if l.text == "\n" {
      if !l.hitEof {
        assert s[pos..l.next] == "\n\r";
        assert s[l.next - 2..l.next] == s[pos..l.next];
      }
    } else {
      match HeaderField(l.text)
      case NoColon =>
      case ValueThrows =>
      case Field(k, v) =>
        if l.next < |s| {
          HeaderScanEndsAtBlankLine(s, l.next, h[k := v]);
        }
    }
  }

  /** The fields of a request `parsing` reads or writes, as one value. */
  datatype ReqState = ReqState(raw: string, header: map<string, string>, body: string, host: string,
                               mime: string, status: int, full: bool)

  /** The state after `parsing`, and whether an `out_of_range` escaped it. */
  datatype Parsed = Parsed(state: ReqState, threw: bool)

  /** `lineStream >> _header["Method"] >> _header["URI"] >> _header["protocol"]`:
      the first three words of the request line; a missing word leaves its
      entry as it was ("" when new). */
  function RequestLineHeader(h: map<string, string>, line: string): (r: map<string, string>)
    ensures r.Keys == h.Keys + {"Method", "URI", "protocol"}
  {
    var ws := Words(line);
    h["Method" := WordOr(ws, 0, Slot(h, "Method"))]
     ["URI" := WordOr(ws, 1, Slot(h, "URI"))]
     ["protocol" := WordOr(ws, 2, Slot(h, "protocol"))]
  }

  /** `parseUrl` on a state: the MIME type and status from the suffix, and
      BasicURI stored, unless `substr` throws. */
  function UrlStep(st: ReqState, fs: string -> FileKind): (r: Parsed)
  {
    var uri := Slot(st.header, "URI");
    var h := Touch(st.header, "URI");
    var (mime, status) := MimeStep(uri, st.mime, st.status, fs);
    match BasicUri(uri)
    case None => Parsed(st.(header := h, mime := mime, status := status), true)
    case Some(b) => Parsed(st.(header := h["BasicURI" := b], mime := mime, status := status), false)
  }

  /** `rawSize - bodySize` computed in `size_t`: it wraps modulo 2^64 when the
      body is the longer. */
  function SizeDiff(rawSize: nat, bodySize: nat): (d: nat)
    ensures d < ULongModulus
    ensures bodySize <= rawSize < ULongModulus ==> d == rawSize - bodySize
  {
    (rawSize - bodySize) % ULongModulus
  }

  /** The request size from which `parsing` answers 414. */
  const MaxRequestSize: nat := 8192

  /** The methods `parsing` accepts. */
  const AllowedMethods: set<string> := {"GET", "POST", "DELETE"}

  /** `parsing` after `parseUrl`: the header loop, the Host and method
      checks, the body and the size check. */
  function ParseRest(st: ReqState, pos: nat): (r: Parsed)
    requires pos <= |st.raw|
  {
    var scan := HeaderScan(st.raw, pos, st.header);
    if scan.threw then Parsed(st.(header := scan.header), true)
    else Parsed(ReadRest(HeaderChecks(st.(header := scan.header), scan.bad), scan.next), false)
  }

  /** After the request line, `parsing` keeps the status it had or sets
      400, 405 or 414, and a run without an escaped `out_of_range` marks the
      request complete with its raw buffer untouched. */
  lemma ParseRestStatus(st: ReqState, pos: nat)
    requires pos <= |st.raw|
    ensures var r := ParseRest(st, pos);
      && (r.state.status == st.status || r.state.status in {400, 405, 414})
      && r.state.raw == st.raw
      && (!r.threw ==> r.state.full)
  {
    var scan := HeaderScan(st.raw, pos, st.header);
    if !scan.threw {
      var c := HeaderChecks(st.(header := scan.header), scan.bad);
      assert c.status == st.status || c.status in {400, 405};
    }
  }

  /** After the header loop: 400 for a malformed line or a missing Host,
      405 for a method outside GET, POST and DELETE, and otherwise the Host
      header is taken as the host. */
  function HeaderChecks(st: ReqState, bad: bool): ReqState
  {
    var h := st.header;
    var afterLoop := if bad then 400 else st.status;
    st.(status := if "Host" !in h then 400 else if Slot(h, "Method") !in AllowedMethods then 405 else afterLoop,
        host := if "Host" in h && Slot(h, "Method") in AllowedMethods then h["Host"] else st.host)
  }

  /** The body is what follows the line after the header loop; a request
      whose size beyond its body reaches the limit gets 414. */
  function ReadRest(st: ReqState, next: nat): ReqState
    requires next <= |st.raw|
  {
    var start := match GetLine(st.raw, next, '\n') case None => |st.raw| case Some(l) => l.next;
    var body := st.body + st.raw[start..];
    st.(body := body, status := if SizeDiff(|st.raw|, |body|) >= MaxRequestSize then 414 else st.status,
        full := true)
  }

  /** `parsing`: nothing until the buffer holds "\r\n\r\n"; then the request
      line, `parseUrl`, and the rest. */
  function Parse(st: ReqState, fs: string -> FileKind): (r: Parsed)
    ensures r.state.raw == st.raw
  {
    if !Contains(st.raw, "\r\n\r\n") then Parsed(st, false)
    else
      var u := AfterUrl(st, fs);
      if u.threw then u else ParseRest(u.state, RequestLine(st).next)
  }

  /** The request line: the buffer up to its first '\r'. */
  function RequestLine(st: ReqState): Line
    requires Contains(st.raw, "\r\n\r\n")
  {
    GetLine(st.raw, 0, '\r').value
  }

  /** The state after the request line is split into its words and
      `parseUrl` has run. */
  function AfterUrl(st: ReqState, fs: string -> FileKind): Parsed
    requires Contains(st.raw, "\r\n\r\n")
  {
    UrlStep(st.(header := RequestLineHeader(st.header, RequestLine(st).text)), fs)
  }

  /** The status a complete request ends with: 414 when the request beyond
      its body reaches 8192 bytes; otherwise 400 without a Host header, 405
      for a method outside GET, POST and DELETE, and otherwise 400 for a
      malformed header line or the status `parseUrl` left. With Host present
      and the method allowed, the host is the Host header. */
  lemma ParseStatusRule(st: ReqState, fs: string -> FileKind)
    requires Contains(st.raw, "\r\n\r\n")
    ensures var r := Parse(st, fs);
      var u := AfterUrl(st, fs);
      var h := r.state.header;
      var big := SizeDiff(|st.raw|, |r.state.body|) >= MaxRequestSize;
      var allowed := "Host" in h && Slot(h, "Method") in AllowedMethods;
      !r.threw ==>
        && (u.state.status == st.status || u.state.status == 404)
        && (big ==> r.state.status == 414)
        && (!big && "Host" !in h ==> r.state.status == 400)
        && (!big && "Host" in h && Slot(h, "Method") !in AllowedMethods ==> r.state.status == 405)
        && (!big && allowed ==>
              r.state.status == (if HeaderScan(st.raw, RequestLine(st).next, u.state.header).bad then 400
                                 else u.state.status))
        && (allowed ==> r.state.host == h["Host"])
        && (!allowed ==> r.state.host == st.host)
  {
    var u := AfterUrl(st, fs);
    if !u.threw {
      var scan := HeaderScan(st.raw, RequestLine(st).next, u.state.header);
      if !scan.threw {
        var c := HeaderChecks(u.state.(header := scan.header), scan.bad);
        assert Parse(st, fs) == Parsed(ReadRest(c, scan.next), false);
      }
    }
  }

  /** `parsing` is a no-op while the buffer lacks "\r\n\r\n"; once it holds
      it, the request is complete unless an `out_of_range` escaped. */
  lemma ParseWaitsForHeaderEnd(st: ReqState, fs: string -> FileKind)
    ensures !Contains(st.raw, "\r\n\r\n") ==> Parse(st, fs) == Parsed(st, false)
    ensures Contains(st.raw, "\r\n\r\n") ==> Parse(st, fs).threw || Parse(st, fs).state.full
  {
    if Contains(st.raw, "\r\n\r\n") {
      ParseStatus(st, fs);
    }
  }

  /** `parsing` leaves the status it found or sets 400, 404, 405 or 414. */
  lemma ParseStatus(st: ReqState, fs: string -> FileKind)
    ensures var r := Parse(st, fs);
      && (r.state.status == st.status || r.state.status in {400, 404, 405, 414})
      && (Contains(st.raw, "\r\n\r\n") && !r.threw ==> r.state.full)
  {
    if Contains(st.raw, "\r\n\r\n") {
      var u := AfterUrl(st, fs);
      assert u.state.status == st.status || u.state.status == 404;
      if !u.threw {
        ParseRestStatus(u.state, RequestLine(st).next);
      }
    }
  }

  // ---------------------------------------------------------------------------
  // The request object

  class Request {
    var rawContents: string
    var header: map<string, string>
    var body: string
    var host: string
    var mime: string
    var status: int
    var fullReq: bool
    var autoindex: string

    /** The fields `parsing` reads and writes. */
    function State(): ReqState
      reads this
    {
      ReqState(rawContents, header, body, host, mime, status, fullReq)
    }

    /** A new request: MIME type text/html, status 200, not complete. */
    constructor()
      ensures State() == ReqState([], map[], [], [], "text/html", 200, false)
      ensures autoindex == []
    {
      rawContents, header, body, host := [], map[], [], [];
      mime, status, fullReq, autoindex := "text/html", 200, false, [];
    }

    /** `parseUrl`, with `stat` as the oracle `fs`. Returns whether
        `substr` threw. */
    method ParseUrl(fs: string -> FileKind) returns (threw: bool)
      modifies this`header, this`mime, this`status
      ensures UrlStep(old(State()), fs) == Parsed(State(), threw)
    {
      var uri := Slot(header, "URI");
      header := Touch(header, "URI");
      var ext := Extension(uri);
      if ext.Some? {
        var t := MimeOf(ext.value);
        if t.Some? {
          mime := t.value;
        } else {
          match fs(uri)
          case Missing => status := 404;
          case Directory => mime := "directory";
          case Regular => mime := "application/octet-stream";
        }
      }
      var b := BasicUri(uri);
      if b.None? {
        return true;
      }
      header := header["BasicURI" := b.value];
      threw := false;
    }

    /** The header loop of `parsing`, from `pos0`. */
    method ReadHeaderLines(pos0: nat) returns (next: nat, bad: bool, threw: bool)
      requires pos0 <= |rawContents|
      modifies this`header
      ensures HeaderScan(rawContents, pos0, old(header)) == HeaderEnd(header, next, bad, threw)
    {
      next, bad, threw := pos0, false, false;
      var stop := false;
      while !stop
        invariant next <= |rawContents|
        invariant !stop ==> !bad && !threw
        invariant !stop ==> HeaderScan(rawContents, next, header) == HeaderScan(rawContents, pos0, old(header))
        invariant stop ==> HeaderScan(rawContents, pos0, old(header)) == HeaderEnd(header, next, bad, threw)
        decreases |rawContents| - next, if stop then 0 else 1
      {
        var line := GetLine(rawContents, next, '\r');
        if line.None? || line.value.text == "\n" {
          if line.Some? { next := line.value.next; }
          stop := true;
        } else {
          next := line.value.next;
          var f := HeaderField(line.value.text);
          match f
          case NoColon => bad, stop := true, true;
          case ValueThrows => threw, stop := true, true;
          case Field(k, v) => header := header[k := v];
        }
      }
    }

    /** The body loop of `parsing`: every line from `start` on, each but the
        last followed by the '\n' that ended it, appended to the body. */
    method ReadBody(start: nat)
      requires start <= |rawContents|
      modifies this`body
      ensures body == old(body) + rawContents[start..]
    {
      var pos := start;
      while pos < |rawContents|
        invariant start <= pos <= |rawContents|
        invariant body == old(body) + rawContents[start..pos]
        decreases |rawContents| - pos
      {
        var line := GetLine(rawContents, pos, '\n').value;
        ghost var before := body;
        body := body + line.text;
        if !line.hitEof {
          body := body + "\n";
        } else {
          SuffixSlice(rawContents, pos);
        }
        assert body == before + rawContents[pos..line.next];
        SliceJoin(rawContents, start, pos, line.next);
        pos := line.next;
      }
    }

    /** `parsing`, with `stat` as the oracle `fs`. Returns whether an
        `out_of_range` escaped; nothing in the server catches it. */
    method Parsing(fs: string -> FileKind) returns (threw: bool)
      modifies this
      ensures Parse(old(State()), fs) == Parsed(State(), threw)
      ensures autoindex == old(autoindex)
    {
      ghost var st0 := State();
      if FindSub(rawContents, "\r\n\r\n", 0).None? {
        return false;
      }
      var first := GetLine(rawContents, 0, '\r').value;
      header := RequestLineHeader(header, first.text);
      ghost var st1 := State();
      assert st1 == st0.(header := RequestLineHeader(st0.header, first.text));
      threw := ParseUrl(fs);
      ghost var u := UrlStep(st1, fs);
      assert first == RequestLine(st0) && u == AfterUrl(st0, fs);
      assert u == Parsed(State(), threw);
      if threw {
        assert Parse(st0, fs) == u;
        return;
      }
      assert Parse(st0, fs) == ParseRest(u.state, first.next);
      threw := ParseAfterUrl(first.next);
    }

    /** `parsing` after `parseUrl`, the header block starting at `pos`. */
    method ParseAfterUrl(pos: nat) returns (threw: bool)
      requires pos <= |rawContents|
      modifies this`header, this`status, this`host, this`body, this`fullReq
      ensures ParseRest(old(State()), pos) == Parsed(State(), threw)
    {
      var next, bad;
      next, bad, threw := ReadHeaderLines(pos);
      if !threw {
        CheckHeaders(bad);
        ReadAfterHeaders(next);
      }
    }

    method CheckHeaders(bad: bool)
      modifies this`status, this`host
      ensures State() == HeaderChecks(old(State()), bad)
    {
      if bad {
        status := 400;
      }
      if "Host" !in header {
        status := 400;
      } else if Slot(header, "Method") !in AllowedMethods {
        status := 405;
      } else {
        host := header["Host"];
      }
    }

    method ReadAfterHeaders(next: nat)
      requires next <= |rawContents|
      modifies this`body, this`status, this`fullReq
      ensures State() == ReadRest(old(State()), next)
    {
      var skip := GetLine(rawContents, next, '\n');
      var start := if skip.Some? then skip.value.next else |rawContents|;
      ReadBody(start);
      if SizeDiff(|rawContents|, |body|) >= MaxRequestSize {
        status := 414;
      }
      fullReq := true;
    }

    /** `clear`: back to a new request for the next one on the connection,
        keeping only the ClientIP header. */
    method Clear()
      modifies this
      ensures State() == ReqState([], map["ClientIP" := Slot(old(header), "ClientIP")], [], [], "text/html", 200, false)
      ensures autoindex == old(autoindex)
    {
      rawContents := [];
      AddRawContents("");
      var clientIp := Slot(header, "ClientIP");
      header := map["ClientIP" := clientIp];
      body, host := [], [];
      mime, status, fullReq := "text/html", 200, false;
    }

    /** `addRawContents`: the buffer only grows, at its end. */
    method AddRawContents(raw: string)
      modifies this`rawContents
      ensures rawContents == old(rawContents) + raw
    {
      rawContents := rawContents + raw;
    }

    /** `addHeader`: the last value set for a key wins. */
    method AddHeader(key: string, value: string)
      modifies this`header
      ensures header == old(header)[key := value]
    {
      header := header[key := value];
    }

    method SetAutoindex(value: string)
      modifies this`autoindex
      ensures autoindex == value
    {
      autoindex := value;
    }

    /** `getHeaderByKey` (and `getUri`, `getMethod` with "URI", "Method"):
        `operator[]`, which inserts an empty value for a missing key. */
    method GetHeaderByKey(key: string) returns (value: string)
      modifies this`header
      ensures value == Slot(old(header), key)
      ensures header == Touch(old(header), key)
    {
      value := Slot(header, key);
      header := Touch(header, key);
    }
  }
}
