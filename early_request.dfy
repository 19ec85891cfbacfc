/** The earlier request parser of danbi/cpp/Request.cpp: it reads a complete
    request string in one go, drops the first character of every header
    line for the key, keeps the space after the ':' in the value, ends every
    body line with '\n', and records an error code instead of a status. */
module EarlyRequest {
  import opened TextUtil
  import HttpRequest

  /** How one header line is read: no ':' (error 400, the loop stops), or a
      key and a value. */
  datatype EarlyField = NoColon | Field(key: string, value: string)

  /** `line.substr(1, pos - 1)` and `line.substr(pos + 1)` with `pos` the
      first ':' held in an `int`. For a ':' at 0, `pos - 1` is -1, which
      `substr` takes as `npos`: the key is then the whole line after the ':'. */
  function FieldOf(line: string): (r: EarlyField)
  {
    match FindChar(line, ':', 0)
    case None => NoColon
    case Some(p) => Field(if p == 0 then line[1..] else line[1..p], line[p + 1..])
  }

  /** A header line is its first character, the key, a ':' and the value,
      space included. */
  lemma FieldOfLine(c: char, key: string, value: string)
    requires c != ':' && ':' !in key
    ensures FieldOf([c] + key + ":" + value) == Field(key, value)
  {
    var line := [c] + key + ":" + value;
    var p := |key| + 1;
    forall j | 0 <= j < p ensures line[j] != ':' {
      if j > 0 { assert line[j] == key[j - 1]; }
    }
    FindCharAt(line, ':', 0, p);
    assert line[1..p] == key;
    assert line[p + 1..] == value;
  }

  /** Conversely, a line whose ':' is not first is read that way. */
  lemma FieldOfShape(line: string, key: string, value: string)
    requires FieldOf(line) == Field(key, value)
    requires line[0] != ':'
    ensures ':' !in key && line == [line[0]] + key + ":" + value
  {
    var p := FindChar(line, ':', 0).value;
    FindCharSpec(line, ':', 0);
    assert line[0] == line[..1][0];
    forall j | 0 <= j < |key| ensures key[j] != ':' {
      assert key[j] == line[1 + j];
    }
    assert line == [line[0]] + line[1..p] + [line[p]] + line[p + 1..];
  }

  /** A line that starts with ':' is filed under what follows the ':', with
      that same text as its value. */
  lemma FieldOfLeadingColon(rest: string)
    ensures FieldOf(":" + rest) == Field(rest, rest)
  {
    FindCharAt(":" + rest, ':', 0, 0);
    assert (":" + rest)[1..] == rest;
  }

  /** Where the header loop stops: the header map, the position after the
      last line read, and whether a line without ':' was met. */
  datatype ScanEnd = ScanEnd(header: map<string, string>, next: nat, bad: bool)

  /** `while (getline(ss, line, '\r') && line != "\n")`. */
  function HeaderScan(s: string, pos: nat, h: map<string, string>): (r: ScanEnd)
    decreases |s| - pos
    ensures pos <= |s| ==> pos <= r.next <= |s|
  {
    match GetLine(s, pos, '\r')
    case None => ScanEnd(h, pos, false)
    case Some(l) =>
      if l.text == "\n" then ScanEnd(h, l.next, false)
      else
        match FieldOf(l.text)
        case NoColon => ScanEnd(h, l.next, true)
        case Field(k, v) => HeaderScan(s, l.next, h[k := v])
  }

  /** The fields of the parser: the header map, the body and `_error`, which
      the constructor leaves unset (None). */
  datatype EarlyState = EarlyState(header: map<string, string>, body: string, error: Option<int>)

  /** `lineStream >> _header["method"] >> _header["URI"] >> _header["protocol"]`. */
  function RequestLineHeader(h: map<string, string>, line: string): (r: map<string, string>)
    ensures r.Keys == h.Keys + {"method", "URI", "protocol"}
  {
    var ws := Words(line);
    h["method" := WordOr(ws, 0, HttpRequest.Slot(h, "method"))]
     ["URI" := WordOr(ws, 1, HttpRequest.Slot(h, "URI"))]
     ["protocol" := WordOr(ws, 2, HttpRequest.Slot(h, "protocol"))]
  }

  /** The request line and the header loop. A failed first `getline` leaves
      the line empty. */
  function Scan(raw: string, h: map<string, string>): (r: ScanEnd)
    ensures r.next <= |raw|
  {
    var first := GetLine(raw, 0, '\r');
    var text := if first.Some? then first.value.text else "";
    var pos := if first.Some? then first.value.next else 0;
    HeaderScan(raw, pos, RequestLineHeader(h, text))
  }

  /** `parsing(raw)`: the request line, the header loop, the method check,
      every remaining line with a '\n' after it, and the size check. */
  function Parse(raw: string, st: EarlyState): (r: EarlyState)
  {
    var scan := Scan(raw, st.header);
    var afterLoop := if scan.bad then Some(400) else st.error;
    var afterMethod := if HttpRequest.Slot(scan.header, "method") !in HttpRequest.AllowedMethods then Some(405)
                       else afterLoop;
    var body := st.body + TerminatedLines(raw, scan.next);
    EarlyState(scan.header, body,
               if HttpRequest.SizeDiff(|raw|, |body|) >= HttpRequest.MaxRequestSize then Some(414) else afterMethod)
  }

  /** The error codes override each other in the order 400, 405, 414, and
      there is no Host check: a short request with an accepted method gets
      400 when the header loop met a line without ':', and otherwise keeps
      the error it had. */
  lemma ParseErrorOrder(raw: string, st: EarlyState)
    ensures var r := Parse(raw, st);
      && (HttpRequest.SizeDiff(|raw|, |r.body|) >= HttpRequest.MaxRequestSize ==> r.error == Some(414))
      && ((HttpRequest.SizeDiff(|raw|, |r.body|) < HttpRequest.MaxRequestSize
           && HttpRequest.Slot(r.header, "method") !in HttpRequest.AllowedMethods) ==> r.error == Some(405))
      && (r.error == st.error || r.error == Some(400) || r.error == Some(405) || r.error == Some(414))
      && ((HttpRequest.SizeDiff(|raw|, |r.body|) < HttpRequest.MaxRequestSize
           && HttpRequest.Slot(r.header, "method") in HttpRequest.AllowedMethods) ==>
            r.error == (if Scan(raw, st.header).bad then Some(400) else st.error))
  {
  }

  /** Every line after the header loop is added to the body with a '\n' after
      it: the body gains the rest of the input, and one more '\n' when that
      rest does not end in one. The first of those lines is the empty one
      left after the blank line's '\r', so the body starts with '\n'. */
  lemma ParseBody(raw: string, st: EarlyState)
    ensures var pos := Scan(raw, st.header).next;
      Parse(raw, st).body == st.body + raw[pos..] + (if pos < |raw| && raw[|raw| - 1] != '\n' then "\n" else "")
  {
    TerminatedLinesIsRest(raw, Scan(raw, st.header).next);
  }

  lemma TerminatedLinesStep(s: string, pos: nat)
    requires pos < |s|
    ensures TerminatedLines(s, pos)
            == GetLine(s, pos, '\n').value.text + "\n" + TerminatedLines(s, GetLine(s, pos, '\n').value.next)
  {
  }

  lemma Regroup(a: string, b: string, c: string)
    ensures a + (b + "\n" + c) == (a + b + "\n") + c
  {
  }

  class Request {
    var header: map<string, string>
    var body: string
    var error: Option<int>

    function State(): EarlyState
      reads this
    {
      EarlyState(header, body, error)
    }

    /** A new parser: nothing read and the error unset. */
    constructor()
      ensures State() == EarlyState(map[], [], None)
    {
      header, body, error := map[], [], None;
    }

    /** `getError`. */
    function GetError(): Option<int>
      reads this
    {
      error
    }

    /** The header loop, from `pos0`. */
    method ReadHeaderLines(raw: string, pos0: nat) returns (next: nat, bad: bool)
      requires pos0 <= |raw|
      modifies this`header
      ensures HeaderScan(raw, pos0, old(header)) == ScanEnd(header, next, bad)
    {
      next, bad := pos0, false;
      var stop := false;
      while !stop
        invariant next <= |raw|
        invariant !stop ==> !bad
        invariant !stop ==> HeaderScan(raw, next, header) == HeaderScan(raw, pos0, old(header))
        invariant stop ==> HeaderScan(raw, pos0, old(header)) == ScanEnd(header, next, bad)
        decreases |raw| - next, if stop then 0 else 1
      {
        var line := GetLine(raw, next, '\r');
        if line.None? || line.value.text == "\n" {
          if line.Some? { next := line.value.next; }
          stop := true;
        } else {
          next := line.value.next;
          match FieldOf(line.value.text)
          case NoColon => bad, stop := true, true;
          case Field(k, v) => header := header[k := v];
        }
      }
    }

    /** `while (std::getline(ss, line)) _body += line + "\n";` */
    method ReadBody(raw: string, start: nat)
      requires start <= |raw|
      modifies this`body
      ensures body == old(body) + TerminatedLines(raw, start)
    {
      ghost var total := old(body) + TerminatedLines(raw, start);
      var pos := start;
      while pos < |raw|
        invariant start <= pos <= |raw|
        invariant total == body + TerminatedLines(raw, pos)
        decreases |raw| - pos
      {
        var line := GetLine(raw, pos, '\n').value;
        TerminatedLinesStep(raw, pos);
        Regroup(body, line.text, TerminatedLines(raw, line.next));
        body := body + line.text + "\n";
        pos := line.next;
      }
    }

    /** `parsing(raw)`. */
    method Parsing(raw: string)
      modifies this
      ensures State() == Parse(raw, old(State()))
    {
      var first := GetLine(raw, 0, '\r');
      var text := if first.Some? then first.value.text else "";
      var pos := if first.Some? then first.value.next else 0;
      header := RequestLineHeader(header, text);
      var next, bad := ReadHeaderLines(raw, pos);
      assert Scan(raw, old(header)) == ScanEnd(header, next, bad);
      if bad {
        error := Some(400);
      }
      if HttpRequest.Slot(header, "method") !in HttpRequest.AllowedMethods {
        error := Some(405);
      }
      ReadBody(raw, next);
      if HttpRequest.SizeDiff(|raw|, |body|) >= HttpRequest.MaxRequestSize {
        error := Some(414);
      }
    }
  }
}
