/** `Post` (code/src/Post.cpp): the POST method. The target is the
    RootDir header followed by the CuttedURI header. A target the Cgi
    header names goes to CGI; otherwise the request body is appended to
    an existing file or to a new file under a directory. The filesystem is
    a map from path to contents, the C library's random generator a
    parameter, and the CGI program's output a parameter. */
module PostMethod {
  import opened TextUtil
  import HttpRequest
  import HttpResponse

  // ---------------------------------------------------------------------------
  // isCgi

  /** `isCgi`: the Cgi header is non-empty and occurs in the target. */
  predicate CgiMatch(fullUri: string, cgi: string)
  {
    cgi != "" && Contains(fullUri, cgi)
  }

  /** CGI runs exactly when the Cgi header is non-empty and occurs
      somewhere in the target. */
  lemma CgiMatchIff(fullUri: string, cgi: string)
    ensures CgiMatch(fullUri, cgi) <==> cgi != [] && exists k :: 0 <= k <= |fullUri| && IsAt(fullUri, cgi, k)
  {
    ContainsIff(fullUri, cgi);
  }

  // ---------------------------------------------------------------------------
  // generateRandomString

  const Charset: string := "abcdefghijklmnopqrstuvwxyzABCDEFGHIJKLMNOPQRSTUVWXYZ0123456789"

  /** The length of a generated name. */
  const NameLength: nat := 32

  /** The name built from the values `rand()` returns after the `srand`
      of one call: 32 characters, each `charset[rand() % 62]`. */
  function RandomString(rand: nat -> nat): (r: string)
    ensures |r| == NameLength
    ensures forall i :: 0 <= i < |r| ==> r[i] in Charset
  {
    seq(NameLength, i requires 0 <= i < NameLength => Charset[rand(i) % |Charset|])
  }

  // ---------------------------------------------------------------------------
  // createResource

  /** `createResource` as written, given the files that exist and the
      `rand()` values after each call's `srand(time(0))`: the first name is
      `fileName` plus a random suffix; when that file opens, one more name
      is drawn under `fullUri`. The loop then tests the outer stream, which
      is already closed (the new stream is a shadowing local), so the
      second name is taken without being checked. */
  function CreatedName(fileName: string, fullUri: string, files: set<string>,
                       streams: nat -> (nat -> nat)): (name: string)
  {
    var first := fileName + RandomString(streams(0));
    if first in files then fullUri + RandomString(streams(1)) else first
  }

  /** When the first name is free it is the one taken; the name is always
      the directory plus 32 alphanumeric characters. */
  lemma CreatedNameShape(fullUri: string, files: set<string>, streams: nat -> (nat -> nat))
    ensures var name := CreatedName(fullUri, fullUri, files, streams);
      && |name| == |fullUri| + NameLength && name[..|fullUri|] == fullUri
      && (forall i :: |fullUri| <= i < |name| ==> name[i] in Charset)
      && (fullUri + RandomString(streams(0)) !in files ==>
            name == fullUri + RandomString(streams(0)) && name !in files)
  {
    var name := CreatedName(fullUri, fullUri, files, streams);
    var suffix := if fullUri + RandomString(streams(0)) in files then RandomString(streams(1))
                  else RandomString(streams(0));
    assert name == fullUri + suffix;
    forall i | |fullUri| <= i < |name| ensures name[i] in Charset {
      assert name[i] == suffix[i - |fullUri|];
    }
  }

  /** Both calls re-seed with `time(0)`; within the same second they draw
      the same name. When that name exists, as written the file created is
      that existing file: POST answers 201 and appends to it. */
  lemma CreatedNameMayExist(fullUri: string, files: set<string>, rand: nat -> nat)
    requires fullUri + RandomString(rand) in files
    ensures CreatedName(fullUri, fullUri, files, (_: nat) => rand) in files
  {
  }

  /** The `i`-th name drawn under `fullUri` already exists. */
  predicate Taken(fullUri: string, files: set<string>, streams: nat -> (nat -> nat), i: nat)
  {
    fullUri + RandomString(streams(i)) in files
  }

  /** `createResource` as evidently intended, drawing at most `tries`
      names from the `from`-th on: the number of the first draw whose file
      does not open, None when every draw is taken. */
  function FirstFree(fullUri: string, files: set<string>, streams: nat -> (nat -> nat),
                     from: nat, tries: nat): Option<nat>
    decreases tries
  {
    if tries == 0 then None
    else if !Taken(fullUri, files, streams, from) then Some(from)
    else FirstFree(fullUri, files, streams, from + 1, tries - 1)
  }

  /** The corrected draw is free and every earlier one is taken; None
      means every draw was taken. */
  lemma {:induction false} FirstFreeSpec(fullUri: string, files: set<string>,
                                         streams: nat -> (nat -> nat), from: nat, tries: nat)
    ensures var r := FirstFree(fullUri, files, streams, from, tries);
      && (r.Some? ==> from <= r.value < from + tries && !Taken(fullUri, files, streams, r.value)
                      && forall i :: from <= i < r.value ==> Taken(fullUri, files, streams, i))
      && (r.None? ==> forall i :: from <= i < from + tries ==> Taken(fullUri, files, streams, i))
    decreases tries
  {
    if tries > 0 && Taken(fullUri, files, streams, from) {
      FirstFreeSpec(fullUri, files, streams, from + 1, tries - 1);
    }
  }

  // ---------------------------------------------------------------------------
  // process

  /** What `process` does with a request. */
  datatype Plan =
    | RunCgi                   // CGI output converted into the response
    | Fail(code: nat)          // an ErrorException of 400 or more: setErrorRes
    | MovedTo(location: string) // 301 with a Location header: setRedirectRes
    | Create(name: string)     // 201, the body written to a new file
    | Append(name: string)     // 200, the body appended to the target
    | Undefined                // `back()` on an empty target

  /** The branches of `process`, from the request's header map, its MIME
      type (set by `parseUrl` from `stat`), the files that exist and the
      random streams. */
  function Decide(h: map<string, string>, mime: string, files: set<string>,
                  streams: nat -> (nat -> nat)): Plan
  {
    var fullUri := HttpRequest.Slot(h, "RootDir") + HttpRequest.Slot(h, "CuttedURI");
    if CgiMatch(fullUri, HttpRequest.Slot(h, "Cgi")) then RunCgi
    else if fullUri == [] then Undefined
    else FilePlan(fullUri, mime, HttpRequest.Slot(h, "RawURI"), files, streams)
  }

  /** The branches of `process` for a non-empty target that is not CGI;
      `raw` is the RawURI header. */
  function FilePlan(fullUri: string, mime: string, raw: string, files: set<string>,
                    streams: nat -> (nat -> nat)): Plan
    requires fullUri != []
  {
    if fullUri[|fullUri| - 1] == '/' then
      if mime != "directory" then Fail(400) else Create(CreatedName(fullUri, fullUri, files, streams))
    else if mime == "directory" then MovedTo(raw + "/")
    else if fullUri !in files then Fail(404)
    else Append(fullUri)
  }

  /** The file `process` writes is the target itself, and only when that
      file exists and is not a directory, or a new name directly under a
      directory target; a slash-terminated target that is not a directory
      is a 400, a missing file a 404, and a directory named without its
      slash is redirected to the slash form. */
  lemma DecideSpec(h: map<string, string>, mime: string, files: set<string>,
                   streams: nat -> (nat -> nat))
    ensures var fullUri := HttpRequest.Slot(h, "RootDir") + HttpRequest.Slot(h, "CuttedURI");
      var plan := Decide(h, mime, files, streams);
      && (plan.Fail? ==> plan.code == 400 || plan.code == 404)
      && (plan.Append? ==> plan.name == fullUri && fullUri in files && mime != "directory")
      && (plan.Create? ==>
            mime == "directory" && fullUri != [] && fullUri[|fullUri| - 1] == '/' &&
            |plan.name| == |fullUri| + NameLength && plan.name[..|fullUri|] == fullUri)
      && (plan == Fail(404) ==> fullUri !in files)
      && (plan == Fail(400) ==> fullUri[|fullUri| - 1] == '/' && mime != "directory")
      && (plan.MovedTo? ==> mime == "directory" && fullUri[|fullUri| - 1] != '/')
      && (plan.RunCgi? <==> CgiMatch(fullUri, HttpRequest.Slot(h, "Cgi")))
  {
    var fullUri := HttpRequest.Slot(h, "RootDir") + HttpRequest.Slot(h, "CuttedURI");
    CreatedNameShape(fullUri, files, streams);
  }

  /** The header keys `process` reads through `getHeaderByKey`, each of
      which `operator[]` inserts when it is missing. */
  function Touched(h: map<string, string>, plan: Plan): map<string, string>
  {
    var t := HttpRequest.Touch(HttpRequest.Touch(HttpRequest.Touch(h, "RootDir"), "CuttedURI"), "Cgi");
    if plan.MovedTo? then HttpRequest.Touch(t, "RawURI") else t
  }

  /** Reading a key never changes what any key reads as. */
  lemma SlotAfterTouch(h: map<string, string>, k: string, j: string)
    ensures HttpRequest.Slot(HttpRequest.Touch(h, k), j) == HttpRequest.Slot(h, j)
  {
  }

  /** The headers of a successful response. */
  function SuccessHeaders(h: map<string, string>, plan: Plan): map<string, string>
  {
    var l := if plan.Create? then h["Location" := plan.name] else h;
    l["Content-Length" := "0"]["Content-Type" := "application/octet-stream"]
  }

  /** The files after `process`: the body appended to the file written. */
  function FilesAfter(plan: Plan, files: map<string, string>, body: string): map<string, string>
  {
    if plan.Create? || plan.Append? then files[plan.name := HttpRequest.Slot(files, plan.name) + body]
    else files
  }

  /** How `process` ends for each branch. */
  function OutcomeOf(plan: Plan, cgiThrew: bool): Outcome
  {
    match plan
    case RunCgi => if cgiThrew then Escaped else Finished
    case Undefined => Unspecified
    case MovedTo(_) => Redirected(301)
    case _ => Finished
  }

  /** The response after `convertCGI`: the converted output appended to
      `result`, or the fields as the exception left them. */
  ghost function CgiResponse(r: HttpResponse.RespState, cgiOutput: string): HttpResponse.RespState
  {
    var p := HttpResponse.CgiParse(cgiOutput, false);
    if p.threw then r.(statusLine := p.statusLine, headers := p.headers, body := [])
    else
      var sl := if p.statusLine == "" then "HTTP/1.1 200 OK" else p.statusLine;
      var hs := if "Content-Length" in p.headers then p.headers
                else p.headers["Content-Length" := Decimal(|p.body|)];
      HttpResponse.RespState(sl, hs, p.body, r.result + HttpResponse.Wire(sl, hs, p.body))
  }

  /** The response after the non-CGI branches of `process`: an error page,
      a Location header awaiting `setRedirectRes`, or a 201/200 status line
      with the two success headers; every finished one appended to
      `result`. */
  ghost function FileResponse(plan: Plan, r: HttpResponse.RespState): HttpResponse.RespState
  {
    match plan
    case Fail(code) =>
      var sl := HttpResponse.StatusLineFor(code);
      var b := HttpResponse.Reason(code) + ": Error";
      var hs := map["Content-Type" := "text/plain", "Content-Length" := Decimal(|b|)];
      HttpResponse.RespState(sl, hs, b, r.result + HttpResponse.Wire(sl, hs, b))
    case MovedTo(location) => r.(headers := r.headers["Location" := location])
    case Create(_) =>
      var sl := r.statusLine + HttpResponse.StatusLineFor(201);
      var hs := SuccessHeaders(r.headers, plan);
      HttpResponse.RespState(sl, hs, r.body, r.result + HttpResponse.Wire(sl, hs, r.body))
    case Append(_) =>
      var sl := r.statusLine + HttpResponse.StatusLineFor(200);
      var hs := SuccessHeaders(r.headers, plan);
      HttpResponse.RespState(sl, hs, r.body, r.result + HttpResponse.Wire(sl, hs, r.body))
    case _ => r
  }

  /** A written file answers with `Content-Length: 0` and the octet-stream
      type after a 201 (with Location set to the new name) or a 200 status
      line appended to the old one, the whole response appended to
      `result`; the headers set before are kept. */
  lemma WrittenResponse(plan: Plan, r: HttpResponse.RespState)
    requires plan.Create? || plan.Append?
    ensures var s := FileResponse(plan, r);
      && "Content-Length" in s.headers && s.headers["Content-Length"] == "0"
      && "Content-Type" in s.headers && s.headers["Content-Type"] == "application/octet-stream"
      && (forall k :: k in r.headers ==> k in s.headers)
      && s.body == r.body
      && s.result == r.result + HttpResponse.Wire(s.statusLine, s.headers, s.body)
      && (plan.Create? ==> "Location" in s.headers && s.headers["Location"] == plan.name
                           && s.statusLine == r.statusLine + HttpResponse.StatusLineFor(201))
      && (plan.Append? ==> s.statusLine == r.statusLine + HttpResponse.StatusLineFor(200))
  {
    var l := if plan.Create? then r.headers["Location" := plan.name] else r.headers;
    var hs := l["Content-Length" := "0"]["Content-Type" := "application/octet-stream"];
    var sl := r.statusLine + HttpResponse.StatusLineFor(if plan.Create? then 201 else 200);
    assert FileResponse(plan, r) == HttpResponse.RespState(sl, hs, r.body, r.result + HttpResponse.Wire(sl, hs, r.body));
  }

  /** A failure replaces status line, headers and body with the error page
      of its code, whose Content-Length reads back as the body length. */
  lemma FailedResponse(code: nat, r: HttpResponse.RespState)
    ensures var s := FileResponse(Fail(code), r);
      && s.statusLine == HttpResponse.StatusLineFor(code)
      && s.body == HttpResponse.Reason(code) + ": Error"
      && s.headers.Keys == {"Content-Type", "Content-Length"}
      && s.headers["Content-Type"] == "text/plain"
      && Atoi(s.headers["Content-Length"]) == |s.body|
      && s.result == r.result + HttpResponse.Wire(s.statusLine, s.headers, s.body)
  {
    AtoiDecimal(|HttpResponse.Reason(code) + ": Error"|);
  }

  /** `appendResource` opens in append mode: what was there stays in
      front, the body follows, and no other file changes. */
  lemma AppendKeeps(files: map<string, string>, name: string, body: string)
    ensures var after := files[name := HttpRequest.Slot(files, name) + body];
      && after[name][..|HttpRequest.Slot(files, name)|] == HttpRequest.Slot(files, name)
      && after[name][|HttpRequest.Slot(files, name)|..] == body
      && forall f :: f in files && f != name ==> f in after && after[f] == files[f]
  {
  }

  /** How `process` ended: normally, with `setRedirectRes` (not part of
      this model), with an exception that escapes it (`convertCGI`'s
      `std::out_of_range`), or in undefined behaviour. */
  datatype Outcome = Finished | Redirected(code: nat) | Escaped | Unspecified

  class Post {
    /** `_path`: the file last written. */
    var path: string

    constructor ()
      ensures path == []
    {
      path := [];
    }

    /** `isCgi`; each `getHeaderByKey` inserts the Cgi key if missing. */
    method IsCgi(fullUri: string, request: HttpRequest.Request) returns (b: bool)
      modifies request`header
      ensures b == CgiMatch(fullUri, HttpRequest.Slot(old(request.header), "Cgi"))
      ensures request.header == HttpRequest.Touch(old(request.header), "Cgi")
    {
      var cgi := request.GetHeaderByKey("Cgi");
      if cgi == "" {
        return false;
      }
      cgi := request.GetHeaderByKey("Cgi");
      b := FindSub(fullUri, cgi, 0).Some?;
    }

    /** `generateRandomString`, `rand` giving the values `rand()` returns
        after the `srand`. */
    method GenerateRandomString(rand: nat -> nat) returns (r: string)
      ensures r == RandomString(rand)
    {
      r := "";
      var i := 0;
      while i < 32
        invariant 0 <= i <= 32 && |r| == i
        invariant forall k :: 0 <= k < i ==> r[k] == RandomString(rand)[k]
      {
        r := r + [Charset[rand(i) % |Charset|]];
        i := i + 1;
      }
    }

    /** `createResource`: the name as written (see `CreatedName`), then
        the Location header and a 201 status line. */
    method CreateResource(response: HttpResponse.Response, fileName: string, fullUri: string,
                          files: set<string>, streams: nat -> (nat -> nat)) returns (name: string)
      modifies response`headers, response`statusLine
      ensures name == CreatedName(fileName, fullUri, files, streams)
      ensures response.headers == old(response.headers)["Location" := name]
      ensures response.statusLine == old(response.statusLine) + HttpResponse.StatusLineFor(201)
    {
      var suffix := GenerateRandomString(streams(0));
      name := fileName + suffix;
      var calls := 1;
      var isOpen := name in files;
      while isOpen
        invariant isOpen ==> calls == 1 && name == fileName + RandomString(streams(0)) && name in files
        invariant !isOpen ==> name == CreatedName(fileName, fullUri, files, streams)
        invariant response.headers == old(response.headers) && response.statusLine == old(response.statusLine)
        decreases if isOpen then 1 else 0
      {
        isOpen := false;
        suffix := GenerateRandomString(streams(calls));
        calls := calls + 1;
        name := fullUri + suffix;
        var shadow := name in files;
      }
      response.SetHeaders("Location", name);
      response.SetStatusLine(201);
    }

    /** `createResource` as evidently intended: draw names until one does
        not open, at most `tries` times. */
    method CreateResourceCorrected(fullUri: string, files: set<string>,
                                   streams: nat -> (nat -> nat), tries: nat) returns (name: Option<string>)
      ensures var j := FirstFree(fullUri, files, streams, 0, tries);
        name == if j.Some? then Some(fullUri + RandomString(streams(j.value))) else None
    {
      var calls := 0;
      while calls < tries
        invariant calls <= tries
        invariant FirstFree(fullUri, files, streams, 0, tries)
                  == FirstFree(fullUri, files, streams, calls, tries - calls)
        decreases tries - calls
      {
        var suffix := GenerateRandomString(streams(calls));
        if fullUri + suffix !in files {
          return Some(fullUri + suffix);
        }
        calls := calls + 1;
      }
      return None;
    }

    /** `appendResource`: the body goes at the end of the file, which is
        created when missing, and the name is remembered. */
    method AppendResource(fileName: string, request: HttpRequest.Request, files: map<string, string>)
      returns (after: map<string, string>)
      modifies this`path
      ensures path == fileName
      ensures after == files[fileName := HttpRequest.Slot(files, fileName) + request.body]
    {
      path := fileName;
      after := files[fileName := HttpRequest.Slot(files, fileName) + request.body];
    }

    /** The end of both success paths of `process`: `appendResource`,
        the two headers, `setResult`. */
    method Complete(fileName: string, request: HttpRequest.Request, response: HttpResponse.Response,
                    files: map<string, string>) returns (after: map<string, string>)
      modifies this`path, response`headers, response`result
      ensures path == fileName
      ensures after == files[fileName := HttpRequest.Slot(files, fileName) + request.body]
      ensures response.headers
        == old(response.headers)["Content-Length" := "0"]["Content-Type" := "application/octet-stream"]
      ensures response.result == old(response.result)
        + HttpResponse.Wire(response.statusLine, response.headers, response.body)
    {
      after := AppendResource(fileName, request, files);
      response.SetHeaders("Content-Length", "0");
      response.SetHeaders("Content-Type", "application/octet-stream");
      response.SetResult();
    }

    /** The CGI branch: `convertCGI` on the program's output. */
    method RunCgiOn(response: HttpResponse.Response, cgiOutput: string) returns (outcome: Outcome)
      modifies response
      ensures outcome == OutcomeOf(RunCgi, HttpResponse.CgiParse(cgiOutput, false).threw)
      ensures response.State() == CgiResponse(old(response.State()), cgiOutput)
    {
      var ok := response.ConvertCgi(cgiOutput);
      outcome := if ok then Finished else Escaped;
    }

    /** A target `process` refuses: `setErrorRes(code)` in the catch. */
    method Reject(response: HttpResponse.Response, code: nat)
      modifies response
      ensures response.State() == FileResponse(Fail(code), old(response.State()))
    {
      response.SetErrorRes(code);
    }

    /** A directory target named without its slash: the Location header,
        then the 301 thrown to the catch. */
    method Redirect(request: HttpRequest.Request, response: HttpResponse.Response)
      modifies request`header, response`headers
      ensures request.header == HttpRequest.Touch(old(request.header), "RawURI")
      ensures response.State()
        == FileResponse(MovedTo(HttpRequest.Slot(old(request.header), "RawURI") + "/"), old(response.State()))
    {
      var raw := request.GetHeaderByKey("RawURI");
      response.SetHeaders("Location", raw + "/");
    }

    /** A directory target with its slash: `createResource`, then the
        body written to the new name. */
    method CreateIn(request: HttpRequest.Request, response: HttpResponse.Response, fullUri: string,
                    files: map<string, string>, streams: nat -> (nat -> nat))
      returns (after: map<string, string>)
      modifies this`path, response
      ensures var plan := Create(CreatedName(fullUri, fullUri, files.Keys, streams));
        && after == FilesAfter(plan, files, request.body)
        && path == plan.name
        && response.State() == FileResponse(plan, old(response.State()))
    {
      ghost var r0 := response.State();
      var fileName := CreateResource(response, fullUri, fullUri, files.Keys, streams);
      ghost var plan := Create(fileName);
      ghost var sl := r0.statusLine + HttpResponse.StatusLineFor(201);
      assert response.statusLine == sl && response.body == r0.body;
      after := Complete(fileName, request, response, files);
      assert response.headers == SuccessHeaders(r0.headers, plan);
      assert response.result == r0.result + HttpResponse.Wire(sl, SuccessHeaders(r0.headers, plan), r0.body);
    }

    /** An existing file target: a 200 status line, then the body appended. */
    method AppendTo(request: HttpRequest.Request, response: HttpResponse.Response, fullUri: string,
                    files: map<string, string>)
      returns (after: map<string, string>)
      modifies this`path, response
      ensures var plan := Append(fullUri);
        && after == FilesAfter(plan, files, request.body)
        && path == plan.name
        && response.State() == FileResponse(plan, old(response.State()))
    {
      response.SetStatusLine(200);
      assert response.statusLine == old(response.statusLine) + HttpResponse.StatusLineFor(200);
      after := Complete(fullUri, request, response, files);
    }

    /** `process` after the CGI test, for a non-empty target. */
    method ProcessTarget(request: HttpRequest.Request, response: HttpResponse.Response, fullUri: string,
                         files: map<string, string>, streams: nat -> (nat -> nat))
      returns (after: map<string, string>, outcome: Outcome)
      requires fullUri != []
      modifies this, request`header, response
      ensures var plan := FilePlan(fullUri, request.mime, HttpRequest.Slot(old(request.header), "RawURI"),
                                   files.Keys, streams);
        && request.header == (if plan.MovedTo? then HttpRequest.Touch(old(request.header), "RawURI")
                              else old(request.header))
        && after == FilesAfter(plan, files, request.body)
        && outcome == OutcomeOf(plan, false)
        && path == (if plan.Create? || plan.Append? then plan.name else old(path))
        && response.State() == FileResponse(plan, old(response.State()))
    {
      if fullUri[|fullUri| - 1] == '/' {
        if request.mime != "directory" {
          Reject(response, 400);
          return files, Finished;
        }
        after := CreateIn(request, response, fullUri, files, streams);
      } else {
        if request.mime == "directory" {
          Redirect(request, response);
          return files, Redirected(301);
        }
        if fullUri !in files {
          Reject(response, 404);
          return files, Finished;
        }
        after := AppendTo(request, response, fullUri, files);
      }
      outcome := Finished;
    }

    /** `process`: the branch `Decide` picks, carried out on the request,
        the response, this object and the files. */
    method Process(request: HttpRequest.Request, response: HttpResponse.Response,
                   files: map<string, string>, streams: nat -> (nat -> nat), cgiOutput: string)
      returns (after: map<string, string>, outcome: Outcome)
      modifies this, request`header, response
      ensures var plan := Decide(old(request.header), request.mime, files.Keys, streams);
        && request.header == Touched(old(request.header), plan)
        && after == FilesAfter(plan, files, request.body)
        && outcome == OutcomeOf(plan, plan.RunCgi? && HttpResponse.CgiParse(cgiOutput, false).threw)
        && path == (if plan.Create? || plan.Append? then plan.name else old(path))
        && response.State() == if plan.RunCgi? then CgiResponse(old(response.State()), cgiOutput)
                               else FileResponse(plan, old(response.State()))
    {
      ghost var h0 := request.header;
      ghost var plan := Decide(h0, request.mime, files.Keys, streams);
      ghost var raw := HttpRequest.Slot(h0, "RawURI");
      var fullUri, cgi := ReadTarget(request);
      ghost var touched := request.header;
      assert touched == Touched(h0, RunCgi);
      if cgi {
        assert plan == RunCgi;
        outcome := RunCgiOn(response, cgiOutput);
        return files, outcome;
      }
      if fullUri == [] {
        assert plan == Undefined;
        return files, Unspecified;
      }
      assert plan == FilePlan(fullUri, request.mime, raw, files.Keys, streams);
      assert HttpRequest.Slot(touched, "RawURI") == raw;
      assert !plan.RunCgi? && !plan.Undefined?;
      after, outcome := ProcessTarget(request, response, fullUri, files, streams);
      assert request.header == Touched(h0, plan);
    }

    /** The start of `process`: the target from the RootDir and CuttedURI
        headers, and `isCgi` on it. */
    method ReadTarget(request: HttpRequest.Request) returns (fullUri: string, cgi: bool)
      modifies request`header
      ensures fullUri == HttpRequest.Slot(old(request.header), "RootDir")
                         + HttpRequest.Slot(old(request.header), "CuttedURI")
      ensures cgi == CgiMatch(fullUri, HttpRequest.Slot(old(request.header), "Cgi"))
      ensures request.header == HttpRequest.Touch(HttpRequest.Touch(HttpRequest.Touch(
                                  old(request.header), "RootDir"), "CuttedURI"), "Cgi")
      ensures HttpRequest.Slot(request.header, "RawURI") == HttpRequest.Slot(old(request.header), "RawURI")
    {
      ghost var h := request.header;
      var root := request.GetHeaderByKey("RootDir");
      var cut := request.GetHeaderByKey("CuttedURI");
      SlotAfterTouch(h, "RootDir", "CuttedURI");
      SlotAfterTouch(h, "RootDir", "Cgi");
      SlotAfterTouch(HttpRequest.Touch(h, "RootDir"), "CuttedURI", "Cgi");
      fullUri := root + cut;
      cgi := IsCgi(fullUri, request);
      SlotAfterTouch(h, "RootDir", "RawURI");
      SlotAfterTouch(HttpRequest.Touch(h, "RootDir"), "CuttedURI", "RawURI");
      SlotAfterTouch(HttpRequest.Touch(HttpRequest.Touch(h, "RootDir"), "CuttedURI"), "Cgi", "RawURI");
    }
  }
}
