# webserv in Dafny

A model of the core of webserv, a kqueue-based HTTP/1.1 server written in
C++98, with proofs about the model. The model covers:

- the request parser (`Request::parsing`, `parseUrl`, `clear`) and the older
  parser variant in `danbi/`;
- the response builder (`setResult`, `setErrorRes`, `setStatusLine`,
  `setHeaders`, `convertCGI`);
- the event loop of `ServerOperator` (accept, read, parse, write,
  keep-alive, time-out, error);
- the POST method (`isCgi`, `generateRandomString`, `createResource`,
  `process`);
- the three configuration scopes (`RootBlock`, `ServerBlock`,
  `LocationBlock`);
- the prototype server of `test/cpp/main.cpp`.

Each C++ class whose methods update fields is a Dafny `class` with those
fields. Every method is proved against a specification function of the old
state, and the lemmas beside those functions state what the code promises.
Strings are `seq<char>`. `std::map` is a Dafny `map`, walked in ascending
key order through `KeyOrder.SortedKeys`. `npos` is `None`.

Files, one module each:

- `text.dfy` (module `TextUtil`): `find`, `rfind`, `find_first_of`/`_not_of`, `>>`, `std::getline`, `ftItos`, `atoi`, `stoul`
- `key_order.dfy` (module `KeyOrder`): `std::string::operator<`, the key order of `std::map`, the `Key: Value\r\n` header block
- `request.dfy` (module `HttpRequest`): code/src/Request.cpp
- `early_request.dfy` (module `EarlyRequest`): danbi/cpp/Request.cpp
- `response.dfy` (module `HttpResponse`): code/src/Response.cpp
- `post.dfy` (module `PostMethod`): code/src/Post.cpp
- `server_operator.dfy` (module `Reactor`): code/src/ServerOperator.cpp
- `root_block.dfy` (module `RootScope`): code/src/RootBlock.cpp
- `server_block.dfy` (module `ServerScope`): code/src/ServerBlock.cpp
- `location_block.dfy` (module `LocationScope`): code/src/LocationBlock.cpp
- `toy_server.dfy` (module `ToyServer`): test/cpp/main.cpp

### How the event loop is modelled

The loop of `ServerOperator::run` is `Reactor.Run` over one batch of kqueue
events. Each event comes with an `Io` value: what the system calls it
triggers return (the descriptor `accept` gives, the bytes `read` gives,
whether `write` succeeds). It also carries two parameters: the location's
`limit_except` and keep-alive time, and the response each method object
produces together with how its `process` ended.

The registrations the loop asks for are a set of (descriptor, filter)
pairs. `close` drops a descriptor's READ and WRITE registrations but not
its timer. Requests are held by value.

`Reactor.Valid` is the invariant the loop keeps:

- `_clients` and `_clientToServer` have the same keys;
- every client has a timer and a status from the parser;
- every registration is a READ or WRITE of a listener or a client;
- every client is registered for exactly one of READ and WRITE;
- listening sockets stay registered for READ only.

`Reactor.RunValid` proves that every batch the kernel can report keeps it.

## Model

| member | source | states |
|---|---|---|
| TextUtil.FindChar | code/src/Request.cpp:63 | `find(c, from)` returns an index at or after `from` that holds `c` |
| TextUtil.FindCharSpec | code/src/Request.cpp:63-64 | the index `find` returns is the first `c` at or after `from`; None means no `c` there |
| TextUtil.FindIn | code/src/RootBlock.cpp:39 | `find_first_of` returns an index at or after `from` whose character is in the set |
| TextUtil.FindInSpec | code/src/RootBlock.cpp:39-40 | `find_first_of` returns the first such index, and None only when there is none |
| TextUtil.FindNotIn | code/src/Request.cpp:68-69 | `find_first_not_of` returns an index at or after `from` whose character is outside the set |
| TextUtil.FindNotInSpec | code/src/Request.cpp:68-69 | `find_first_not_of` returns the first such index, and None only when every character from `from` on is in the set |
| TextUtil.RFindChar | code/src/Request.cpp:10 | `rfind(c)` returns the last index holding `c`, or None when `c` does not occur |
| TextUtil.FindSub | code/src/Request.cpp:53 | `find(pat, from)` returns a position at or after `from` where `pat` occurs |
| TextUtil.FindSubSpec | code/src/Request.cpp:53 | that position is the first occurrence; None means `pat` occurs nowhere from `from` on |
| TextUtil.ContainsIff | code/src/Request.cpp:53-55 | `find("\r\n\r\n") != npos` holds exactly when the separator occurs somewhere in the buffer |
| TextUtil.TokenLen | code/src/Request.cpp:60 | one `>>` word runs up to the first whitespace |
| TextUtil.Words | code/src/Request.cpp:60 | the words `>>` extracts are non-empty and hold no whitespace |
| TextUtil.WordsCons | code/src/Request.cpp:60 | a word followed by a space is extracted first, then the words of the rest |
| TextUtil.WordsSingle | code/src/Request.cpp:60 | a single word with no whitespace is extracted whole |
| TextUtil.TokenLenOf | code/src/Request.cpp:60 | a word ends exactly at the next whitespace or at the end of the text |
| TextUtil.ThreeWords | code/src/Request.cpp:60 | "a b c" splits into exactly the three words a, b, c |
| TextUtil.GetLine | code/src/Request.cpp:58 | `getline` fails only at the end of the text; otherwise it returns the text up to the delimiter, without the delimiter, and moves past it, or returns the rest at EOF |
| TextUtil.SplitRest | code/src/Request.cpp:62 | reading a prefix off the rest of the text leaves exactly the remainder |
| TextUtil.LineRest | code/src/Request.cpp:82 | one `getline` consumes its text plus the '\n', or the rest of the input with no '\n' at its end |
| TextUtil.RejoinedLinesIsRest | code/src/Request.cpp:82-85 | the loop `body += line; if (!eof) body += '\n'` reproduces the remaining input verbatim |
| TextUtil.TerminatedLinesIsRest | danbi/cpp/Request.cpp:26 | the loop `body += line + "\n"` reproduces the remaining input and adds a '\n' only when the input does not end in one |
| TextUtil.DigitChar | code/src/Response.cpp:105 | a digit value becomes the character whose code is '0' plus that value |
| TextUtil.Decimal | code/src/Response.cpp:105 | `ftItos(n)` is a non-empty run of digits with no leading zero |
| TextUtil.DecimalAppend | code/src/Response.cpp:105 | the decimal text of 10n+d is that of n followed by the digit d |
| TextUtil.DecimalValue | code/src/Response.cpp:105 | the digits of `ftItos(n)` read back as n |
| TextUtil.DigitRun | code/src/RootBlock.cpp:53 | `atoi` reads the longest run of digits at the front |
| TextUtil.DigitRunAll | code/src/RootBlock.cpp:53 | a text of digits only is read to its end |
| TextUtil.SpaceRun | code/src/RootBlock.cpp:53 | `atoi` skips exactly the leading whitespace |
| TextUtil.SignAndStart | code/src/RootBlock.cpp:53 | `atoi` takes an optional sign, which is +1 or -1, and starts reading inside the text |
| TextUtil.AtoiDecimal | code/src/Response.cpp:110 | `atoi(ftItos(n)) == n`: a Content-Length header written by the server reads back as the length |
| TextUtil.AtoiStopsAtNonDigit | code/src/ServerBlock.cpp:28 | `atoi` stops at the first non-digit and reads the digits before it |
| TextUtil.DigitRunPrefix | code/src/ServerBlock.cpp:28 | the digit run of digits followed by a non-digit is those digits |
| TextUtil.Stoul | code/src/LocationBlock.cpp:20 | `stoul` gives a value below 2^64, or fails |
| TextUtil.StoulNeedsDigits | code/src/LocationBlock.cpp:20 | `stoul` fails (throws) on a text that starts with no digit, sign or space |
| TextUtil.StoulDecimal | code/src/LocationBlock.cpp:20 | `stoul` reads back any decimal text below 2^64 as its value |
| KeyOrder.LexIrreflexive | code/src/Response.cpp:124 | `std::string`'s `<` is irreflexive |
| KeyOrder.LexTransitive | code/src/Response.cpp:124 | `std::string`'s `<` is transitive |
| KeyOrder.LexTotal | code/src/Response.cpp:124 | any two different keys are ordered one way or the other |
| KeyOrder.LexAsymmetric | code/src/Response.cpp:124 | `std::string`'s `<` is asymmetric |
| KeyOrder.LeastExists | code/src/Response.cpp:124 | a non-empty key set has a least key, where a map iteration starts |
| KeyOrder.LeastUnique | code/src/Response.cpp:124 | that least key is unique |
| KeyOrder.Least | code/src/Response.cpp:124 | picks the least key of a non-empty set |
| KeyOrder.SortedKeys | code/src/Response.cpp:123-129 | the iteration order of a `std::map` holds only keys of the map |
| KeyOrder.SortedKeysSpec | code/src/Response.cpp:123-129 | the iteration order holds every key exactly once, in ascending order |
| KeyOrder.SortedKeysStep | code/src/Response.cpp:124 | iteration begins with the least key and goes on with the others |
| KeyOrder.AscendingUnique | code/src/Response.cpp:124 | any ascending listing of exactly the keys is the iteration order |
| KeyOrder.HeaderLinesAppend | code/src/Response.cpp:125-128 | one more turn of the header loop appends `key: value\r\n` after the lines already written |
| KeyOrder.HeaderLineInBlock | code/src/Response.cpp:125-128 | every header of the visited keys appears as a line of the header block |
| HttpRequest.Touch | code/src/Request.cpp:143-145 | reading `_header[k]` inserts k with "" when it is missing and changes no other entry |
| HttpRequest.Extension | code/src/Request.cpp:10-29 | the suffix after the last '.' holds no '.'; None when the target has no '.' |
| HttpRequest.ExtensionOf | code/src/Request.cpp:10-29 | the suffix of `stem.ext` is `ext`, and a target with no '.' has none |
| HttpRequest.PathSearchStart | code/src/Request.cpp:43-47 | the search for the path starts after "://" or at 0, inside the target |
| HttpRequest.BasicUriSpec | code/src/Request.cpp:43-49 | BasicURI exists exactly when a '/' follows the scheme; it starts at the first such '/' and runs to the first '?' or the end |
| HttpRequest.DropLineFeeds | code/src/Request.cpp:69 | the key starts at its first character that is not '\n' |
| HttpRequest.DropLineFeedsSuffix | code/src/Request.cpp:69-70 | dropping the leading '\n's keeps a suffix of the key text |
| HttpRequest.HeaderFieldOf | code/src/Request.cpp:63-71 | a line of '\n's, key, ':', spaces and value is filed as key → value |
| HttpRequest.DropLineFeedsOf | code/src/Request.cpp:69-70 | '\n's before a key are dropped and the key itself is kept |
| HttpRequest.HeaderFieldShape | code/src/Request.cpp:63-71 | every line filed as key → value has exactly that shape: the converse of HeaderFieldOf |
| HttpRequest.LineShape | code/src/Request.cpp:63-71 | a line whose first ':' is at p, and whose value starts at v, splits as '\n's, key, ':', spaces and value |
| HttpRequest.FieldPositions | code/src/Request.cpp:63-71 | a filed line has its key before the first ':' and its value from the first non-space after it |
| HttpRequest.KeyParts | code/src/Request.cpp:69-70 | the key text splits into leading '\n's and the key, which has no ':' |
| HttpRequest.DropLineFeedsPrefix | code/src/Request.cpp:69 | what is dropped in front of a key is only '\n's |
| HttpRequest.HeaderScan | code/src/Request.cpp:62-72 | the header loop only moves forward through the buffer |
| HttpRequest.HeaderScanKeeps | code/src/Request.cpp:62-72 | the header loop never removes a header already filed |
| HttpRequest.HeaderScanEndsAtBlankLine | code/src/Request.cpp:62 | the loop stops normally only right after a "\n\r" line, the blank line of the header block |
| HttpRequest.RequestLineHeader | code/src/Request.cpp:60 | the request line sets exactly the Method, URI and protocol headers |
| HttpRequest.SizeDiff | code/src/Request.cpp:92 | `_rawContents.size() - _body.size()` wraps modulo 2^64 and is the plain difference when the body is not longer |
| HttpRequest.ParseRestStatus | code/src/Request.cpp:62-95 | after the request line the status is kept or becomes 400, 405 or 414; the raw buffer is untouched; the request is complete unless an exception escaped |
| HttpRequest.Parse | code/src/Request.cpp:52-96 | `parsing` never changes the raw buffer |
| HttpRequest.ParseWaitsForHeaderEnd | code/src/Request.cpp:53-95 | without "\r\n\r\n" in the buffer, parsing changes nothing; with it, the request is complete unless an exception escaped |
| HttpRequest.ParseStatus | code/src/Request.cpp:35-93 | `parsing` keeps the status or sets one of 400, 404, 405 and 414 |
| HttpRequest.ParseStatusRule | code/src/Request.cpp:62-95 | for a complete request: 414 when raw size minus body size (in `size_t`) reaches 8192; otherwise 400 without Host, then 405 for a method outside GET/POST/DELETE, then 400 for a malformed header line or else the status `parseUrl` left (the old one or 404); `_host` becomes the Host value when Host is present and the method allowed, and is unchanged otherwise |
| HttpRequest.Request.constructor | code/src/Request.cpp:3 | a new request has mime text/html, status 200, and is not complete |
| HttpRequest.Request.ParseUrl | code/src/Request.cpp:7-50 | `parseUrl` is UrlStep on the old state: MIME from the suffix table or the `stat` oracle, 404 for a missing file, BasicURI stored, or an `out_of_range` when no '/' follows |
| HttpRequest.Request.ReadHeaderLines | code/src/Request.cpp:62-72 | the header loop as written leaves exactly what HeaderScan describes |
| HttpRequest.Request.ReadBody | code/src/Request.cpp:81-85 | the body loop appends the rest of the buffer from the line after the headers, verbatim |
| HttpRequest.Request.Parsing | code/src/Request.cpp:52-96 | `parsing` leaves exactly the state Parse gives and does not touch autoindex |
| HttpRequest.Request.ParseAfterUrl | code/src/Request.cpp:62-95 | the part of `parsing` after `parseUrl` leaves exactly the state ParseRest gives |
| HttpRequest.Request.CheckHeaders | code/src/Request.cpp:65-80 | a missing Host gives 400, a method outside GET/POST/DELETE gives 405, otherwise the host is the Host header |
| HttpRequest.Request.ReadAfterHeaders | code/src/Request.cpp:81-95 | the body is read from the line after the header loop; a size difference of 8192 or more gives 414; the request becomes complete |
| HttpRequest.Request.Clear | code/src/Request.cpp:100-112 | `clear` restores the constructor state and keeps only the ClientIP header |
| HttpRequest.Request.AddRawContents | code/src/Request.cpp:114 | the raw buffer only grows, at its end |
| HttpRequest.Request.AddHeader | code/src/Request.cpp:116-118 | the last value set for a key wins and no other key changes |
| HttpRequest.Request.SetAutoindex | code/src/Request.cpp:98 | autoindex becomes the value |
| HttpRequest.Request.GetHeaderByKey | code/src/Request.cpp:143-145 | returns the stored value or "", inserting the key when it is missing |
| EarlyRequest.FieldOfLine | danbi/cpp/Request.cpp:15-20 | a line `c key:value` is filed as key → value: the first character is dropped and the value keeps everything after the ':' |
| EarlyRequest.FieldOfShape | danbi/cpp/Request.cpp:15-20 | every filed line has exactly that shape: the converse of FieldOfLine |
| EarlyRequest.FieldOfLeadingColon | danbi/cpp/Request.cpp:20 | a line starting with ':' files the rest of the line under a key equal to the rest |
| EarlyRequest.HeaderScan | danbi/cpp/Request.cpp:14-21 | the header loop only moves forward |
| EarlyRequest.RequestLineHeader | danbi/cpp/Request.cpp:13 | the request line sets exactly the method, URI and protocol headers |
| EarlyRequest.Scan | danbi/cpp/Request.cpp:11-21 | the request line and the header loop stay inside the input |
| EarlyRequest.ParseErrorOrder | danbi/cpp/Request.cpp:14-30 | 414 when raw size minus body size reaches 8192; otherwise 405 for a method outside GET/POST/DELETE; otherwise 400 when a header line has no ':', and else the error it had; no other error is ever set |
| EarlyRequest.ParseBody | danbi/cpp/Request.cpp:26 | the body is the rest of the input after the header loop, with a '\n' added when it does not end in one |
| EarlyRequest.Request.constructor | danbi/cpp/Request.cpp:3 | a new parser has no headers, an empty body and no error |
| EarlyRequest.Request.ReadHeaderLines | danbi/cpp/Request.cpp:14-21 | the header loop as written leaves exactly what HeaderScan describes |
| EarlyRequest.Request.ReadBody | danbi/cpp/Request.cpp:26 | the body loop appends every remaining line followed by '\n' |
| EarlyRequest.Request.Parsing | danbi/cpp/Request.cpp:7-31 | `parsing` leaves exactly the state Parse gives |
| HttpResponse.Reason | code/src/Response.cpp:5-27 | a reason phrase is empty or starts with a space |
| HttpResponse.ReasonListed | code/src/Response.cpp:5-27 | exactly the 21 listed codes have a reason phrase |
| HttpResponse.StatusLine200 | code/src/Response.cpp:134-138 | the default status line is "HTTP/1.1 200 OK" |
| HttpResponse.UnlistedCodeBody | code/src/Response.cpp:106-108 | a code missing from the table has an empty reason, so its error body is exactly ": Error" |
| HttpResponse.TimeoutBody | code/src/Response.cpp:106-108 | 408 and 413 have the error body ": Error" |
| HttpResponse.HeaderBlockStep | code/src/Response.cpp:123-129 | one turn of the header loop visits the least key still to visit and appends its line |
| HttpResponse.Response.constructor | code/src/Response.cpp:5-27 | a new response has an empty status line, headers, body and result |
| HttpResponse.Response.SetResult | code/src/Response.cpp:119-132 | `setResult` appends status line, CRLF, one `key: value` line per header in ascending key order, CRLF and the body |
| HttpResponse.Response.SetStatusLine | code/src/Response.cpp:134-138 | `setStatusLine` appends "HTTP/1.1 ", the code and its reason to the status line already there |
| HttpResponse.Response.SetErrorRes | code/src/Response.cpp:100-112 | `setErrorRes` replaces status line, headers and body by the error page of the code, whose Content-Length reads back as the body length, and appends it to the result |
| HttpResponse.Response.IsInHeader | code/src/Response.cpp:114-117 | true exactly when the key is set |
| HttpResponse.Response.SetHeaders | code/src/Response.cpp:145-157 | last write wins and every other header is unchanged |
| HttpResponse.Response.SetBody | code/src/Response.cpp:159 | the body becomes the value |
| HttpResponse.Response.GetBody | code/src/Response.cpp:98 | returns the body |
| HttpResponse.Response.ReadCgiHeaders | code/src/Response.cpp:35-47 | the header loop leaves the status line and headers CgiHeaderScan gives, or an escaped `out_of_range` |
| HttpResponse.Response.ReadCgiBody | code/src/Response.cpp:48-51 | the body loop reproduces the rest of the CGI output verbatim |
| HttpResponse.Response.ConvertCgi | code/src/Response.cpp:31-59 | the status line defaults to 200 OK; Content-Length is added as the body length when missing; the response is appended to the result; after an exception the fields stay as it left them |
| HttpResponse.Response.ApplyCgiDefaults | code/src/Response.cpp:52-58 | the defaults of `convertCGI` and the final `setResult` |
| HttpResponse.CgiHeaderScan | code/src/Response.cpp:39-47 | the CGI header loop only moves forward |
| HttpResponse.CgiParse | code/src/Response.cpp:31-51 | an escaped exception leaves the body empty |
| HttpResponse.ReadName | code/src/Response.cpp:45 | as written, a key read from CGI output keeps the '\n' that ended the previous line; corrected, it is the key itself |
| HttpResponse.ReadNamesSpec | code/src/Response.cpp:45 | the keys read are exactly the names of the keys written |
| HttpResponse.ReadHeadersSpec | code/src/Response.cpp:39-47 | reading the header lines files every written header under its read name, keeps other earlier entries, and adds nothing else |
| HttpResponse.GetLineAt | code/src/Response.cpp:39 | `getline` on a text followed by its delimiter returns that text |
| HttpResponse.CgiScanHeaderStep | code/src/Response.cpp:39-45 | one header line `\nk: v\r` is read, split at its ':', and filed under the read name of k with value v |
| HttpResponse.ScanStopsAtBlankLine | code/src/Response.cpp:39 | the loop stops at the "\n" line |
| HttpResponse.ScanReadsField | code/src/Response.cpp:43-45 | a line with a ':' files the text after ": " and goes on |
| HttpResponse.CgiScanBlankLine | code/src/Response.cpp:39 | at the blank line the scan ends, just before the body's line feed |
| HttpResponse.WireFieldSplit | code/src/Response.cpp:125-128 | the header lines of the wire form split into the first line and the rest |
| HttpResponse.CgiScanField | code/src/Response.cpp:39-46 | reading one header line of the wire form files it and goes on |
| HttpResponse.AllPlainOf | code/src/Response.cpp:45 | when every header is plain, so is each one visited |
| HttpResponse.WireTailOf | code/src/Response.cpp:125-131 | the wire form after the status line is one header line per key, the blank line and the body |
| HttpResponse.WireTailScan | code/src/Response.cpp:39-47 | the loop reads back the headers of the wire form, in order, and stops at the blank line |
| HttpResponse.WireHeadersScan | code/src/Response.cpp:39-47 | from the first line feed the loop reads back all headers of the wire form |
| HttpResponse.WireStart | code/src/Response.cpp:120-121 | the wire form starts with the status line and '\r' |
| HttpResponse.ScanStatusLine | code/src/Response.cpp:40-41 | a status line containing "HTTP/1.1" becomes the status line |
| HttpResponse.CgiReadBack | code/src/Response.cpp:39-47 | the CGI header loop reads back the status line and headers `setResult` wrote |
| HttpResponse.ReadBackFrom | code/src/Response.cpp:39-47 | reading back holds for any text that starts with the status line and header lines |
| HttpResponse.ReadHeadersCorrected | code/src/Response.cpp:45 | with keys read without the '\n', the headers read back are exactly the headers written |
| HttpResponse.ReadHeadersAsWritten | code/src/Response.cpp:45 | as written, every header comes back under "\n" + its key, and nothing else comes back |
| HttpResponse.WireBody | code/src/Response.cpp:130-131 | the body is the end of the wire form, after the blank line |
| HttpResponse.SkipLineFeed | code/src/Response.cpp:48 | the first body line read is the empty line left after the header loop |
| HttpResponse.CgiRoundTripCorrected | code/src/Response.cpp:31-51 | corrected, parsing what `setResult` wrote returns the same status line, headers and body |
| HttpResponse.CgiAsWrittenKeepsLineFeed | code/src/Response.cpp:39-51 | as written, the keys come back prefixed by '\n' and the body by one extra '\n' |
| HttpResponse.ParseAsWritten | code/src/Response.cpp:31-51 | after the header loop, the body is the rest of the output |
| HttpResponse.HiddenKey | code/src/Response.cpp:55 | a key without a leading '\n' is not among the keys read as written |
| HttpResponse.CgiContentLengthDuplicated | code/src/Response.cpp:45-56 | CGI output that has a Content-Length header is read without one, so a second Content-Length is added |
| PostMethod.CgiMatchIff | code/src/Post.cpp:7-14 | `isCgi` holds exactly when the Cgi header is non-empty and occurs in the target |
| PostMethod.RandomString | code/src/Post.cpp:16-25 | a generated name has 32 characters from the 62-character alphanumeric charset |
| PostMethod.CreatedNameShape | code/src/Post.cpp:27-38 | the new name is the directory plus 32 charset characters; when the first draw is free, that draw is the name |
| PostMethod.CreatedNameMayExist | code/src/Post.cpp:29-38 | as written, a second draw equal to the first existing name is taken without being checked |
| PostMethod.FirstFreeSpec | code/src/Post.cpp:29-38 | corrected, the draw taken is the first free one; None means every draw was taken |
| PostMethod.DecideSpec | code/src/Post.cpp:50-83 | the decision tree: CGI exactly when `isCgi`; 400 for a slash-terminated non-directory; 301 for a directory without its slash; 404 for a missing file; otherwise append to the target or create a name under it |
| PostMethod.SlotAfterTouch | code/src/Post.cpp:52-53 | reading one header never changes what another reads as |
| PostMethod.WrittenResponse | code/src/Post.cpp:77-82 | a written file answers 201 with Location or 200, with Content-Length 0 and the octet-stream type, appended to the result; earlier headers are kept |
| PostMethod.FailedResponse | code/src/Post.cpp:84-86 | a failure replaces the response with the error page of its code |
| PostMethod.AppendKeeps | code/src/Post.cpp:43-48 | appending keeps what the file held, adds the body after it, and changes no other file |
| PostMethod.Post.constructor | code/src/Post.cpp:3 | a new Post has no path |
| PostMethod.Post.IsCgi | code/src/Post.cpp:7-14 | `isCgi` is CgiMatch on the Cgi header, which it inserts when missing |
| PostMethod.Post.GenerateRandomString | code/src/Post.cpp:16-25 | the loop builds RandomString |
| PostMethod.Post.CreateResource | code/src/Post.cpp:27-41 | the name is CreatedName; Location is set to it and a 201 status line is appended |
| PostMethod.Post.CreateResourceCorrected | code/src/Post.cpp:29-38 | drawing until a name is free gives the first free draw |
| PostMethod.Post.AppendResource | code/src/Post.cpp:43-48 | the body is appended to the file, and the path is that file |
| PostMethod.Post.Complete | code/src/Post.cpp:79-82 | the file is written and the two success headers set |
| PostMethod.Post.RunCgiOn | code/src/Post.cpp:56-60 | the CGI output is converted into the response |
| PostMethod.Post.Reject | code/src/Post.cpp:84-86 | a thrown error code becomes its error page |
| PostMethod.Post.Redirect | code/src/Post.cpp:68-73 | Location becomes RawURI + "/" for a redirect |
| PostMethod.Post.CreateIn | code/src/Post.cpp:62-82 | a directory target gets a new file with the body, a 201 and the success headers |
| PostMethod.Post.AppendTo | code/src/Post.cpp:74-82 | an existing file gets the body appended, a 200 and the success headers |
| PostMethod.Post.ProcessTarget | code/src/Post.cpp:61-89 | the non-CGI branches follow FilePlan |
| PostMethod.Post.Process | code/src/Post.cpp:50-90 | `process` follows Decide: the headers it reads, the files after it, how it ends, the path and the response |
| PostMethod.Post.ReadTarget | code/src/Post.cpp:52-56 | the target is RootDir + CuttedURI, and the CGI test is CgiMatch |
| Reactor.ClassifySpec | code/src/ServerOperator.cpp:26-41 | an error flag is handled first; otherwise READ, WRITE and TIMER go to their handlers, and any other filter is ignored |
| Reactor.SelectMethodSpec | code/src/ServerOperator.cpp:152-166 | GET/HEAD needs limit GET or ""; POST/PUT needs POST or ""; DELETE needs DELETE or ""; anything else gets the base Method |
| Reactor.DisconnectSpec | code/src/ServerOperator.cpp:198-205 | the fd leaves both tables and its READ/WRITE registrations; nothing else changes |
| Reactor.TimeOutSpec | code/src/ServerOperator.cpp:57-64 | a time-out deletes the timer, sends the 408 page when the write succeeds, and disconnects |
| Reactor.TimeOutPage | code/src/ServerOperator.cpp:60-62 | the 408 page is "HTTP/1.1 408" with an empty reason, text/plain, Content-Length 7 and body ": Error" |
| Reactor.StatusLine408 | code/src/ServerOperator.cpp:61 | the 408 status line has no reason phrase |
| Reactor.AcceptSpec | code/src/ServerOperator.cpp:74-91 | the new client has an empty request with its ClientIP, is mapped to its listener, and is registered for READ with the listener's keep-alive timer |
| Reactor.ReadClientSpec | code/src/ServerOperator.cpp:93-131 | the bytes read are appended; a complete request moves the client from READ to WRITE and re-arms the timer; an incomplete one changes no registration; a parsed complete request over the location's body-size limit carries 413, otherwise it is what `parsing` gives |
| Reactor.SettleSpec | code/src/ServerOperator.cpp:118-130 | after parsing, a complete request switches READ to WRITE and re-arms the timer |
| Reactor.WriteEventSpec | code/src/ServerOperator.cpp:136-189 | a status other than 200 sends its error page; for status 200, an exception escaping the method object's `process` stops the server with nothing sent, and undefined behaviour inside it is the phase Undefined; otherwise a failed write disconnects; status 413 disconnects once its page is sent; any other sent response clears the request, keeps ClientIP, re-arms the timer and switches WRITE to READ |
| Reactor.InitialValid | code/src/ServerOperator.cpp:11-13 | the initial state is consistent; the loop runs only when kqueue set-up succeeds |
| Reactor.DisconnectValid | code/src/ServerOperator.cpp:198-205 | disconnecting a client keeps the invariant |
| Reactor.ErrorEventValid | code/src/ServerOperator.cpp:46-55 | the error handler keeps the invariant |
| Reactor.TimeOutValid | code/src/ServerOperator.cpp:57-64 | the time-out handler keeps the invariant |
| Reactor.AcceptValid | code/src/ServerOperator.cpp:74-91 | accepting a fresh descriptor keeps the invariant |
| Reactor.SettleValid | code/src/ServerOperator.cpp:118-130 | switching a complete request to WRITE keeps the invariant |
| Reactor.ReadClientValid | code/src/ServerOperator.cpp:93-131 | reading from a client keeps the invariant |
| Reactor.AnswerValid | code/src/ServerOperator.cpp:171-187 | sending, disconnecting or re-arming after a write keeps the invariant |
| Reactor.RearmValid | code/src/ServerOperator.cpp:182-186 | re-arming a served client for READ keeps the invariant |
| Reactor.WriteEventValid | code/src/ServerOperator.cpp:136-189 | the write handler keeps the invariant |
| Reactor.StepValid | code/src/ServerOperator.cpp:26-41 | each event the kernel can report keeps the invariant |
| Reactor.RunValid | code/src/ServerOperator.cpp:17-43 | a whole batch of events keeps the invariant |
| Reactor.ValidWriteTargets | code/src/ServerOperator.cpp:139-176 | a WRITE registration belongs to a client, and every client's status is one the parser gives, never negative, so `setErrorRes` always gets a code it can spell |
| Reactor.WaitingValid | code/src/ServerOperator.cpp:118-130 | a client waiting for WRITE with its timer armed is a consistent state |
| Reactor.StaleWriteUndefined | code/src/ServerOperator.cpp:57-143 | from a consistent state, the batch [TIMER fd, WRITE fd] dereferences the request of a client already erased |
| Reactor.PostWriteEnds | code/src/ServerOperator.cpp:143-168 | a valid POST/PUT request ends the write handler as Post's `process` ends: a throwing CGI conversion stops the server with nothing sent, `back()` on an empty target is undefined, any other plan sends the Post response with the loop still running |
| Reactor.CheckedRunDefined | code/src/ServerOperator.cpp:93-143 | with the existence check also on WRITE, a batch from a consistent state reaches undefined behaviour only at a WRITE event whose method object's `process` is itself undefined, never through the loop's own use of an erased client |
| Reactor.StepDefined | code/src/ServerOperator.cpp:93-143 | with that check, an event reaches undefined behaviour only when it is a WRITE for a status-200 client whose method object's `process` is undefined |
| Reactor.Loaded | code/src/ServerOperator.cpp:139 | the by-value stand-in for the `_clients[fd]` pointer (here and at :95): a fresh Request object holding the client's request state |
| Reactor.ErrorBytes | code/src/ServerOperator.cpp:60-61 | a new Response after `setErrorRes(code)` holds the error page of the code |
| Reactor.ServerOperator.constructor | code/src/ServerOperator.cpp:3-13 | the loop starts with no clients and the listeners registered for READ |
| Reactor.ServerOperator.IsExistClient | code/src/ServerOperator.cpp:191-196 | true exactly when the fd is a client |
| Reactor.ServerOperator.DisconnectClient | code/src/ServerOperator.cpp:198-205 | leaves the state Disconnect gives |
| Reactor.ServerOperator.HandleEventError | code/src/ServerOperator.cpp:46-55 | an error on a listener exits; an error on a client disconnects it |
| Reactor.ServerOperator.HandleRequestTimeOut | code/src/ServerOperator.cpp:57-64 | leaves the state TimeOut gives |
| Reactor.ServerOperator.HandleReadEvent | code/src/ServerOperator.cpp:66-134 | a listener accepts, a client reads, any other fd is ignored |
| Reactor.ServerOperator.AcceptClient | code/src/ServerOperator.cpp:74-91 | a failed accept exits; otherwise the state Accept gives |
| Reactor.ServerOperator.ReadData | code/src/ServerOperator.cpp:107-131 | leaves the state ReadClient gives |
| Reactor.ServerOperator.SettleRequest | code/src/ServerOperator.cpp:118-130 | leaves the state Settle gives |
| Reactor.ServerOperator.HandleWriteEvent | code/src/ServerOperator.cpp:136-189 | leaves the state WriteEvent gives, including the stop when `process` throws and the undefined end when it is undefined |
| Reactor.ServerOperator.SendAndRearm | code/src/ServerOperator.cpp:171-187 | leaves the state Answer gives |
| Reactor.ServerOperator.Dispatch | code/src/ServerOperator.cpp:25-41 | one event is dispatched as Step describes |
| Reactor.ServerOperator.RunBatch | code/src/ServerOperator.cpp:19-42 | one batch is processed as Run describes |
| RootScope.CopyOf | code/src/RootBlock.cpp:28-33 | the copy keeps user, worker counts, include and the status table, and drops group, error_log, pid and rlimit |
| RootScope.CopyDropsSettings | code/src/RootBlock.cpp:28-33 | a scope with any of those four set is not equal to its copy; copying a copy changes nothing |
| RootScope.SplitUserSingle | code/src/RootBlock.cpp:45-48 | a value without whitespace is both user and group |
| RootScope.FirstSpaceAfterUser | code/src/RootBlock.cpp:39 | the first whitespace is found right after the user name |
| RootScope.GroupAfterSpaces | code/src/RootBlock.cpp:42 | the group starts at the first non-whitespace after it |
| RootScope.UserGroupPositions | code/src/RootBlock.cpp:39-43 | both positions for `user sep group` |
| RootScope.SplitUserDropsLastChar | code/src/RootBlock.cpp:41-43 | as written, the user loses its last character and the group is read whole |
| RootScope.SplitUserExample | code/src/RootBlock.cpp:41 | "www data" gives user "ww" and group "data" |
| RootScope.SplitUserCorrectedSplits | code/src/RootBlock.cpp:39-44 | corrected, `user sep group` gives that user and group |
| RootScope.SetKeyFrame | code/src/RootBlock.cpp:72-87 | a directive changes only its own field, and an unknown key changes nothing |
| RootScope.SetKeyNumeric | code/src/RootBlock.cpp:51-68 | the numeric directives read back their decimal value |
| RootScope.RootBlock.constructor | code/src/RootBlock.cpp:3-26 | worker counts 0, empty strings, the 21-entry status table |
| RootScope.RootBlock.Copy | code/src/RootBlock.cpp:28-33 | the copy constructor gives CopyOf |
| RootScope.RootBlock.SetUser | code/src/RootBlock.cpp:37-49 | user and group as SplitUser reads them |
| RootScope.RootBlock.SetWorkerProcesses | code/src/RootBlock.cpp:51-54 | `atoi` of the value |
| RootScope.RootBlock.SetErrorLog | code/src/RootBlock.cpp:56 | the value |
| RootScope.RootBlock.SetPid | code/src/RootBlock.cpp:58 | the value |
| RootScope.RootBlock.SetWorkerRlimitNofile | code/src/RootBlock.cpp:60-63 | `atoi` of the value |
| RootScope.RootBlock.SetWorkerConnections | code/src/RootBlock.cpp:65-68 | `atoi` of the value |
| RootScope.RootBlock.SetInclude | code/src/RootBlock.cpp:70 | the value |
| RootScope.RootBlock.SetKeyVal | code/src/RootBlock.cpp:72-87 | dispatch as SetKey describes |
| RootScope.RootBlock.GetStatusCode | code/src/RootBlock.cpp:105-114 | the reason of a listed code; otherwise the `runtime_error` (None) |
| RootScope.FreshStatusCodes | code/src/RootBlock.cpp:5-25 | the table lists 404 as Not Found but not 408, and every key is three digits |
| ServerScope.ColonAfterHost | code/src/ServerBlock.cpp:25 | the first ':' is the one after the host |
| ServerScope.ListenDropsLastChar | code/src/ServerBlock.cpp:26-28 | as written, `host:port` keeps the host minus its last character, and the port |
| ServerScope.ListenExample | code/src/ServerBlock.cpp:27 | "localhost:8080" gives host "localhos" and port 8080 |
| ServerScope.Decimal8080 | code/src/ServerBlock.cpp:28 | the decimal text of 8080 |
| ServerScope.ListenCorrectedSplits | code/src/ServerBlock.cpp:25-28 | corrected, `host:port` gives that host and port |
| ServerScope.ListenWithoutColon | code/src/ServerBlock.cpp:31-36 | without ':', a value with a non-digit is the host, and a value of digits only is the port |
| ServerScope.SetServerKeyFrame | code/src/ServerBlock.cpp:48-63 | a server directive changes only its own field; the server keys are disjoint from the root keys |
| ServerScope.ServerBlock.FromRoot | code/src/ServerBlock.cpp:3-10 | the root part is a copy of the root scope; port 0 and empty strings |
| ServerScope.ServerBlock.Copy | code/src/ServerBlock.cpp:12-19 | the server fields are copied and the root part goes through the root copy |
| ServerScope.ServerBlock.SetListen | code/src/ServerBlock.cpp:23-38 | host and port as Listen reads them |
| ServerScope.ServerBlock.SetRoot | code/src/ServerBlock.cpp:40 | the getter returns the value |
| ServerScope.ServerBlock.SetIndex | code/src/ServerBlock.cpp:42 | the getter returns the value |
| ServerScope.ServerBlock.SetServerName | code/src/ServerBlock.cpp:44 | the getter returns the value |
| ServerScope.ServerBlock.SetClientMaxBodySize | code/src/ServerBlock.cpp:46 | the getter returns the value |
| ServerScope.ServerBlock.SetKeyVal | code/src/ServerBlock.cpp:48-63 | a server key goes to its setter; any other key goes to the root scope's `setKeyVal` |
| LocationScope.SetLocKeyFrame | code/src/LocationBlock.cpp:37-55 | a directive changes only its own field; an unknown key changes nothing, with no fallback to another scope |
| LocationScope.BodySizeParsed | code/src/LocationBlock.cpp:19-21 | a decimal body size is stored; a non-numeric one throws and changes nothing |
| LocationScope.LocationBlock.constructor | code/src/LocationBlock.cpp:3-5 | empty strings and a body size of 0 |
| LocationScope.LocationBlock.SetPath | code/src/LocationBlock.cpp:9 | the getter returns the value |
| LocationScope.LocationBlock.SetIndex | code/src/LocationBlock.cpp:11 | the getter returns the value |
| LocationScope.LocationBlock.SetRoot | code/src/LocationBlock.cpp:13 | the getter returns the value |
| LocationScope.LocationBlock.SetAutoindex | code/src/LocationBlock.cpp:15 | the getter returns the value |
| LocationScope.LocationBlock.SetLimitExcept | code/src/LocationBlock.cpp:17 | the getter returns the value |
| LocationScope.LocationBlock.SetClientMaxBodySize | code/src/LocationBlock.cpp:19-21 | `stoul` of the value, or a throw that changes nothing |
| LocationScope.LocationBlock.SetKeyVal | code/src/LocationBlock.cpp:37-55 | dispatch as SetLocKey describes |
| ToyServer.ReadRequest | test/cpp/main.cpp:182-227 | the loop reads the request ParseRequest describes |
| ToyServer.LineHasNoFeed | test/cpp/main.cpp:204 | a header line as sent has no '\n' inside |
| ToyServer.LineColon | test/cpp/main.cpp:205-208 | a header line splits at its first ':'; a junk line has none |
| ToyServer.HeaderLoopStep | test/cpp/main.cpp:204-211 | one line is filed (or skipped) and the loop goes on |
| ToyServer.HeaderLoopEnd | test/cpp/main.cpp:204 | the loop stops at the "\r" line |
| ToyServer.FirstLineAt | test/cpp/main.cpp:204 | `getline` reads the first header line, and the others follow |
| ToyServer.HeaderLoopReads | test/cpp/main.cpp:204-211 | header lines ending in a blank line are filed in order, the last value for a key winning, lines without ':' skipped |
| ToyServer.CrlfHeaderValue | test/cpp/main.cpp:204-209 | a `k: v\r\n` line is filed with the value " v\r": the space and the '\r' stay |
| ToyServer.RequestLineRead | test/cpp/main.cpp:198-201 | method and path are the first two words of the request line |
| ToyServer.WordsOfRequestLine | test/cpp/main.cpp:200 | the request line splits into its three words; the '\r' does not count as a word |
| ToyServer.RouteSpec | test/cpp/main.cpp:162-175 | Server: CustomHTTPServer always; an exact path match gets Hello, World! with 200, anything else 404 Not Found |
| ToyServer.ReplyHeadersOrder | test/cpp/main.cpp:235 | Content-Type comes before Server |
| ToyServer.NotFoundWire | test/cpp/main.cpp:229-246 | the 404 reply is sent as "HTTP/1.1 404 OK", the two headers, a blank line and "Not Found" |
| ToyServer.IntText404 | test/cpp/main.cpp:232 | 404 is written as "404" |
| ToyServer.SerialisedOf | test/cpp/main.cpp:229-246 | the reply text is the status line with "OK", the header block, CRLF and a non-empty body |
| ToyServer.Response.constructor | test/cpp/main.cpp:25-30 | a new response has no status, no body and no headers |
| ToyServer.Response.SetHeader | test/cpp/main.cpp:43 | last write wins |
| ToyServer.Response.HelloWorldHandler | test/cpp/main.cpp:40-44 | 200, "Hello, World!", Content-Type text/plain |
| ToyServer.Response.NotFoundHandler | test/cpp/main.cpp:49-53 | 404, "Not Found", Content-Type text/plain |
| ToyServer.SendResponse | test/cpp/main.cpp:229-248 | returns the bytes Serialised describes: the status line always says OK, the headers in key order, and the body only when non-empty |
| ToyServer.HttpServer.constructor | test/cpp/main.cpp:58 | the port, and no routes |
| ToyServer.HttpServer.AddRoute | test/cpp/main.cpp:60-62 | last write wins for a path |
| ToyServer.HttpServer.HandleClient | test/cpp/main.cpp:162-180 | the reply sent is the serialised route of the parsed path |
| ToyServer.MainRoutes | test/cpp/main.cpp:251-257 | with the route table main builds ("/" only), "/" answers 200 "Hello, World!" and every other path 404 "Not Found", both text/plain from CustomHTTPServer |

## Left out

- The kernel and the C library: `kqueue`, `kevent`, `accept`, `read`,
  `recv` with `MSG_PEEK`, `write`, `send`, `fcntl`, `close`, `exit`,
  `inet_ntoa`, `stat`, `opendir`/`readdir`, `ifstream`/`ofstream`,
  `srand`/`rand`/`time`. Each is a parameter: `Reactor.Io` per event, the
  `fs` oracle for `stat`, a map from path to contents for the files, and
  the `rand()` values as functions.
- The outer `while (1)` of `ServerOperator::run` is one batch per call of
  `Reactor.Run`. The loop is the repetition of batches and never ends.
- Requests are held by value in `Reactor`. `new`/`delete` of `Request`,
  `Response` and the method objects, object identity and leaks are not
  modelled. The one place where identity matters, the use of an erased
  client's request, is the phase `Undefined`.
- `Request::parsing(list, locMap)` and `getLocBlock()`, called from
  ServerOperator.cpp:114-115 and :140, are not defined in Request.cpp.
  Reactor parses with the `parsing()` of Request.cpp and takes
  `limit_except` and the keep-alive time of the location as `Io`
  parameters. The location's body-size check of the two-argument
  `parsing` is the flag `Io.overBodyLimit`: a complete request over the
  limit gets 413, which the write handler at ServerOperator.cpp:176
  answers by dropping the client. `getSPSBList()->front()->getKeepAliveTime()` is
  `Config.serverKeepAlive`.
- `Get`, `Delete` and the base `Method` are not part of this model. Their
  response bytes are the parameter `Io.replies`, and how their `process`
  ends is the parameter `Io.processEnd`. Post's `process` is modelled on
  its own, over a `Request`/`Response` pair. Its ending
  (`PostMethod.OutcomeOf`) reaches the loop through `Io.processEnd`: an
  escaped `std::out_of_range` stops the server (`Aborted`) and undefined
  behaviour is `Undefined` (`Reactor.PostWriteEnds`).
- Reactor.StepDefined: undefined behaviour inside a method object's
  `process` (Post's `back()` on an empty target) is not ruled out; the
  lemma rules out only the loop's own use of an erased client.
- Reactor.CheckedRunDefined: likewise, a batch may still reach undefined
  behaviour inside a method object's `process`; the lemma names the WRITE
  event where that happens.
- `Response::setRedirectRes`, `Cgi::reqToEnvp`, `Cgi::excute` and
  `ErrorException` are not part of this model. A redirect ends `process` as
  `Redirected(301)` with only the Location header set. The CGI output is a
  parameter. The error codes thrown are `Plan.Fail`.
- `Response::directoryListing` and `Response::sendResponse` are filesystem
  and socket I/O. Sending is `Io.sendOk` and the bytes sent are
  `OpState.sent`.
- `ftItos` is modelled for non-negative codes only (`Decimal` on `nat`).
  A negative status never reaches it: `Reactor.WriteEvent` ends in
  `Undefined` for a negative status.
- `Reactor.Reply`: the header touches that `process` makes on a request
  are not carried back into the client's request. They cannot be observed,
  because the request is cleared or dropped right after the write.
- `atoi` is unbounded: overflow of `int` (undefined in C) is not modelled.
  `stoul` is modelled with its range check at 2^64.
- `HttpServer::start`, `handleNewConnection` and the body `recv` of the
  toy server's `parseRequest` are socket I/O. `ToyServer.ParseRequest`
  reads the text one `recv` returned and leaves the body empty.
- `test()` printers, the `std::cout` traces, and the stub getters of
  danbi/cpp/Request.cpp (`getMessage`, `getProcess`, `getMethod`, which
  have no return) are output or undefined behaviour.
- `ServerBlock`'s `_clientMaxBodySize(0)` builds a `std::string` from a
  null `char*`. `ServerScope` starts that field empty.
- Declarations in the headers that disagree with the .cpp files, such as
  `_clients` typed as `map<int,string>`, follow the .cpp files.
- HttpRequest.Request.ParseUrl: the MIME table is a pure function. The
  `_mimeTypes` map that `parseUrl` refills on every call is not a field.
- PostMethod.RandomString: the characters are `charset[rand() % 62]` for
  the given `rand()` values; the distribution of `rand()` is not modelled.

## Findings

| source | as written | input that shows it | evidently intended | confidence | as-written member | corrected member |
|---|---|---|---|---|---|---|
| code/src/RootBlock.cpp:41 | `_user = value.substr(0, tmp - 1)` drops the last character of the user | `user www data` gives user "ww" | `substr(0, tmp)`: user "www" | not executed | RootScope.SplitUserExample | RootScope.SplitUserCorrectedSplits |
| code/src/ServerBlock.cpp:27 | `_listenHost = value.substr(0, tmp - 1)` drops the last character of the host | `listen localhost:8080` gives host "localhos" | `substr(0, tmp)`: host "localhost" | not executed | ServerScope.ListenExample | ServerScope.ListenCorrectedSplits |
| code/src/Response.cpp:39-56 | header lines are split at '\r' only, so every key after the status line keeps the '\n' of the line before it, and the Content-Length lookup never finds the CGI program's own header | CGI output `HTTP/1.1 200 OK\r\nContent-Length: 2\r\n\r\nhi` gives the key "\nContent-Length" and a second, added Content-Length | keys read without the leading '\n', so the output reads back as written | not executed | HttpResponse.CgiContentLengthDuplicated | HttpResponse.CgiRoundTripCorrected |
| code/src/Post.cpp:29-38 | the loop re-opens into a new local `tempif` that shadows the one it tests, so it runs at most once and the second name is taken unchecked; both draws re-seed with `time(0)` | a POST to a directory where the first drawn name exists, within one second: the same name is drawn again and the existing file is appended to, with a 201 | draw until a name does not open | not executed | PostMethod.CreatedNameMayExist | PostMethod.Post.CreateResourceCorrected |
| code/src/ServerOperator.cpp:57-140 | the write handler looks a client up with `_clients[fd]` without `isExistClient`; a timer and a WRITE event for the same client in one batch reach it after `disconnectClient` erased the client | batch [TIMER fd, WRITE fd] for a client waiting for WRITE: `operator[]` inserts a null request that is then dereferenced | check `isExistClient` before handling WRITE, as the read handler does | not executed | Reactor.StaleWriteUndefined | Reactor.CheckedRunDefined |

In these five places the model follows the code as written, and the
corrected member proves the intended behaviour beside it. Elsewhere, too,
the model follows the code as written:

- the danbi parser keeps the space after ':' in values;
- `Request::parsing` strips only '\n' from keys;
- the toy serialiser says "OK" for every status.
