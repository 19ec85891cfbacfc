/** `ServerOperator` (code/src/ServerOperator.cpp): the kqueue event loop.
    Listening sockets accept connections; a client's READ events fill and
    parse its request; once the request is complete the client waits for
    WRITE, which sends the response and re-arms READ; a per-client timer
    answers 408 and drops the connection when it fires.

    The kernel is not modelled: each event comes with what the system
    calls it triggers returned (an `Io`), and the registrations the loop
    asks for are kept as a set. Requests are held by value. */
module Reactor {
  import opened TextUtil
  import HttpRequest
  import HttpResponse
  import PostMethod

  // ---------------------------------------------------------------------------
  // Events and their dispatch

  /** The kqueue filters an event may carry. */
  datatype Filter = ReadF | WriteF | TimerF | OtherF

  /** One entry of the event list: its identifier, filter and EV_ERROR flag. */
  datatype Event = Event(fd: int, filter: Filter, error: bool)

  /** The handler `run` hands an event to. */
  datatype Handler = OnError | OnRead | OnWrite | OnTimer | Ignored

  function Classify(ev: Event): Handler
  {
    if ev.error then OnError
    else match ev.filter
      case ReadF => OnRead
      case WriteF => OnWrite
      case TimerF => OnTimer
      case OtherF => Ignored
  }

  /** EV_ERROR wins over the filter; otherwise the filter alone decides,
      and an unknown filter is dropped. */
  lemma ClassifySpec(ev: Event)
    ensures Classify(ev) == OnError <==> ev.error
    ensures Classify(ev) == OnRead <==> !ev.error && ev.filter == ReadF
    ensures Classify(ev) == OnWrite <==> !ev.error && ev.filter == WriteF
    ensures Classify(ev) == OnTimer <==> !ev.error && ev.filter == TimerF
    ensures Classify(ev) == Ignored <==> !ev.error && ev.filter == OtherF
  {
  }

  /** The method object `handleWriteEvent` builds. */
  datatype MethodKind = Get | Post | Delete | Base

  function SelectMethod(verb: string, limit: string): MethodKind
  {
    if (verb == "GET" || verb == "HEAD") && (limit == "GET" || limit == "") then Get
    else if (verb == "POST" || verb == "PUT") && (limit == "POST" || limit == "") then Post
    else if verb == "DELETE" && (limit == "DELETE" || limit == "") then Delete
    else Base
  }

  /** Each method object is chosen exactly when the request's method is one
      it serves and the location's limit_except is empty or names it; the
      base `Method` takes everything else. */
  lemma SelectMethodSpec(verb: string, limit: string)
    ensures SelectMethod(verb, limit) == Get
      <==> (verb == "GET" || verb == "HEAD") && (limit == "GET" || limit == "")
    ensures SelectMethod(verb, limit) == Post
      <==> (verb == "POST" || verb == "PUT") && (limit == "POST" || limit == "")
    ensures SelectMethod(verb, limit) == Delete
      <==> verb == "DELETE" && (limit == "DELETE" || limit == "")
    ensures SelectMethod(verb, limit) == Base
      <==> !((verb == "GET" || verb == "HEAD") && (limit == "GET" || limit == ""))
           && !((verb == "POST" || verb == "PUT") && (limit == "POST" || limit == ""))
           && !(verb == "DELETE" && (limit == "DELETE" || limit == ""))
  {
  }

  // ---------------------------------------------------------------------------
  // The loop's state

  /** A kqueue registration for READ or WRITE on a descriptor. */
  datatype Reg = Reg(fd: int, filter: Filter)

  /** Bytes one successful `write` put on a connection. */
  datatype Sent = Sent(fd: int, bytes: string)

  /** Running; stopped by `exit`; stopped by an exception that escaped
      `parsing` or a method object's `process`; or past undefined
      behaviour (a null dereference, a negative status, whose spelling is
      not modelled, or one inside `process`), after which nothing is
      predicted. */
  datatype Phase = Running | Exited | Aborted | Undefined

  /** `_clients`, `_clientToServer`, the registrations, the per-client
      timers (descriptor to period in milliseconds) and what was sent. */
  datatype OpState = OpState(clients: map<int, HttpRequest.ReqState>, clientToServer: map<int, int>,
                             regs: set<Reg>, timers: map<int, int>, sent: seq<Sent>, phase: Phase)

  /** The listening sockets (`_serverMap`'s keys) and the keep-alive time,
      in seconds, of the first server block of each. */
  datatype Config = Config(listeners: set<int>, serverKeepAlive: int -> int)

  /** What `read` returned: 0, -1, or that many bytes. */
  datatype ReadResult = Eof | ReadFailed | Data(bytes: string)

  /** What the system calls and collaborators an event triggers return:
      `accept` and the peer address, `read`, whether `recv(MSG_PEEK)`
      failed, whether `write` succeeded, the request's location
      (limit_except and keep-alive seconds), the response each method
      object builds and how its `process` ended, `stat`, and whether the
      location's body-size limit rejects the request, which the
      two-argument `parsing` answers with 413. */
  datatype Io = Io(accepted: int, clientIp: string, got: ReadResult, peekFails: bool, sendOk: bool,
                   limit: string, locKeepAlive: int, replies: MethodKind -> string,
                   processEnd: PostMethod.Outcome,
                   fs: string -> HttpRequest.FileKind, overBodyLimit: bool)

  /** `sizeof(buf) - 1` for the 8092-byte read buffer. */
  const ReadChunk: nat := 8091

  /** The statuses a request can carry. */
  const Statuses: set<int> := {200, 400, 404, 405, 413, 414}

  /** A complete request over its location's body-size limit gets 413. */
  function BodyLimit(req: HttpRequest.ReqState, over: bool): HttpRequest.ReqState
  {
    if req.full && over then req.(status := 413) else req
  }

  /** `kq.init`: every listening socket registered for READ. */
  function Initial(cfg: Config, initOk: bool): (st: OpState)
  {
    OpState(map[], map[], set l | l in cfg.listeners :: Reg(l, ReadF), map[], [],
            if initOk then Running else Exited)
  }

  /** The request `new Request()` followed by `addHeader("ClientIP", ip)`. */
  function NewRequest(ip: string): HttpRequest.ReqState
  {
    HttpRequest.ReqState([], map["ClientIP" := ip], [], [], "text/html", 200, false)
  }

  /** The request after `clear`. */
  function Cleared(req: HttpRequest.ReqState): HttpRequest.ReqState
  {
    HttpRequest.ReqState([], map["ClientIP" := HttpRequest.Slot(req.header, "ClientIP")], [], [], "text/html", 200, false)
  }

  /** The bytes `setErrorRes(code)` leaves in a new response's result. */
  ghost function ErrorPage(code: nat): string
  {
    var body := HttpResponse.Reason(code) + ": Error";
    HttpResponse.Wire(HttpResponse.StatusLineFor(code),
                      map["Content-Type" := "text/plain", "Content-Length" := Decimal(|body|)], body)
  }

  // ---------------------------------------------------------------------------
  // The handlers on states

  /** `disconnectClient`: `close` drops the descriptor's READ and WRITE
      registrations; the request and the listener entry are erased. The
      timer, which is not tied to the descriptor, stays. */
  function Disconnect(st: OpState, fd: int): (r: OpState)
  {
    st.(clients := st.clients - {fd}, clientToServer := st.clientToServer - {fd},
        regs := st.regs - {Reg(fd, ReadF), Reg(fd, WriteF)})
  }

  /** A disconnected descriptor is gone from both tables and both filters;
      every other client, mapping and registration, and every timer, is as
      it was. */
  lemma DisconnectSpec(st: OpState, fd: int)
    ensures var r := Disconnect(st, fd);
      && fd !in r.clients && fd !in r.clientToServer
      && Reg(fd, ReadF) !in r.regs && Reg(fd, WriteF) !in r.regs
      && r.clients.Keys == st.clients.Keys - {fd}
      && (forall k :: k in r.clients ==> r.clients[k] == st.clients[k])
      && (forall k :: k in r.clientToServer <==> k in st.clientToServer && k != fd)
      && (forall g: Reg :: g.fd != fd ==> (g in r.regs <==> g in st.regs))
      && r.timers == st.timers && r.sent == st.sent && r.phase == st.phase
  {
  }

  /** `handleEventError`: a listener's error ends the process; a client's
      drops the client. */
  function ErrorEvent(cfg: Config, st: OpState, fd: int): OpState
  {
    if fd in cfg.listeners then st.(phase := Exited) else Disconnect(st, fd)
  }

  /** `handleRequestTimeOut`: the timer is deleted, a 408 error page is
      written (the result of `sendResponse` is ignored) and the client
      dropped. */
  ghost function TimeOut(st: OpState, fd: int, sendOk: bool): OpState
  {
    var st1 := st.(timers := st.timers - {fd});
    var st2 := if sendOk then st1.(sent := st1.sent + [Sent(fd, ErrorPage(408))]) else st1;
    Disconnect(st2, fd)
  }

  /** A fired timer leaves no timer, no request and no registration for its
      descriptor; the 408 page is all that is written; a timer whose client
      is already gone changes no client's entry. */
  lemma TimeOutSpec(st: OpState, fd: int, sendOk: bool)
    ensures var r := TimeOut(st, fd, sendOk);
      && fd !in r.timers && fd !in r.clients && fd !in r.clientToServer
      && Reg(fd, ReadF) !in r.regs && Reg(fd, WriteF) !in r.regs
      && (forall k :: k != fd ==> (k in r.timers <==> k in st.timers))
      && r.sent == st.sent + (if sendOk then [Sent(fd, ErrorPage(408))] else [])
      && (fd !in st.clients && fd !in st.clientToServer ==> r.clients == st.clients && r.clientToServer == st.clientToServer)
  {
  }

  /** The page a timed-out client gets: 408 has no reason phrase in the
      table, so the status line is bare and the body is ": Error". */
  lemma TimeOutPage()
    ensures ErrorPage(408) == HttpResponse.Wire("HTTP/1.1 408",
              map["Content-Type" := "text/plain", "Content-Length" := "7"], ": Error")
  {
    var body := HttpResponse.Reason(408) + ": Error";
    HttpResponse.TimeoutBody();
    assert |body| == 7;
    assert Decimal(7) == "7";
    StatusLine408();
  }

  lemma StatusLine408()
    ensures HttpResponse.StatusLineFor(408) == "HTTP/1.1 408"
  {
    HttpResponse.TimeoutBody();
    assert HttpResponse.Reason(408) == "";
    DecimalAppend(4, 0);
    DecimalAppend(40, 8);
  }

  /** The accepting half of `handleReadEvent`: the new connection is mapped
      to its listener, gets a keep-alive timer from the listener's first
      server block and a READ registration, and a new request carrying the
      peer address. A failed `accept` ends the process. */
  function Accept(cfg: Config, st: OpState, lfd: int, io: Io): OpState
  {
    if io.accepted == -1 then st.(phase := Exited)
    else
      var c := io.accepted;
      st.(clientToServer := st.clientToServer[c := lfd],
          timers := st.timers[c := cfg.serverKeepAlive(lfd) * 1000],
          regs := st.regs + {Reg(c, ReadF)},
          clients := st.clients[c := NewRequest(io.clientIp)])
  }

  /** A new connection's request is empty apart from its ClientIP, it is
      waiting for READ, not WRITE, and its timer runs for the listener's
      keep-alive time. */
  lemma AcceptSpec(cfg: Config, st: OpState, lfd: int, io: Io)
    requires io.accepted != -1
    requires Reg(io.accepted, WriteF) !in st.regs
    ensures var r := Accept(cfg, st, lfd, io);
      var c := io.accepted;
      && c in r.clients && r.clients[c].raw == [] && !r.clients[c].full
      && HttpRequest.Slot(r.clients[c].header, "ClientIP") == io.clientIp
      && r.clientToServer[c] == lfd
      && Reg(c, ReadF) in r.regs && Reg(c, WriteF) !in r.regs
      && r.timers[c] == cfg.serverKeepAlive(lfd) * 1000
      && r.phase == st.phase
  {
  }

  /** The request after `read` brought `b` and `parsing` (when it runs)
      returned; the registrations move from READ to WRITE once the request
      is complete. */
  function Settle(cfg: Config, st: OpState, fd: int, req: HttpRequest.ReqState): OpState
  {
    if !req.full then st.(clients := st.clients[fd := req])
    else if fd !in st.clientToServer then st.(clients := st.clients[fd := req], phase := Undefined)
    else
      st.(clients := st.clients[fd := req],
          timers := st.timers[fd := cfg.serverKeepAlive(st.clientToServer[fd]) * 1000],
          regs := st.regs - {Reg(fd, ReadF)} + {Reg(fd, WriteF)})
  }

  /** The client half of `handleReadEvent`. End of stream drops the client
      and a failed read changes nothing. Otherwise the bytes are appended;
      `parsing` runs when the read did not fill the buffer or a peek finds
      nothing more waiting; an exception from it ends the process. */
  function ReadClient(cfg: Config, st: OpState, fd: int, io: Io): OpState
    requires fd in st.clients
  {
    match io.got
    case Eof => Disconnect(st, fd)
    case ReadFailed => st
    case Data(b) =>
      var req := st.clients[fd].(raw := st.clients[fd].raw + b);
      if |b| < ReadChunk || io.peekFails then
        if fd !in st.clientToServer then st.(clients := st.clients[fd := req], phase := Undefined)
        else
          var p := HttpRequest.Parse(req, io.fs);
          if p.threw then st.(clients := st.clients[fd := p.state], phase := Aborted)
          else Settle(cfg, st, fd, BodyLimit(p.state, io.overBodyLimit))
      else Settle(cfg, st, fd, req)
  }

  /** Read bytes are appended to the request's buffer, never anything else;
      the request moves to WRITE exactly when it is complete, and then its
      timer is re-armed with the server's keep-alive time. */
  lemma ReadClientSpec(cfg: Config, st: OpState, fd: int, io: Io)
    requires fd in st.clients && fd in st.clientToServer && io.got.Data? && st.phase == Running
    ensures var r := ReadClient(cfg, st, fd, io);
      && r.clients.Keys == st.clients.Keys
      && r.clients[fd].raw == st.clients[fd].raw + io.got.bytes
      && (forall k :: k in st.clients && k != fd ==> r.clients[k] == st.clients[k])
      && r.clientToServer == st.clientToServer && r.sent == st.sent
      && (r.phase == Running || r.phase == Aborted)
      && (r.phase == Running && r.clients[fd].full ==>
            && Reg(fd, WriteF) in r.regs && Reg(fd, ReadF) !in r.regs
            && r.timers == st.timers[fd := cfg.serverKeepAlive(st.clientToServer[fd]) * 1000])
      && (r.phase == Running && !r.clients[fd].full ==> r.regs == st.regs && r.timers == st.timers)
      && ((|io.got.bytes| < ReadChunk || io.peekFails) && r.phase == Running && r.clients[fd].full ==>
            (io.overBodyLimit ==> r.clients[fd].status == 413)
            && (!io.overBodyLimit ==> r.clients[fd] == HttpRequest.Parse(st.clients[fd].(raw := r.clients[fd].raw), io.fs).state))
  {
    var req := st.clients[fd].(raw := st.clients[fd].raw + io.got.bytes);
    if |io.got.bytes| < ReadChunk || io.peekFails {
      var p := HttpRequest.Parse(req, io.fs);
      assert p.state.raw == req.raw;
      if !p.threw {
        SettleSpec(cfg, st, fd, BodyLimit(p.state, io.overBodyLimit));
      }
    } else {
      SettleSpec(cfg, st, fd, req);
    }
  }

  lemma SettleSpec(cfg: Config, st: OpState, fd: int, req: HttpRequest.ReqState)
    requires fd in st.clients && fd in st.clientToServer
    ensures var r := Settle(cfg, st, fd, req);
      && r.clients == st.clients[fd := req] && r.clientToServer == st.clientToServer
      && r.sent == st.sent && r.phase == st.phase
      && (req.full ==>
            && Reg(fd, WriteF) in r.regs && Reg(fd, ReadF) !in r.regs
            && r.timers == st.timers[fd := cfg.serverKeepAlive(st.clientToServer[fd]) * 1000])
      && (!req.full ==> r.regs == st.regs && r.timers == st.timers)
  {
  }

  /** `handleReadEvent`: a listener accepts, a known client reads, any
      other descriptor is ignored. */
  function ReadEvent(cfg: Config, st: OpState, fd: int, io: Io): OpState
  {
    if fd in cfg.listeners then Accept(cfg, st, fd, io)
    else if fd in st.clients then ReadClient(cfg, st, fd, io)
    else st
  }

  /** `handleWriteEvent`. `_clients[fd]` on an unknown descriptor yields a
      null request, dereferenced at once. A status other than 200 gets the
      error page; otherwise the method object chosen by the request's
      method and the location's limit_except builds the response, and an
      exception escaping its `process` stops the server, as undefined
      behaviour inside it leaves nothing predicted. A failed
      write, or status 413, drops the client; otherwise the timer is
      re-armed with the location's keep-alive time, the request cleared and
      READ registered instead of WRITE. */
  ghost function WriteEvent(st: OpState, fd: int, io: Io): OpState
  {
    if fd !in st.clients then st.(phase := Undefined)
    else
      var req := st.clients[fd];
      if req.status < 0 then st.(phase := Undefined)
      else if req.status == 200 && io.processEnd == PostMethod.Escaped then st.(phase := Aborted)
      else if req.status == 200 && io.processEnd == PostMethod.Unspecified then st.(phase := Undefined)
      else Answer(st, fd, Reply(req, io), io.sendOk, io.locKeepAlive)
  }

  /** The response `handleWriteEvent` sends for a request. */
  ghost function Reply(req: HttpRequest.ReqState, io: Io): string
    requires req.status >= 0
  {
    if req.status != 200 then ErrorPage(req.status)
    else io.replies(SelectMethod(HttpRequest.Slot(req.header, "Method"), io.limit))
  }

  /** The second half of `handleWriteEvent`, once the response is built. */
  function Answer(st: OpState, fd: int, bytes: string, sendOk: bool, keepAlive: int): OpState
    requires fd in st.clients
  {
    var req := st.clients[fd];
    if !sendOk then Disconnect(st, fd)
    else
      var st1 := st.(sent := st.sent + [Sent(fd, bytes)]);
      if req.status == 413 then Disconnect(st1, fd)
      else
        st1.(timers := st.timers[fd := keepAlive * 1000],
             clients := st.clients[fd := Cleared(req)],
             regs := st.regs - {Reg(fd, WriteF)} + {Reg(fd, ReadF)})
  }

  /** A client in error gets the error page for its status. For a valid
      request, an exception escaping the method object's `process` stops
      the server with nothing sent, and undefined behaviour inside it
      leaves nothing predicted. Otherwise a written response leaves the
      connection open for the next request with only the ClientIP header
      kept, waiting for READ, except that a request over its body-size
      limit (413) is dropped once its page is sent; a failed write drops
      the client without recording anything sent. */
  lemma WriteEventSpec(st: OpState, fd: int, io: Io)
    requires fd in st.clients && st.clients[fd].status in Statuses
    ensures var r := WriteEvent(st, fd, io);
      var req := st.clients[fd];
      var threw := req.status == 200 && io.processEnd == PostMethod.Escaped;
      var broke := req.status == 200 && io.processEnd == PostMethod.Unspecified;
      && (threw ==> r == st.(phase := Aborted))
      && (broke ==> r == st.(phase := Undefined))
      && (!threw && !broke ==> r.phase == st.phase)
      && (!threw && !broke && io.sendOk ==>
            |r.sent| == |st.sent| + 1 && r.sent[..|st.sent|] == st.sent && r.sent[|st.sent|].fd == fd)
      && (!threw && !broke && io.sendOk ==> r.sent[|st.sent|].bytes == Reply(req, io))
      && (req.status != 200 ==> Reply(req, io) == ErrorPage(req.status))
      && (!threw && !broke && !io.sendOk ==> r == Disconnect(st, fd))
      && (io.sendOk && req.status == 413 ==>
            r == Disconnect(st.(sent := st.sent + [Sent(fd, ErrorPage(413))]), fd))
      && (!threw && !broke && io.sendOk && req.status != 413 ==>
            && fd in r.clients && r.clients[fd].raw == [] && r.clients[fd].status == 200
            && HttpRequest.Slot(r.clients[fd].header, "ClientIP") == HttpRequest.Slot(req.header, "ClientIP")
            && Reg(fd, ReadF) in r.regs && Reg(fd, WriteF) !in r.regs
            && r.timers[fd] == io.locKeepAlive * 1000)
  {
  }

  /** A valid POST or PUT request reaches Post's `process`: a CGI run whose
      `convertCGI` throws stops the server with nothing sent, `back()` on
      an empty target leaves nothing predicted, and every other plan goes
      on to send the response with the loop still in its phase. */
  lemma PostWriteEnds(st: OpState, fd: int, io: Io, plan: PostMethod.Plan, cgiThrew: bool)
    requires fd in st.clients && st.clients[fd].status == 200
    requires SelectMethod(HttpRequest.Slot(st.clients[fd].header, "Method"), io.limit) == Post
    requires io.processEnd == PostMethod.OutcomeOf(plan, cgiThrew)
    ensures var r := WriteEvent(st, fd, io);
      && (plan.RunCgi? && cgiThrew ==> r == st.(phase := Aborted))
      && (plan.Undefined? ==> r.phase == Undefined)
      && (!(plan.RunCgi? && cgiThrew) && !plan.Undefined? ==>
            r.phase == st.phase && (io.sendOk ==> r.sent == st.sent + [Sent(fd, io.replies(Post))]))
  {
  }

  /** One event. `checked` adds the `isExistClient` test the read handler
      has to the write handler as well. */
  ghost function Step(cfg: Config, st: OpState, ev: Event, io: Io, checked: bool): OpState
  {
    match Classify(ev)
    case OnError => ErrorEvent(cfg, st, ev.fd)
    case OnRead => ReadEvent(cfg, st, ev.fd, io)
    case OnWrite => if checked && ev.fd !in st.clients then st else WriteEvent(st, ev.fd, io)
    case OnTimer => TimeOut(st, ev.fd, io.sendOk)
    case Ignored => st
  }

  /** One batch from `countEvents`, handled in order until the process
      stops. */
  ghost function Run(cfg: Config, st: OpState, evs: seq<Event>, ios: seq<Io>, checked: bool): OpState
    requires |ios| == |evs|
    decreases |evs|
  {
    if evs == [] || st.phase != Running then st
    else Run(cfg, Step(cfg, st, evs[0], ios[0], checked), evs[1..], ios[1..], checked)
  }

  // ---------------------------------------------------------------------------
  // The tables stay consistent

  /** Every client is mapped to a listener and has a timer; listeners are
      never clients and never timed; every listener is registered for READ
      only; every registration belongs to a listener or a client; each
      client waits for exactly one of READ and WRITE; and every status is
      one `parsing` can give. */
  ghost predicate Valid(cfg: Config, st: OpState)
  {
    && st.clients.Keys == st.clientToServer.Keys
    && cfg.listeners !! st.clients.Keys
    && cfg.listeners !! st.timers.Keys
    && (forall fd :: fd in st.clientToServer ==> st.clientToServer[fd] in cfg.listeners)
    && (forall fd :: fd in st.clients ==> fd in st.timers && st.clients[fd].status in Statuses)
    && (forall l :: l in cfg.listeners ==> Reg(l, ReadF) in st.regs && Reg(l, WriteF) !in st.regs)
    && (forall g :: g in st.regs ==> (g.filter == ReadF || g.filter == WriteF) && (g.fd in cfg.listeners || g.fd in st.clients))
    && (forall fd :: fd in st.clients ==> (Reg(fd, ReadF) in st.regs <==> Reg(fd, WriteF) !in st.regs))
  }

  /** What the kernel guarantees about an event: `accept` returns a
      descriptor that is neither a listener nor open, a `read` that returns
      data returns between one byte and the buffer's size, and timers are
      only ever set on client descriptors. */
  ghost predicate Kernel(cfg: Config, st: OpState, ev: Event, io: Io)
  {
    && (Classify(ev) == OnRead && ev.fd in cfg.listeners && io.accepted != -1 ==>
          io.accepted !in cfg.listeners && io.accepted !in st.clients)
    && (Classify(ev) == OnRead && ev.fd !in cfg.listeners && io.got.Data? ==>
          1 <= |io.got.bytes| <= ReadChunk)
    && (Classify(ev) == OnTimer ==> ev.fd !in cfg.listeners)
  }

  /** The kernel's guarantee at every step of a batch. */
  ghost predicate KernelRun(cfg: Config, st: OpState, evs: seq<Event>, ios: seq<Io>, checked: bool)
    requires |ios| == |evs|
    decreases |evs|
  {
    evs == [] || st.phase != Running
    || (Kernel(cfg, st, evs[0], ios[0])
        && KernelRun(cfg, Step(cfg, st, evs[0], ios[0], checked), evs[1..], ios[1..], checked))
  }

  lemma InitialValid(cfg: Config, initOk: bool)
    ensures Valid(cfg, Initial(cfg, initOk))
    ensures Initial(cfg, initOk).phase == Running <==> initOk
  {
    var st := Initial(cfg, initOk);
    forall l | l in cfg.listeners ensures Reg(l, ReadF) in st.regs {
      assert Reg(l, ReadF).fd == l;
    }
  }

  lemma DisconnectValid(cfg: Config, st: OpState, fd: int)
    requires Valid(cfg, st) && fd !in cfg.listeners
    ensures Valid(cfg, Disconnect(st, fd))
  {
  }

  lemma ErrorEventValid(cfg: Config, st: OpState, fd: int)
    requires Valid(cfg, st)
    ensures Valid(cfg, ErrorEvent(cfg, st, fd))
  {
    if fd !in cfg.listeners {
      DisconnectValid(cfg, st, fd);
    }
  }

  lemma TimeOutValid(cfg: Config, st: OpState, fd: int, sendOk: bool)
    requires Valid(cfg, st) && fd !in cfg.listeners
    ensures Valid(cfg, TimeOut(st, fd, sendOk))
  {
    var st1 := st.(timers := st.timers - {fd});
    var st2 := if sendOk then st1.(sent := st1.sent + [Sent(fd, ErrorPage(408))]) else st1;
    assert Disconnect(st2, fd).clients.Keys == st.clients.Keys - {fd};
  }

  lemma AcceptValid(cfg: Config, st: OpState, lfd: int, io: Io)
    requires Valid(cfg, st) && lfd in cfg.listeners
    requires io.accepted != -1 ==> io.accepted !in cfg.listeners && io.accepted !in st.clients
    ensures Valid(cfg, Accept(cfg, st, lfd, io))
  {
  }

  lemma SettleValid(cfg: Config, st: OpState, fd: int, req: HttpRequest.ReqState)
    requires Valid(cfg, st) && fd in st.clients && req.status in Statuses
    ensures Valid(cfg, Settle(cfg, st, fd, req))
  {
  }

  lemma ReadClientValid(cfg: Config, st: OpState, fd: int, io: Io)
    requires Valid(cfg, st) && fd in st.clients
    ensures Valid(cfg, ReadClient(cfg, st, fd, io))
  {
    match io.got
    case Eof => DisconnectValid(cfg, st, fd);
    case ReadFailed =>
    case Data(b) =>
      var req := st.clients[fd].(raw := st.clients[fd].raw + b);
      if |b| < ReadChunk || io.peekFails {
        HttpRequest.ParseStatus(req, io.fs);
        var p := HttpRequest.Parse(req, io.fs);
        if !p.threw {
          SettleValid(cfg, st, fd, BodyLimit(p.state, io.overBodyLimit));
        }
      } else {
        SettleValid(cfg, st, fd, req);
      }
  }

  lemma AnswerValid(cfg: Config, st: OpState, fd: int, bytes: string, sendOk: bool, keepAlive: int)
    requires Valid(cfg, st) && fd in st.clients
    ensures Valid(cfg, Answer(st, fd, bytes, sendOk, keepAlive))
  {
    var st1 := st.(sent := st.sent + [Sent(fd, bytes)]);
    if !sendOk {
      DisconnectValid(cfg, st, fd);
    } else if st.clients[fd].status == 413 {
      DisconnectValid(cfg, st1, fd);
    } else {
      RearmValid(cfg, st1, fd, keepAlive);
    }
  }

  /** Re-arming a served client for READ keeps the reactor's invariant. */
  lemma RearmValid(cfg: Config, st: OpState, fd: int, keepAlive: int)
    requires Valid(cfg, st) && fd in st.clients
    ensures Valid(cfg, st.(timers := st.timers[fd := keepAlive * 1000],
                           clients := st.clients[fd := Cleared(st.clients[fd])],
                           regs := st.regs - {Reg(fd, WriteF)} + {Reg(fd, ReadF)}))
  {
    var r := st.(timers := st.timers[fd := keepAlive * 1000],
                 clients := st.clients[fd := Cleared(st.clients[fd])],
                 regs := st.regs - {Reg(fd, WriteF)} + {Reg(fd, ReadF)});
    assert r.clients.Keys == st.clients.Keys;
    assert r.timers.Keys == st.timers.Keys;
  }

  lemma WriteEventValid(cfg: Config, st: OpState, fd: int, io: Io)
    requires Valid(cfg, st)
    ensures Valid(cfg, WriteEvent(st, fd, io))
  {
    if fd in st.clients && st.clients[fd].status >= 0 {
      AnswerValid(cfg, st, fd, Reply(st.clients[fd], io), io.sendOk, io.locKeepAlive);
    }
  }

  lemma StepValid(cfg: Config, st: OpState, ev: Event, io: Io, checked: bool)
    requires Valid(cfg, st) && Kernel(cfg, st, ev, io)
    ensures Valid(cfg, Step(cfg, st, ev, io, checked))
  {
    match Classify(ev)
    case OnError => ErrorEventValid(cfg, st, ev.fd);
    case OnRead =>
      if ev.fd in cfg.listeners {
        AcceptValid(cfg, st, ev.fd, io);
      } else if ev.fd in st.clients {
        ReadClientValid(cfg, st, ev.fd, io);
      }
    case OnWrite => WriteEventValid(cfg, st, ev.fd, io);
    case OnTimer => TimeOutValid(cfg, st, ev.fd, io.sendOk);
    case Ignored =>
  }

  /** A batch keeps the tables consistent, whether or not it stops early. */
  lemma {:induction false} RunValid(cfg: Config, st: OpState, evs: seq<Event>, ios: seq<Io>, checked: bool)
    requires |ios| == |evs|
    requires Valid(cfg, st) && KernelRun(cfg, st, evs, ios, checked)
    ensures Valid(cfg, Run(cfg, st, evs, ios, checked))
    decreases |evs|
  {
    if evs != [] && st.phase == Running {
      StepValid(cfg, st, evs[0], ios[0], checked);
      RunValid(cfg, Step(cfg, st, evs[0], ios[0], checked), evs[1..], ios[1..], checked);
    }
  }

  /** A WRITE registration always belongs to a client, and every client's
      status is one the parser gives, so never negative. */
  lemma ValidWriteTargets(cfg: Config, st: OpState, fd: int)
    requires Valid(cfg, st)
    ensures Reg(fd, WriteF) in st.regs ==> fd in st.clients
    ensures fd in st.clients ==> st.clients[fd].status in Statuses && st.clients[fd].status >= 0
  {
  }

  // ---------------------------------------------------------------------------
  // A WRITE event for a client dropped earlier in the same batch

  /** One client waiting for WRITE whose timer has also fired. */
  function Waiting(fd: int, lfd: int): OpState
  {
    OpState(map[fd := NewRequest("")], map[fd := lfd], {Reg(lfd, ReadF), Reg(fd, WriteF)},
            map[fd := 5000], [], Running)
  }

  lemma WaitingValid(cfg: Config, fd: int, lfd: int)
    requires fd != lfd && cfg.listeners == {lfd}
    ensures Valid(cfg, Waiting(fd, lfd))
  {
    var st := Waiting(fd, lfd);
    assert st.clients.Keys == {fd} == st.timers.Keys;
    forall g: Reg | g in st.regs
      ensures (g.filter == ReadF || g.filter == WriteF) && (g.fd in cfg.listeners || g.fd in st.clients)
    {
    }
  }

  /** As written: the kernel reports the timer and the WRITE event in one
      batch; the timer drops the client and the write handler then looks up
      the erased client and dereferences a null request. */
  lemma StaleWriteUndefined(fd: int, lfd: int, io: Io)
    requires fd != lfd
    ensures var cfg := Config({lfd}, (_: int) => 5);
      var st := Waiting(fd, lfd);
      && Valid(cfg, st)
      && KernelRun(cfg, st, [Event(fd, TimerF, false), Event(fd, WriteF, false)], [io, io], false)
      && Run(cfg, st, [Event(fd, TimerF, false), Event(fd, WriteF, false)], [io, io], false).phase == Undefined
  {
    var cfg := Config({lfd}, (_: int) => 5);
    var st := Waiting(fd, lfd);
    var evs := [Event(fd, TimerF, false), Event(fd, WriteF, false)];
    WaitingValid(cfg, fd, lfd);
    var st1 := TimeOut(st, fd, io.sendOk);
    assert Step(cfg, st, evs[0], io, false) == st1;
    assert fd !in st1.clients && st1.phase == Running;
    var st2 := Step(cfg, st1, evs[1], io, false);
    assert st2.phase == Undefined;
    assert evs[1..] == [Event(fd, WriteF, false)];
    assert evs[1..][1..] == [];
    assert Run(cfg, st2, [], [], false) == st2;
    assert Run(cfg, st1, evs[1..], [io], false) == st2;
    assert Run(cfg, st, evs, [io, io], false) == Run(cfg, st1, evs[1..], [io], false);
  }

  /** With the existence check, a batch the kernel can report from a
      consistent state reaches undefined behaviour only inside a method
      object's `process`, on a WRITE event: never through the loop's own
      lookups. */
  lemma {:induction false} CheckedRunDefined(cfg: Config, st: OpState, evs: seq<Event>, ios: seq<Io>)
    requires |ios| == |evs|
    requires Valid(cfg, st) && st.phase != Undefined && KernelRun(cfg, st, evs, ios, true)
    ensures Run(cfg, st, evs, ios, true).phase == Undefined ==>
      exists i :: 0 <= i < |evs| && Classify(evs[i]) == OnWrite && ios[i].processEnd == PostMethod.Unspecified
    decreases |evs|
  {
    if evs != [] && st.phase == Running {
      var next := Step(cfg, st, evs[0], ios[0], true);
      StepValid(cfg, st, evs[0], ios[0], true);
      StepDefined(cfg, st, evs[0], ios[0]);
      if next.phase == Undefined {
        assert Run(cfg, st, evs, ios, true) == next;
        assert Classify(evs[0]) == OnWrite && ios[0].processEnd == PostMethod.Unspecified;
      } else {
        CheckedRunDefined(cfg, next, evs[1..], ios[1..]);
        if Run(cfg, st, evs, ios, true).phase == Undefined {
          var i :| 0 <= i < |evs[1..]| && Classify(evs[1..][i]) == OnWrite && ios[1..][i].processEnd == PostMethod.Unspecified;
          assert Classify(evs[i + 1]) == OnWrite && ios[i + 1].processEnd == PostMethod.Unspecified;
        }
      }
    }
  }

  /** With that check, one event reaches undefined behaviour only when it
      is a WRITE for a valid request whose method object's `process` is
      itself undefined. */
  lemma StepDefined(cfg: Config, st: OpState, ev: Event, io: Io)
    requires Valid(cfg, st) && st.phase != Undefined
    ensures Step(cfg, st, ev, io, true).phase == Undefined ==>
      && Classify(ev) == OnWrite && ev.fd in st.clients && st.clients[ev.fd].status == 200
      && io.processEnd == PostMethod.Unspecified
  {
    match Classify(ev)
    case OnRead =>
      if ev.fd !in cfg.listeners && ev.fd in st.clients && io.got.Data? {
        var req := st.clients[ev.fd].(raw := st.clients[ev.fd].raw + io.got.bytes);
        var p := HttpRequest.Parse(req, io.fs);
      }
    case OnWrite =>
      if ev.fd in st.clients {
        ValidWriteTargets(cfg, st, ev.fd);
      }
    case _ =>
  }

  // ---------------------------------------------------------------------------
  // The event loop object

  /** A `Request` object holding the given state. */
  method Loaded(st: HttpRequest.ReqState) returns (r: HttpRequest.Request)
    ensures fresh(r) && r.State() == st
  {
    r := new HttpRequest.Request();
    r.rawContents, r.header, r.body, r.host := st.raw, st.header, st.body, st.host;
    r.mime, r.status, r.fullReq := st.mime, st.status, st.full;
  }

  /** The result of `setErrorRes(code)` on a new `Response`. */
  method ErrorBytes(code: nat) returns (bytes: string)
    ensures bytes == ErrorPage(code)
  {
    var res := new HttpResponse.Response();
    res.SetErrorRes(code);
    assert res.statusLine == HttpResponse.StatusLineFor(code);
    assert res.result == [] + HttpResponse.Wire(res.statusLine, res.headers, res.body);
    bytes := res.result;
  }

  class ServerOperator {
    const cfg: Config
    var clients: map<int, HttpRequest.ReqState>
    var clientToServer: map<int, int>
    var regs: set<Reg>
    var timers: map<int, int>
    var sent: seq<Sent>
    var phase: Phase

    function State(): OpState
      reads this
    {
      OpState(clients, clientToServer, regs, timers, sent, phase)
    }

    /** The constructor followed by `kq.init`, which exits on failure. */
    constructor (cfg: Config, initOk: bool)
      ensures this.cfg == cfg && State() == Initial(cfg, initOk)
    {
      this.cfg := cfg;
      clients, clientToServer, timers, sent := map[], map[], map[], [];
      regs := set l | l in cfg.listeners :: Reg(l, ReadF);
      phase := if initOk then Running else Exited;
    }

    /** `isExistClient`. */
    method IsExistClient(fd: int) returns (b: bool)
      ensures b <==> fd in clients
    {
      b := fd in clients;
    }

    /** `disconnectClient`. */
    method DisconnectClient(fd: int)
      modifies this
      ensures State() == Disconnect(old(State()), fd)
    {
      regs := regs - {Reg(fd, ReadF), Reg(fd, WriteF)};
      clients := clients - {fd};
      clientToServer := clientToServer - {fd};
    }

    /** `handleEventError`. */
    method HandleEventError(fd: int)
      modifies this
      ensures State() == ErrorEvent(cfg, old(State()), fd)
    {
      if fd in cfg.listeners {
        phase := Exited;
      } else {
        DisconnectClient(fd);
      }
    }

    /** `handleRequestTimeOut`. */
    method HandleRequestTimeOut(fd: int, sendOk: bool)
      modifies this
      ensures State() == TimeOut(old(State()), fd, sendOk)
    {
      timers := timers - {fd};
      var page := ErrorBytes(408);
      if sendOk {
        sent := sent + [Sent(fd, page)];
      }
      DisconnectClient(fd);
    }

    /** `handleReadEvent`. */
    method HandleReadEvent(fd: int, io: Io)
      modifies this
      ensures State() == ReadEvent(cfg, old(State()), fd, io)
    {
      if fd in cfg.listeners {
        AcceptClient(fd, io);
      } else {
        var known := IsExistClient(fd);
        if known {
          match io.got
          case Eof => DisconnectClient(fd);
          case ReadFailed =>
          case Data(_) => ReadData(fd, io);
        }
      }
    }

    method AcceptClient(lfd: int, io: Io)
      modifies this
      ensures State() == Accept(cfg, old(State()), lfd, io)
    {
      if io.accepted == -1 {
        phase := Exited;
        return;
      }
      var c := io.accepted;
      clientToServer := clientToServer[c := lfd];
      timers := timers[c := cfg.serverKeepAlive(lfd) * 1000];
      regs := regs + {Reg(c, ReadF)};
      var req := new HttpRequest.Request();
      req.AddHeader("ClientIP", io.clientIp);
      clients := clients[c := req.State()];
    }

    method ReadData(fd: int, io: Io)
      requires fd in clients && io.got.Data?
      modifies this
      ensures State() == ReadClient(cfg, old(State()), fd, io)
    {
      var b := io.got.bytes;
      var req := Loaded(clients[fd]);
      req.AddRawContents(b);
      if |b| < ReadChunk || io.peekFails {
        if fd !in clientToServer {
          clients := clients[fd := req.State()];
          phase := Undefined;
          return;
        }
        var threw := req.Parsing(io.fs);
        if threw {
          clients := clients[fd := req.State()];
          phase := Aborted;
          return;
        }
        SettleRequest(fd, BodyLimit(req.State(), io.overBodyLimit));
      } else {
        SettleRequest(fd, req.State());
      }
    }

    method SettleRequest(fd: int, req: HttpRequest.ReqState)
      modifies this
      ensures State() == Settle(cfg, old(State()), fd, req)
    {
      clients := clients[fd := req];
      if req.full {
        if fd !in clientToServer {
          phase := Undefined;
          return;
        }
        timers := timers[fd := cfg.serverKeepAlive(clientToServer[fd]) * 1000];
        regs := regs - {Reg(fd, ReadF)} + {Reg(fd, WriteF)};
      }
    }

    /** `handleWriteEvent`. */
    method HandleWriteEvent(fd: int, io: Io)
      modifies this
      ensures State() == WriteEvent(old(State()), fd, io)
    {
      if fd !in clients {
        phase := Undefined;
        return;
      }
      var req := clients[fd];
      if req.status < 0 {
        phase := Undefined;
        return;
      }
      var bytes: string;
      if req.status != 200 {
        bytes := ErrorBytes(req.status);
      } else if io.processEnd == PostMethod.Escaped {
        phase := Aborted;
        return;
      } else if io.processEnd == PostMethod.Unspecified {
        phase := Undefined;
        return;
      } else {
        bytes := io.replies(SelectMethod(HttpRequest.Slot(req.header, "Method"), io.limit));
      }
      SendAndRearm(fd, bytes, io.sendOk, io.locKeepAlive);
    }

    method SendAndRearm(fd: int, bytes: string, sendOk: bool, keepAlive: int)
      requires fd in clients
      modifies this
      ensures State() == Answer(old(State()), fd, bytes, sendOk, keepAlive)
    {
      var req := clients[fd];
      if !sendOk {
        DisconnectClient(fd);
        return;
      }
      sent := sent + [Sent(fd, bytes)];
      if req.status == 413 {
        DisconnectClient(fd);
        return;
      }
      timers := timers[fd := keepAlive * 1000];
      var r := Loaded(req);
      r.Clear();
      clients := clients[fd := r.State()];
      regs := regs - {Reg(fd, WriteF)} + {Reg(fd, ReadF)};
    }

    /** The body of `run`'s inner loop for one event. */
    method Dispatch(ev: Event, io: Io)
      modifies this
      ensures State() == Step(cfg, old(State()), ev, io, false)
    {
      if ev.error {
        HandleEventError(ev.fd);
      } else if ev.filter == ReadF {
        HandleReadEvent(ev.fd, io);
      } else if ev.filter == WriteF {
        HandleWriteEvent(ev.fd, io);
      } else if ev.filter == TimerF {
        HandleRequestTimeOut(ev.fd, io.sendOk);
      }
    }

    /** `run`'s inner loop over one batch of events. */
    method RunBatch(evs: seq<Event>, ios: seq<Io>)
      requires |ios| == |evs|
      modifies this
      ensures State() == Run(cfg, old(State()), evs, ios, false)
    {
      var i := 0;
      while i < |evs| && phase == Running
        invariant 0 <= i <= |evs|
        invariant Run(cfg, old(State()), evs, ios, false) == Run(cfg, State(), evs[i..], ios[i..], false)
      {
        assert evs[i..][1..] == evs[i + 1..] && ios[i..][1..] == ios[i + 1..];
        Dispatch(evs[i], ios[i]);
        i := i + 1;
      }
    }
  }
}
