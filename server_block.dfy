/** `ServerBlock` (code/src/ServerBlock.cpp): a virtual-server scope. It
    derives from `RootBlock`; here the base-class part is the object `base`,
    which both constructors fill by the `RootBlock` copy constructor, and
    `setKeyVal` hands every directive it does not know to it. */
module ServerScope {
  import opened TextUtil
  import RootScope

  /** The fields `ServerBlock` adds. `_clientMaxBodySize(0)` builds a
      `std::string` from a null `char*`, which is undefined; here that
      field starts empty. */
  datatype ServerState = ServerState(listenPort: int, listenHost: string, root: string,
                                     index: string, serverName: string, clientMaxBodySize: string)

  /** What `ServerBlock(RootBlock &)` sets: port 0, every string empty. */
  const Fresh: ServerState := ServerState(0, "", "", "", "", "")

  // ---------------------------------------------------------------------------
  // setListen

  const Digits: set<char> := {'0', '1', '2', '3', '4', '5', '6', '7', '8', '9'}

  /** `setListen(value)` as written, from host `host` and port `port`: with
      the first ':' at `t`, the host is `substr(0, t - 1)` (the whole value
      when `t` is 0, since `t - 1` wraps to `npos`) and the port is `atoi`
      of the text after the ':'; without ':', a value holding a non-digit
      is the host and an all-digit value is the port. */
  function Listen(value: string, host: string, port: int): (string, int)
  {
    match FindChar(value, ':', 0)
    case Some(t) => (if t == 0 then value else value[..t - 1], Atoi(value[t + 1..]))
    case None =>
      if FindNotIn(value, Digits, 0).Some? then (value, port) else (host, Atoi(value))
  }

  /** `setListen` as evidently intended: the host is the text before the ':'. */
  function ListenCorrected(value: string, host: string, port: int): (string, int)
  {
    match FindChar(value, ':', 0)
    case Some(t) => (value[..t], Atoi(value[t + 1..]))
    case None =>
      if FindNotIn(value, Digits, 0).Some? then (value, port) else (host, Atoi(value))
  }

  /** "host:port" splits at its ':', which is the first one. */
  lemma ColonAfterHost(h: string, p: string)
    requires ':' !in h
    ensures FindChar(h + ":" + p, ':', 0) == Some(|h|)
    ensures (h + ":" + p)[..|h|] == h && (h + ":" + p)[|h| + 1..] == p
  {
    var v := h + ":" + p;
    forall k | 0 <= k < |h| ensures v[k] != ':' {
      assert v[k] == h[k];
    }
    FindCharAt(v, ':', 0, |h|);
    assert v[..|h|] == h;
    assert v[|h| + 1..] == p;
  }

  /** As written, "host:port" stores the host without its last character;
      the port is read from the text after the ':'. */
  lemma ListenDropsLastChar(h: string, n: nat, host: string, port: int)
    requires h != [] && ':' !in h
    ensures Listen(h + ":" + Decimal(n), host, port) == (h[..|h| - 1], n)
  {
    var v := h + ":" + Decimal(n);
    ColonAfterHost(h, Decimal(n));
    assert v[..|h| - 1] == h[..|h| - 1];
    AtoiDecimal(n);
  }

  /** `listen localhost:8080` stores the host "localhos" and the port 8080. */
  lemma ListenExample(host: string, port: int)
    ensures Decimal(8080) == "8080"
    ensures Listen("localhost:" + Decimal(8080), host, port) == ("localhos", 8080)
  {
    Decimal8080();
    ListenDropsLastChar("localhost", 8080, host, port);
    assert "localhost" + ":" == "localhost:";
    assert "localhost"[..8] == "localhos";
  }

  lemma Decimal8080()
    ensures Decimal(8080) == "8080"
  {
    DecimalAppend(8, 0);
    DecimalAppend(80, 8);
    DecimalAppend(808, 0);
  }

  /** Corrected, "host:port" stores exactly the host and the port. */
  lemma ListenCorrectedSplits(h: string, n: nat, host: string, port: int)
    requires ':' !in h
    ensures ListenCorrected(h + ":" + Decimal(n), host, port) == (h, n)
  {
    ColonAfterHost(h, Decimal(n));
    AtoiDecimal(n);
  }

  /** Without ':', a value holding a non-digit becomes the host and the
      port stays; an all-digit value becomes the port and the host stays. */
  lemma ListenWithoutColon(value: string, host: string, port: int)
    requires ':' !in value
    ensures !AllDigits(value) ==> Listen(value, host, port) == (value, port)
    ensures AllDigits(value) ==> Listen(value, host, port) == (host, DigitsValue(value))
  {
    FindCharSpec(value, ':', 0);
    FindNotInSpec(value, Digits, 0);
    if AllDigits(value) {
      forall k | 0 <= k < |value| ensures value[k] in Digits {
        assert IsDigit(value[k]);
      }
      if value == [] {
        assert Atoi(value) == 0;
      } else {
        assert value + [] == value;
        AtoiStopsAtNonDigit(value, []);
      }
    } else {
      var k :| 0 <= k < |value| && !IsDigit(value[k]);
      assert value[k] !in Digits;
    }
  }

  // ---------------------------------------------------------------------------
  // setKeyVal

  /** The directives `ServerBlock::setKeyVal` handles itself. */
  const ServerKeys: set<string> := {"listen", "root", "index", "server_name", "client_max_body_size"}

  /** The server settings after one of its own directives. */
  function SetServerKey(s: ServerState, key: string, value: string): ServerState
  {
    match key
    case "listen" =>
      var (h, p) := Listen(value, s.listenHost, s.listenPort);
      s.(listenHost := h, listenPort := p)
    case "root" => s.(root := value)
    case "index" => s.(index := value)
    case "server_name" => s.(serverName := value)
    case "client_max_body_size" => s.(clientMaxBodySize := value)
    case _ => s
  }

  /** Each server directive changes only its own field (host and port for
      "listen"); none of them is a root directive, so the two dispatch
      tables never compete for a key. */
  lemma SetServerKeyFrame(s: ServerState, key: string, value: string)
    ensures var r := SetServerKey(s, key, value);
      && (key !in ServerKeys ==> r == s)
      && (key != "listen" ==> r.listenHost == s.listenHost && r.listenPort == s.listenPort)
      && (key != "root" ==> r.root == s.root)
      && (key != "index" ==> r.index == s.index)
      && (key != "server_name" ==> r.serverName == s.serverName)
      && (key != "client_max_body_size" ==> r.clientMaxBodySize == s.clientMaxBodySize)
      && (key in ServerKeys ==> key !in RootScope.RootKeys)
  {
  }

  // ---------------------------------------------------------------------------
  // The block

  class ServerBlock {
    /** The `RootBlock` base-class part. */
    var base: RootScope.RootBlock
    var listenPort: int
    var listenHost: string
    var root: string
    var index: string
    var serverName: string
    var clientMaxBodySize: string

    function State(): ServerState
      reads this
    {
      ServerState(listenPort, listenHost, root, index, serverName, clientMaxBodySize)
    }

    /** `ServerBlock(RootBlock &)`: the root settings through the copy
        constructor, port 0 and empty strings. */
    constructor FromRoot(rootBlock: RootScope.RootBlock)
      ensures fresh(base) && base.State() == RootScope.CopyOf(rootBlock.State())
      ensures State() == Fresh
    {
      base := new RootScope.RootBlock.Copy(rootBlock);
      listenPort, listenHost, root, index, serverName, clientMaxBodySize := 0, "", "", "", "", "";
    }

    /** `ServerBlock(ServerBlock &)`: the base part through the `RootBlock`
        copy constructor, the server fields copied. */
    constructor Copy(other: ServerBlock)
      ensures fresh(base) && base.State() == RootScope.CopyOf(other.base.State())
      ensures State() == other.State()
    {
      base := new RootScope.RootBlock.Copy(other.base);
      listenPort, listenHost, root := other.listenPort, other.listenHost, other.root;
      index, serverName, clientMaxBodySize := other.index, other.serverName, other.clientMaxBodySize;
    }

    function GetListenPort(): int reads this { listenPort }
    function GetListenHost(): string reads this { listenHost }
    function GetRoot(): string reads this { root }
    function GetIndex(): string reads this { index }
    function GetServerName(): string reads this { serverName }
    function GetClientMaxBodySize(): string reads this { clientMaxBodySize }

    method SetListen(value: string)
      modifies this`listenHost, this`listenPort
      ensures (GetListenHost(), GetListenPort()) == Listen(value, old(listenHost), old(listenPort))
    {
      var t := FindChar(value, ':', 0);
      if t.Some? {
        listenHost := if t.value == 0 then value else value[..t.value - 1];
        listenPort := Atoi(value[t.value + 1..]);
      } else if FindNotIn(value, Digits, 0).Some? {
        listenHost := value;
      } else {
        listenPort := Atoi(value);
      }
    }

    method SetRoot(value: string)
      modifies this`root
      ensures GetRoot() == value
    {
      root := value;
    }

    method SetIndex(value: string)
      modifies this`index
      ensures GetIndex() == value
    {
      index := value;
    }

    method SetServerName(value: string)
      modifies this`serverName
      ensures GetServerName() == value
    {
      serverName := value;
    }

    method SetClientMaxBodySize(value: string)
      modifies this`clientMaxBodySize
      ensures GetClientMaxBodySize() == value
    {
      clientMaxBodySize := value;
    }

    /** `setKeyVal`: a server directive goes to its setter and leaves the
        root settings alone; any other goes to `RootBlock::setKeyVal` and
        leaves the server settings alone. Returns false when the setter
        threw. */
    method SetKeyVal(key: string, value: string) returns (ok: bool)
      modifies this, base
      ensures base == old(base)
      ensures key in ServerKeys ==>
        State() == SetServerKey(old(State()), key, value) && base.State() == old(base.State()) && ok
      ensures key !in ServerKeys ==>
        State() == old(State()) && (base.State(), ok) == RootScope.SetKey(old(base.State()), key, value)
    {
      ok := true;
      if key == "listen" {
        SetListen(value);
      } else if key == "root" {
        SetRoot(value);
      } else if key == "index" {
        SetIndex(value);
      } else if key == "server_name" {
        SetServerName(value);
      } else if key == "client_max_body_size" {
        SetClientMaxBodySize(value);
      } else {
        ok := base.SetKeyVal(key, value);
      }
    }
  }
}
