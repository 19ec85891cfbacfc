/** `LocationBlock` (code/src/LocationBlock.cpp): a location scope. Its
    `setKeyVal` knows six directives and ignores every other one; nothing
    is handed on to an enclosing scope. */
module LocationScope {
  import opened TextUtil

  /** The fields of a `LocationBlock`; the body size is an `unsigned long`. */
  datatype LocState = LocState(path: string, index: string, root: string, autoindex: string,
                               limitExcept: string, clientMaxBodySize: nat)

  /** What the constructor sets: empty strings and a body size of 0. */
  const Fresh: LocState := LocState("", "", "", "", "", 0)

  /** The directives `setKeyVal` knows. */
  const LocationKeys: set<string> :=
    {"path", "index", "root", "autoindex", "limit_except", "client_max_body_size"}

  /** `setKeyVal(key, value)`: the new settings, and false when `stoul`
      threw (which leaves the settings as they were). */
  function SetLocKey(s: LocState, key: string, value: string): (LocState, bool)
  {
    match key
    case "path" => (s.(path := value), true)
    case "index" => (s.(index := value), true)
    case "root" => (s.(root := value), true)
    case "autoindex" => (s.(autoindex := value), true)
    case "limit_except" => (s.(limitExcept := value), true)
    case "client_max_body_size" =>
      (match Stoul(value)
       case None => (s, false)
       case Some(n) => (s.(clientMaxBodySize := n), true))
    case _ => (s, true)
  }

  /** An unknown directive (a root or server one included) changes nothing;
      a known one changes only its own field. */
  lemma SetLocKeyFrame(s: LocState, key: string, value: string)
    ensures var (r, _) := SetLocKey(s, key, value);
      && (key !in LocationKeys ==> r == s)
      && (key != "path" ==> r.path == s.path)
      && (key != "index" ==> r.index == s.index)
      && (key != "root" ==> r.root == s.root)
      && (key != "autoindex" ==> r.autoindex == s.autoindex)
      && (key != "limit_except" ==> r.limitExcept == s.limitExcept)
      && (key != "client_max_body_size" ==> r.clientMaxBodySize == s.clientMaxBodySize)
    ensures "listen" !in LocationKeys && "user" !in LocationKeys
  {
  }

  /** `client_max_body_size` stores the number its decimal spelling names,
      for every `unsigned long`; a value that does not start with a digit,
      a sign or whitespace makes `stoul` throw and keeps the old size. */
  lemma BodySizeParsed(s: LocState, n: nat, bad: string)
    requires n < ULongModulus
    requires bad == [] || (!IsDigit(bad[0]) && !IsSpace(bad[0]) && bad[0] != '+' && bad[0] != '-')
    ensures SetLocKey(s, "client_max_body_size", Decimal(n)) == (s.(clientMaxBodySize := n), true)
    ensures SetLocKey(s, "client_max_body_size", bad) == (s, false)
  {
    StoulDecimal(n);
    StoulNeedsDigits(bad);
  }

  class LocationBlock {
    var path: string
    var index: string
    var root: string
    var autoindex: string
    var limitExcept: string
    var clientMaxBodySize: nat

    function State(): LocState
      reads this
    {
      LocState(path, index, root, autoindex, limitExcept, clientMaxBodySize)
    }

    constructor ()
      ensures State() == Fresh
    {
      path, index, root, autoindex, limitExcept, clientMaxBodySize := "", "", "", "", "", 0;
    }

    function GetPath(): string reads this { path }
    function GetIndex(): string reads this { index }
    function GetRoot(): string reads this { root }
    function GetAutoindex(): string reads this { autoindex }
    function GetLimitExcept(): string reads this { limitExcept }
    function GetClientMaxBodySize(): nat reads this { clientMaxBodySize }

    method SetPath(value: string)
      modifies this`path
      ensures GetPath() == value
    {
      path := value;
    }

    method SetIndex(value: string)
      modifies this`index
      ensures GetIndex() == value
    {
      index := value;
    }

    method SetRoot(value: string)
      modifies this`root
      ensures GetRoot() == value
    {
      root := value;
    }

    method SetAutoindex(value: string)
      modifies this`autoindex
      ensures GetAutoindex() == value
    {
      autoindex := value;
    }

    method SetLimitExcept(value: string)
      modifies this`limitExcept
      ensures GetLimitExcept() == value
    {
      limitExcept := value;
    }

    /** `setClientMaxBodySize`: `stoul(value)`. Returns false when `stoul`
        throws, leaving the size as it was. */
    method SetClientMaxBodySize(value: string) returns (ok: bool)
      modifies this`clientMaxBodySize
      ensures ok == Stoul(value).Some?
      ensures GetClientMaxBodySize() == if ok then Stoul(value).value else old(clientMaxBodySize)
    {
      var n := Stoul(value);
      if n.None? {
        return false;
      }
      clientMaxBodySize := n.value;
      ok := true;
    }

    /** `setKeyVal`: the matching setter for a known directive, nothing
        otherwise. Returns false when the setter threw. */
    method SetKeyVal(key: string, value: string) returns (ok: bool)
      modifies this
      ensures (State(), ok) == SetLocKey(old(State()), key, value)
    {
      ok := true;
      if key == "path" {
        SetPath(value);
      } else if key == "index" {
        SetIndex(value);
      } else if key == "root" {
        SetRoot(value);
      } else if key == "autoindex" {
        SetAutoindex(value);
      } else if key == "limit_except" {
        SetLimitExcept(value);
      } else if key == "client_max_body_size" {
        ok := SetClientMaxBodySize(value);
      }
    }
  }
}
