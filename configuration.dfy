/** Configuration providers (packagetrack/configuration.py): `NullConfig`,
    which has no values, and `DictConfig`, a nested dictionary walked one key at
    a time. A node of the walk is a Python value: a dict, a string, or None. */
module Configuration {
  import opened Errors

  datatype Node = DictNode(entries: map<string, Node>) | StrNode(s: string) | NoneNode

  datatype Provider = NullConfig | DictConfig(root: map<string, Node>)

  /** `NullConfig.get_value(*keys)`: raises ConfigKeyError for every key path,
      including the empty one. */
  function NullGetValue(keys: seq<string>): (r: Result<Node>)
    ensures r.Err? && Catches(ConfigKeyError, r.error) && Catches(KeyError, r.error)
  {
    Err(Error(ConfigKeyError, "NullConfig provides no values"))
  }

  /** One step of the walk: `node.get(key)`. A dict yields the entry or None;
      a string or None has no `get` and raises AttributeError. */
  function Step(node: Node, key: string): (r: Result<Node>)
    ensures r.Err? <==> !node.DictNode?
    ensures r.Err? ==> r.error.cls == AttributeError
    ensures node.DictNode? && key in node.entries ==> r == Ok(node.entries[key])
    ensures node.DictNode? && key !in node.entries ==> r == Ok(NoneNode)
  {
    match node
    case DictNode(m) => Ok(if key in m then m[key] else NoneNode)
    case _ => Err(Error(AttributeError, "object has no attribute 'get'"))
  }

  /** The value `DictConfig.get_value(*keys)` returns, from the node `node`. */
  function Walk(node: Node, keys: seq<string>): Result<Node>
    decreases |keys|
  {
    if |keys| == 0 then Ok(node)
    else
      match Step(node, keys[0])
      case Err(e) => Err(e)
      case Ok(next) => Walk(next, keys[1..])
  }

  /** `DictConfig.get_value(*keys)`: the loop of configuration.py:53-60. */
  method DictGetValue(root: map<string, Node>, keys: seq<string>) returns (r: Result<Node>)
    ensures r == Walk(DictNode(root), keys)
  {
    var node := DictNode(root);
    var i := 0;
    while i < |keys|
      invariant 0 <= i <= |keys|
      invariant Walk(DictNode(root), keys) == Walk(node, keys[i..])
    {
      assert keys[i..][1..] == keys[i + 1..];
      match node {
        case DictNode(m) =>
          node := if keys[i] in m then m[keys[i]] else NoneNode;
        case _ =>
          // the `except KeyError` of configuration.py:58 does not catch this
          return Err(Error(AttributeError, "object has no attribute 'get'"));
      }
      i := i + 1;
    }
    return Ok(node);
  }

  /** The value the provider returns for a key path. */
  function GetValue(p: Provider, keys: seq<string>): Result<Node>
  {
    match p
    case NullConfig => NullGetValue(keys)
    case DictConfig(root) => Walk(DictNode(root), keys)
  }

  /** `keys` leads from `node` through dicts to the stored value `v`. */
  predicate HasPath(node: Node, keys: seq<string>, v: Node)
    decreases |keys|
  {
    if |keys| == 0 then node == v
    else node.DictNode? && keys[0] in node.entries && HasPath(node.entries[keys[0]], keys[1..], v)
  }

  /** Along an existing path the walk returns the stored value; with no keys it
      returns the dict itself. */
  lemma {:induction false} WalkFindsStoredValue(node: Node, keys: seq<string>, v: Node)
    requires HasPath(node, keys, v)
    ensures Walk(node, keys) == Ok(v)
    decreases |keys|
  {
    if |keys| > 0 {
      WalkFindsStoredValue(node.entries[keys[0]], keys[1..], v);
    }
  }

  /** A missing FINAL key gives None instead of raising: `dict.get` never raises
      KeyError, so the handler on configuration.py:58 is unreachable for dicts. */
  lemma {:induction false} MissingFinalKeyIsNone(node: Node, keys: seq<string>, d: map<string, Node>, key: string)
    requires HasPath(node, keys, DictNode(d)) && key !in d
    ensures Walk(node, keys + [key]) == Ok(NoneNode)
    decreases |keys|
  {
    if |keys| == 0 {
      assert keys + [key] == [key];
    } else {
      assert (keys + [key])[1..] == keys[1..] + [key];
      MissingFinalKeyIsNone(node.entries[keys[0]], keys[1..], d, key);
    }
  }

  /** A missing INTERMEDIATE key leaves None as the node, and the next step
      raises AttributeError, which is not a ConfigKeyError. */
  lemma {:induction false} MissingIntermediateKeyRaises(node: Node, keys: seq<string>, d: map<string, Node>,
                                                        key: string, more: seq<string>)
    requires HasPath(node, keys, DictNode(d)) && key !in d && |more| > 0
    ensures Walk(node, keys + [key] + more).Err?
    ensures Walk(node, keys + [key] + more).error.cls == AttributeError
    ensures !Catches(ConfigKeyError, Walk(node, keys + [key] + more).error)
    decreases |keys|
  {
    if |keys| == 0 {
      assert keys + [key] + more == [key] + more;
      assert ([key] + more)[1..] == more;
    } else {
      assert (keys + [key] + more)[1..] == keys[1..] + [key] + more;
      MissingIntermediateKeyRaises(node.entries[keys[0]], keys[1..], d, key, more);
    }
  }

  /** No key path makes a DictConfig raise ConfigKeyError. */
  lemma {:induction false} DictNeverRaisesConfigKeyError(node: Node, keys: seq<string>)
    ensures Walk(node, keys).Err? ==> !Catches(ConfigKeyError, Walk(node, keys).error)
    decreases |keys|
  {
    if |keys| > 0 {
      match Step(node, keys[0]) {
        case Err(e) =>
        case Ok(next) => DictNeverRaisesConfigKeyError(next, keys[1..]);
      }
    }
  }
}
