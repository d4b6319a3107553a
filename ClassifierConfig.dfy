/** ClassifierConfig is a string-keyed bag of construction parameters. */
module ClassifierConfig {
  import opened Doubles
  import opened Errors

  /** The Java Objects stored as parameters; NullParam is a stored null. */
  datatype Param = BoolParam(b: bool) | NumberParam(d: Double) | TextParam(s: string) | NullParam

  class Config {
    var params: map<string, Param>

    /** A fresh config holds no key. */
    constructor ()
      ensures params == map[]
      ensures forall k :: !ContainsParam(k) && GetParam(k) == None
    {
      params := map[];
    }

    /** `addParam`: a put, overwriting any earlier value of the key and
        leaving every other key as it was. */
    method AddParam(k: string, v: Param)
      modifies this
      ensures params == old(params)[k := v]
      ensures ContainsParam(k) && GetParam(k) == (if v == NullParam then None else Some(v))
      ensures forall k' :: k' != k ==> GetParam(k') == old(GetParam(k'))
      ensures GetAllParams() == old(GetAllParams()) + {k}
    {
      params := params[k := v];
    }

    /** `getParam`: the stored value, or null for a key never added or
        added with a null value. */
    function GetParam(k: string): (r: Option<Param>)
      reads this
      ensures r.Some? <==> k in params && params[k] != NullParam
      ensures r.Some? ==> r.value == params[k]
    {
      if k in params && params[k] != NullParam then Some(params[k]) else None
    }

    /** `containsParam`: the key was added, possibly with a null value, so
        a present key can still read as null. */
    function ContainsParam(k: string): (b: bool)
      reads this
      ensures !b ==> GetParam(k) == None
      ensures b ==> k in params && (GetParam(k).None? <==> params[k] == NullParam)
    {
      k in params
    }

    /** `getAllParams`: the key set. */
    function GetAllParams(): (ks: set<string>)
      reads this
      ensures forall k :: k in ks <==> ContainsParam(k)
    {
      params.Keys
    }
  }

  /** Reading a Boolean parameter with a default: `(Boolean) getParam(key)`
      fails its cast when the stored value is not a Boolean, and unboxing
      a stored null into the primitive field throws NullPointer. */
  function BoolSetting(params: map<string, Param>, key: string, default: bool): (r: Result<bool>)
    ensures key !in params ==> r == Ok(default)
    ensures key in params ==> (r.Ok? <==> params[key].BoolParam?)
    ensures key in params && params[key].BoolParam? ==> r == Ok(params[key].b)
    ensures r.Err? ==> key in params && r.error == (if params[key] == NullParam then NullPointer else ClassCast)
  {
    if key !in params then Ok(default)
    else match params[key]
      case BoolParam(b) => Ok(b)
      case NullParam => Err(NullPointer)
      case _ => Err(ClassCast)
  }

  /** Reading a Double parameter with a default, likewise. */
  function NumberSetting(params: map<string, Param>, key: string, default: Double): (r: Result<Double>)
    ensures key !in params ==> r == Ok(default)
    ensures key in params ==> (r.Ok? <==> params[key].NumberParam?)
    ensures key in params && params[key].NumberParam? ==> r == Ok(params[key].d)
    ensures r.Err? ==> key in params && r.error == (if params[key] == NullParam then NullPointer else ClassCast)
  {
    if key !in params then Ok(default)
    else match params[key]
      case NumberParam(d) => Ok(d)
      case NullParam => Err(NullPointer)
      case _ => Err(ClassCast)
  }
}
