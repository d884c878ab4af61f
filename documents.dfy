/**
 * LangChain documents as the tutor sees them: page text plus a metadata
 * dictionary whose values are Python scalars.
 */
module Documents {
  import Decimal
  import opened Options

  /** The metadata values that occur: None, booleans, integers and strings. */
  datatype MetaValue = PyNone | PyBool(b: bool) | PyInt(i: int) | PyStr(s: string)

  type Metadata = map<string, MetaValue>

  datatype Document = Document(pageContent: string, metadata: Metadata)

  /** `metadata.get(key)`: the stored value, or None when the key is absent. */
  function Get(m: Metadata, key: string): (v: MetaValue)
    ensures key in m ==> v == m[key]
    ensures key !in m ==> v == PyNone
  {
    GetOr(m, key, PyNone)
  }

  /** `metadata.get(key, default)`. */
  function GetOr(m: Metadata, key: string, default: MetaValue): (v: MetaValue)
    ensures key in m ==> v == m[key]
    ensures key !in m ==> v == default
  {
    if key in m then m[key] else default
  }

  /**
   * Python's `str(v)`, which an f-string applies to each interpolated value.
   * A string renders as itself, and an integer as a numeral that reads back.
   */
  function Render(v: MetaValue): (r: string)
    ensures v.PyNone? ==> r == "None"
    ensures v.PyStr? ==> r == v.s
    ensures v.PyInt? ==> Decimal.ParseInt(r) == Some(v.i)
    ensures v.PyBool? ==> r == if v.b then "True" else "False"
  {
    match v
    case PyNone => "None"
    case PyBool(b) => if b then "True" else "False"
    case PyInt(i) => Decimal.IntToStringRoundTrip(i); Decimal.IntToString(i)
    case PyStr(s) => s
  }
}
