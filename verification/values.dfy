/** JSON-like Python values that flow through the request logger, their size
    measure, and the foreign (library) functions the logger calls on them. */
module Values {

  datatype Option<+T> = None | Some(value: T)

  newtype byte = x: int | 0 <= x < 256

  /** A Python value as the logger sees it. `Opaque` stands for every other
      Python object (floats, tuples, sets, ...), which the sanitiser never
      looks inside. */
  datatype Val =
    | Null
    | Bool(b: bool)
    | Int(i: int)
    | Str(s: string)
    | Bytes(bs: seq<byte>)
    | List(items: seq<Val>)
    | Dict(entries: seq<Entry>)
    | Opaque(repr: string)

  /** One key/value pair of a Python dict; the sequence keeps insertion order.
      A Python dict never holds a key twice; `Dict` admits that, so every
      property proved here holds over this larger set of values too. */
  datatype Entry = Entry(key: string, value: Val)

  /** Size of a value: a string counts one more than its length, so that a
      string is always larger than any literal it spells out. */
  function Size(v: Val): (n: nat)
    ensures n >= 1
  {
    match v
    case Str(s) => |s| + 1
    case List(items) => 1 + SizeList(items)
    case Dict(es) => 1 + SizeEntries(es)
    case _ => 1
  }

  function SizeList(items: seq<Val>): (n: nat)
    ensures forall i :: 0 <= i < |items| ==> Size(items[i]) <= n
  {
    if items == [] then 0 else Size(items[0]) + SizeList(items[1..])
  }

  function SizeEntries(es: seq<Entry>): (n: nat)
    ensures forall i :: 0 <= i < |es| ==> Size(es[i].value) < n
  {
    if es == [] then 0 else 1 + Size(es[0].value) + SizeEntries(es[1..])
  }

  /** The library calls the logger makes, left uninterpreted:
      - `decode`: `bytes.decode(errors="replace")`, total;
      - `literalEval`: `ast.literal_eval` on a string, `None` when it raises
        `ValueError` or `SyntaxError`;
      - `lower`: `str.lower`;
      - `parseIp`: `str(ipaddress.ip_address(s))`, the canonical text of a
        valid IPv4/IPv6 literal, `None` when it raises `ValueError`. */
  datatype Foreign = Foreign(
    decode: seq<byte> -> string,
    literalEval: string -> Option<Val>,
    lower: string -> string,
    parseIp: string -> Option<string>)
  {
    /** A literal spells out at least one character per unit of size, so the
        value `literal_eval` returns is never larger than its source text. */
    ghost predicate Sound()
    {
      forall s :: literalEval(s).Some? ==> Size(literalEval(s).value) <= |s|
    }
  }
}
