/**
  The attribute tree as the metadata extractors see it.

  The document arrives as a Box tree in which a missing attribute reads as
  None. A field the extractors iterate over may hold one node, a list of
  elements, or anything else; asking an attribute of None (or of a plain
  value) raises AttributeError, which the extractors absorb. This module
  gives those shapes explicit datatypes and normalises the "one item or a
  list" cardinality into a sequence, as the extractors' loops visit it.
 */
module Tree {

  /** A value that may be missing, as a Box attribute that reads as None. */
  datatype Option<+T> = None | Some(value: T) {

    /** The value, or the given default when missing. */
    function GetOr(default: T): T {
      match this
      case Some(v) => v
      case None => default
    }
  }

  /** The exceptions that escape an extractor's constructor. AttributeError
      never appears here: the constructors absorb it. */
  datatype Error =
    | ValueError(field: string)   // a numeric text that does not convert
    | TypeError(field: string)    // int() applied to a missing value
    | IndexError(field: string)   // a split text with too few fields

  datatype Result<+T> = Ok(value: T) | Err(error: Error)

  /** One element of a list-valued field: a node, None, or some other value
      (text, a nested list) that has no attributes. */
  datatype Element<+T> = Node(node: T) | Null | Other

  /** What a field holds once reached: a single node, a list of elements, or
      anything else (None, a plain value), which neither loop branch takes. */
  datatype Cardinality<+T> = Absent | Single(only: T) | Many(items: seq<Element<T>>)

  /** The outcome of the attribute chain leading to a field: some link on
      the way was None (AttributeError), or the field was reached. */
  datatype Path<+T> = Broken | Reached(leaf: Cardinality<T>)

  /** The numeric conversions the extractors apply to text: Python's float
      (and numpy's double, which accepts the same texts) and int. None
      stands for a ValueError. */
  datatype Parsers = Parsers(toFloat: string -> Option<real>, toInt: string -> Option<int>)

  /** The nodes a loop that reads an attribute of every element visits: the
      longest run of nodes at the head of the list. The first None or plain
      element raises AttributeError and ends the loop. */
  function LeadingNodes<T>(items: seq<Element<T>>): (nodes: seq<T>)
    ensures |nodes| <= |items|
    ensures forall i :: 0 <= i < |nodes| ==> items[i] == Node(nodes[i])
    ensures |nodes| < |items| ==> !items[|nodes|].Node?
  {
    if |items| == 0 || !items[0].Node? then []
    else [items[0].node] + LeadingNodes(items[1..])
  }

  /** The entries a loop that first tests an element against None visits:
      nodes become Some, None elements become None, and the first plain
      element raises AttributeError and ends the loop. */
  function LeadingEntries<T>(items: seq<Element<T>>): (entries: seq<Option<T>>)
    ensures |entries| <= |items|
    ensures forall i :: 0 <= i < |entries| ==>
              (items[i].Node? && entries[i] == Some(items[i].node))
              || (items[i].Null? && entries[i] == None)
    ensures |entries| < |items| ==> items[|entries|].Other?
  {
    if |items| == 0 || items[0].Other? then []
    else [if items[0].Node? then Some(items[0].node) else None] + LeadingEntries(items[1..])
  }

  /** The nodes of a field in document order, for loops that stop at None. */
  function Nodes<T>(c: Cardinality<T>): seq<T> {
    match c
    case Absent => []
    case Single(x) => [x]
    case Many(items) => LeadingNodes(items)
  }

  /** The entries of a field in document order, for loops that accept None. */
  function Entries<T>(c: Cardinality<T>): seq<Option<T>> {
    match c
    case Absent => []
    case Single(x) => [Some(x)]
    case Many(items) => LeadingEntries(items)
  }

  /** float(t) (or np.double(t)); ValueError names the field read. */
  function ConvertFloat(t: string, field: string, p: Parsers): Result<real> {
    match p.toFloat(t)
    case Some(v) => Ok(v)
    case None => Err(ValueError(field))
  }

  /** int(t); ValueError names the field read. */
  function ConvertInt(t: string, field: string, p: Parsers): Result<int> {
    match p.toInt(t)
    case Some(v) => Ok(v)
    case None => Err(ValueError(field))
  }

  /** v is what an optional numeric field yields: its converted text when
      present, the default when missing. */
  ghost predicate FloatOr(field: Option<string>, p: Parsers, v: real, default: real) {
    if field.None? then v == default else p.toFloat(field.value) == Some(v)
  }

  /** An optional numeric field can be read: missing, or a convertible text. */
  predicate FloatReads(field: Option<string>, p: Parsers) {
    field.None? || p.toFloat(field.value).Some?
  }
}
