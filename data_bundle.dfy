/**
 * The serialisation of CArtAgO action parameters for the event bus. Each
 * parameter becomes a pair [class name, payload]: a list's payload is the
 * list of its elements' pairs, any other value's payload is its text. On the
 * way back the class name says how to read the payload.
 */
module DataBundle {
  import opened Wrappers
  import opened JavaLang
  import opened Json

  const STRING_CLASS: string := "java.lang.String"
  const INTEGER_CLASS: string := "java.lang.Integer"
  const LONG_CLASS: string := "java.lang.Long"
  const DOUBLE_CLASS: string := "java.lang.Double"
  const BOOLEAN_CLASS: string := "java.lang.Boolean"
  const LIST_CLASS: string := "java.util.List"

  /** An action parameter as a Java object; Null is Java null. */
  datatype Value =
    | Null
    | Str(s: string)
    | Int(i: Int32)
    | Long(l: Int64)
    | Bool(b: bool)
    | List(items: seq<Value>)

  /** The payload of a typed pair: the value's text, or the pairs of a list's elements. */
  datatype Payload = Text(s: string) | Nested(pairs: seq<Typed>)

  /** A typed pair [class name, payload]. */
  datatype Typed = Typed(className: string, payload: Payload)

  /**
   * A decoded parameter. A pair named java.lang.String whose payload is a
   * list is handed back as that raw list; a pair of an unknown class is null.
   * DDouble keeps the text Double.valueOf would read.
   */
  datatype Decoded =
    | DNull
    | DStr(s: string)
    | DInt(i: Int32)
    | DDouble(text: string)
    | DBool(b: bool)
    | DArray(items: seq<Decoded>)
    | DRaw(pairs: seq<Typed>)

  // ---------------------------------------------------------------- encoding

  /** The pair of one parameter; null has no class and makes the encoder throw. */
  function EncodeValue(v: Value): (r: Option<Typed>)
    ensures v.Null? ==> r.None?
    ensures r.Some? && !v.List? ==> r.value.payload.Text?
    decreases v, 1
  {
    match v
    case Null => None
    case Str(s) => Some(Typed(STRING_CLASS, Text(s)))
    case Int(i) => Some(Typed(INTEGER_CLASS, Text(IntToString(i))))
    case Long(l) => Some(Typed(LONG_CLASS, Text(IntToString(l))))
    case Bool(b) => Some(Typed(BOOLEAN_CLASS, Text(BoolToString(b))))
    case List(items) =>
      match EncodeList(items)
      case Some(ps) => Some(Typed(LIST_CLASS, Nested(ps)))
      case None => None
  }

  /** objectListToTypedList: one pair per parameter, in order; it throws when any parameter does. */
  function EncodeList(xs: seq<Value>): (r: Option<seq<Typed>>)
    ensures r.Some? <==> forall i :: 0 <= i < |xs| ==> EncodeValue(xs[i]).Some?
    ensures r.Some? ==> |r.value| == |xs| && forall i :: 0 <= i < |xs| ==> EncodeValue(xs[i]) == Some(r.value[i])
    decreases xs, 0
  {
    if |xs| == 0 then Some([])
    else
      match EncodeValue(xs[0])
      case None => None
      case Some(p) =>
        match EncodeList(xs[1..])
        case None =>
          assert forall i :: 1 <= i < |xs| ==> xs[1..][i - 1] == xs[i];
          None
        case Some(ps) =>
          assert forall i :: 1 <= i < |xs| ==> xs[1..][i - 1] == xs[i];
          Some([p] + ps)
  }

  /** The JSON form of the pairs, as Json.encode writes them. */
  function PairsToJson(ps: seq<Typed>): (r: Json)
    ensures r.JArray? && |r.items| == |ps|
    decreases ps, 0
  {
    JArray(seq(|ps|, i requires 0 <= i < |ps| => PairToJson(ps[i])))
  }

  function PairToJson(p: Typed): (r: Json)
    ensures r.JArray? && |r.items| == 2 && r.items[0] == JString(p.className)
    decreases p, 1
  {
    var payload := match p.payload
      case Text(s) => JString(s)
      case Nested(ps) => PairsToJson(ps);
    JArray([JString(p.className), payload])
  }

  /** toJson: the JSON of the pairs; null anywhere makes it throw. */
  function ToJson(params: seq<Value>): (r: Option<Json>)
    ensures r.Some? <==> EncodeList(params).Some?
    ensures r.Some? ==> r.value == PairsToJson(EncodeList(params).value)
  {
    match EncodeList(params)
    case Some(ps) => Some(PairsToJson(ps))
    case None => None
  }

  // ---------------------------------------------------------------- decoding

  /**
   * The pairs of a JSON value: an array of arrays of at least two elements
   * (elements past the second are not read) whose first is a string and
   * whose second is a string or again such an array.
   */
  function PairsFromJson(j: Json): (r: Option<seq<Typed>>)
    ensures r.Some? ==> j.JArray? && |r.value| == |j.items|
    decreases j, 0
  {
    match j
    case JArray(items) => MapAllJson(items)
    case _ => None
  }

  function MapAllJson(items: seq<Json>): (r: Option<seq<Typed>>)
    ensures r.Some? ==> |r.value| == |items|
    decreases items, 2
  {
    if |items| == 0 then Some([])
    else
      match PairFromJson(items[0])
      case None => None
      case Some(p) =>
        match MapAllJson(items[1..])
        case None => None
        case Some(ps) => Some([p] + ps)
  }

  function PairFromJson(j: Json): (r: Option<Typed>)
    decreases j, 1
  {
    match j
    case JArray(a) =>
      if |a| < 2 || !a[0].JString? then None
      else if a[1].JString? then Some(Typed(a[0].s, Text(a[1].s)))
      else
        (match PairsFromJson(a[1])
         case Some(ps) => Some(Typed(a[0].s, Nested(ps)))
         case None => None)
    case _ => None
  }

  /**
   * The parameter of one pair, by class name: a string's payload is returned
   * as it is; an int's text is parsed (malformed text throws); a boolean's
   * text is true exactly when it reads "true" in any case; a list's pairs
   * are decoded in turn; any other class gives null. A payload of the wrong
   * kind for an int, a double, a boolean or a list fails its cast.
   */
  function DecodePair(p: Typed): (r: Option<Decoded>)
    ensures p.className == STRING_CLASS ==> r.Some?
    ensures p.className !in {STRING_CLASS, INTEGER_CLASS, DOUBLE_CLASS, BOOLEAN_CLASS, LIST_CLASS} ==> r == Some(DNull)
    decreases p, 1
  {
    if p.className == STRING_CLASS then
      match p.payload
      case Text(s) => Some(DStr(s))
      case Nested(ps) => Some(DRaw(ps))
    else if p.className == INTEGER_CLASS then
      match p.payload
      case Text(s) =>
        (match ParseDecimal(s, INT_MIN, INT_MAX)
         case Some(n) => Some(DInt(n))
         case None => None)
      case Nested(_) => None
    else if p.className == DOUBLE_CLASS then
      match p.payload
      case Text(s) => Some(DDouble(s))
      case Nested(_) => None
    else if p.className == BOOLEAN_CLASS then
      match p.payload
      case Text(s) => Some(DBool(ParseBoolean(s)))
      case Nested(_) => None
    else if p.className == LIST_CLASS then
      match p.payload
      case Text(_) => None
      case Nested(ps) =>
        match DecodeList(ps)
        case Some(ds) => Some(DArray(ds))
        case None => None
    else Some(DNull)
  }

  /** typedListToObjectList: one parameter per pair, in order; it throws when any pair does. */
  function DecodeList(ps: seq<Typed>): (r: Option<seq<Decoded>>)
    ensures r.Some? <==> forall i :: 0 <= i < |ps| ==> DecodePair(ps[i]).Some?
    ensures r.Some? ==> |r.value| == |ps| && forall i :: 0 <= i < |ps| ==> DecodePair(ps[i]) == Some(r.value[i])
    decreases ps, 0
  {
    if |ps| == 0 then Some([])
    else
      match DecodePair(ps[0])
      case None => None
      case Some(d) =>
        match DecodeList(ps[1..])
        case None =>
          assert forall i :: 1 <= i < |ps| ==> ps[1..][i - 1] == ps[i];
          None
        case Some(ds) =>
          assert forall i :: 1 <= i < |ps| ==> ps[1..][i - 1] == ps[i];
          Some([d] + ds)
  }

  /** fromJson: the parameters of the JSON pairs; a malformed shape or pair throws. */
  function FromJson(j: Json): (r: Option<seq<Decoded>>)
    ensures r.Some? ==> j.JArray? && |r.value| == |j.items|
  {
    match PairsFromJson(j)
    case Some(ps) => DecodeList(ps)
    case None => None
  }

  // ---------------------------------------------------------------- round trip

  /**
   * What a parameter comes back as: strings, ints and booleans as
   * themselves, lists as arrays of their converted elements, and a long as
   * null, since java.lang.Long is not a class the decoder knows.
   */
  function Received(v: Value): Decoded
    decreases v, 1
  {
    match v
    case Null => DNull
    case Str(s) => DStr(s)
    case Int(i) => DInt(i)
    case Long(_) => DNull
    case Bool(b) => DBool(b)
    case List(items) => DArray(ReceivedList(items))
  }

  function ReceivedList(xs: seq<Value>): (r: seq<Decoded>)
    ensures |r| == |xs|
    decreases xs, 0
  {
    if |xs| == 0 then [] else [Received(xs[0])] + ReceivedList(xs[1..])
  }

  /** Decoding the pairs of a parameter gives what it is received as. */
  lemma {:induction false} DecodeEncodeValue(v: Value)
    requires EncodeValue(v).Some?
    ensures DecodePair(EncodeValue(v).value) == Some(Received(v))
    decreases v, 1
  {
    match v
    case Null =>
    case Str(s) =>
    case Int(i) =>
      ParseIntToString(i, INT_MIN, INT_MAX);
    case Long(l) =>
      assert LONG_CLASS[10] != STRING_CLASS[10] && LONG_CLASS[10] != INTEGER_CLASS[10];
      assert LONG_CLASS[10] != DOUBLE_CLASS[10] && LONG_CLASS[10] != BOOLEAN_CLASS[10];
      assert LONG_CLASS[5] != LIST_CLASS[5];
    case Bool(b) =>
      ParseBoolToString(b);
      assert BOOLEAN_CLASS[10] != STRING_CLASS[10] && BOOLEAN_CLASS[10] != INTEGER_CLASS[10];
      assert BOOLEAN_CLASS[10] != DOUBLE_CLASS[10];
    case List(items) =>
      DecodeEncodeList(items);
      assert LIST_CLASS[5] != STRING_CLASS[5] && LIST_CLASS[5] != INTEGER_CLASS[5];
      assert LIST_CLASS[5] != DOUBLE_CLASS[5] && LIST_CLASS[5] != BOOLEAN_CLASS[5];
  }

  lemma {:induction false} DecodeEncodeList(xs: seq<Value>)
    requires EncodeList(xs).Some?
    ensures DecodeList(EncodeList(xs).value) == Some(ReceivedList(xs))
    decreases xs, 0
  {
    if |xs| > 0 {
      DecodeEncodeValue(xs[0]);
      DecodeEncodeList(xs[1..]);
      var ps := EncodeList(xs).value;
      assert ps[1..] == EncodeList(xs[1..]).value;
    }
  }

  /** The pairs read back from their JSON are the pairs written. */
  lemma {:induction false} PairsJsonRoundTrip(ps: seq<Typed>)
    ensures PairsFromJson(PairsToJson(ps)) == Some(ps)
    decreases ps, 1
  {
    var items := PairsToJson(ps).items;
    MapAllJsonRoundTrip(ps, items);
  }

  lemma {:induction false} MapAllJsonRoundTrip(ps: seq<Typed>, items: seq<Json>)
    requires |items| == |ps| && forall i :: 0 <= i < |ps| ==> items[i] == PairToJson(ps[i])
    ensures MapAllJson(items) == Some(ps)
    decreases ps, 0
  {
    if |ps| > 0 {
      PairJsonRoundTrip(ps[0]);
      MapAllJsonRoundTrip(ps[1..], items[1..]);
      assert ps == [ps[0]] + ps[1..];
    }
  }

  lemma {:induction false} PairJsonRoundTrip(p: Typed)
    ensures PairFromJson(PairToJson(p)) == Some(p)
    decreases p, 2
  {
    match p.payload
    case Text(s) =>
    case Nested(ps) =>
      PairsJsonRoundTrip(ps);
  }

  /**
   * fromJson(toJson(params)): when no parameter is null, every parameter is
   * received as Received says, in order.
   */
  lemma FromJsonToJson(params: seq<Value>)
    requires ToJson(params).Some?
    ensures FromJson(ToJson(params).value) == Some(ReceivedList(params))
  {
    PairsJsonRoundTrip(EncodeList(params).value);
    DecodeEncodeList(params);
  }

  /** A null parameter anywhere in the list makes toJson throw. */
  lemma NullThrows(params: seq<Value>, i: int)
    requires 0 <= i < |params| && params[i].Null?
    ensures ToJson(params).None?
  {
  }

  /** A long does not survive the trip: it comes back null. */
  lemma LongIsLost(l: Int64)
    ensures FromJson(ToJson([Long(l)]).value) == Some([DNull])
  {
    FromJsonToJson([Long(l)]);
    assert ReceivedList([Long(l)]) == [DNull];
  }
}
