/**
  Parsed JSON as Python sees it.  Numbers that Python finds equal are one value here, so
  true is 1 and 1.0 is 1; an object keeps its keys in order.  The parser accepts lone
  surrogates: Text is what UTF-8 can encode, Garbled the rest.
 */
module JsonValues {
  import opened Common

  type CodePoint = n: nat | n < 0x11_0000

  predicate Surrogate(point: CodePoint) {
    0xD800 <= point < 0xE000
  }

  predicate HasSurrogate(points: seq<CodePoint>) {
    exists i :: 0 <= i < |points| && Surrogate(points[i])
  }

  function Alone(point: CodePoint): (points: seq<CodePoint>)
    requires Surrogate(point)
    ensures HasSurrogate(points) && points == [point]
  {
    var points := [point];
    assert Surrogate(points[0]);
    points
  }

  /** The code points of a text with a lone surrogate. */
  type Garble = points: seq<CodePoint> | HasSurrogate(points) witness Alone(0xD800)

  /** The name of an object's field: a text, told apart in the same way. */
  datatype FieldName = Plain(text: string) | Strange(points: Garble)

  datatype Json =
    | Null
    | Number(value: real)
    | Infinity(positive: bool)
    | NaN
    | Text(text: string)
    | Garbled(points: Garble)
    | List(items: seq<Json>)
    | Object(fields: seq<(FieldName, Json)>)

  /** May be a dictionary key or a set member; lists and dictionaries raise TypeError. */
  predicate Hashable(j: Json) {
    !j.List? && !j.Object?
  }

  /** j[key] on a dictionary; of a repeated key the last value counts. */
  function Lookup(fields: seq<(FieldName, Json)>, key: string): Option<Json> {
    if fields == [] then None
    else if Last(fields).0 == Plain(key) then Some(Last(fields).1)
    else Lookup(Front(fields), key)
  }

  /** A text of one character. */
  function Character(point: CodePoint): Json {
    if Surrogate(point) then Garbled(Alone(point)) else Text([point as char])
  }

  function NameText(key: FieldName): Json {
    if key.Plain? then Text(key.text) else Garbled(key.points)
  }

  /** What a for loop over the value visits; None is the TypeError of a value that is not iterable. */
  function Items(j: Json): Option<seq<Json>> {
    match j
    case List(items) => Some(items)
    case Text(text) => Some(seq(|text|, i requires 0 <= i < |text| => Text([text[i]])))
    case Garbled(points) => Some(seq(|points|, i requires 0 <= i < |points| => Character(points[i])))
    case Object(fields) => Some(seq(|fields|, i requires 0 <= i < |fields| => NameText(fields[i].0)))
    case _ => None
  }

  /** bool(j) */
  predicate Truthy(j: Json) {
    match j
    case Null => false
    case Number(value) => value != 0.0
    case Text(text) => text != ""
    case List(items) => items != []
    case Object(fields) => fields != []
    case _ => true
  }

  const TWO_64: nat := 0x1_0000_0000_0000_0000
  const TWO_256: nat := TWO_64 * TWO_64 * TWO_64 * TWO_64
  const TWO_1024: nat := TWO_256 * TWO_256 * TWO_256 * TWO_256

  /** Integers from here on round to no finite double: 2^1024 - 2^970. */
  const FLOAT_LIMIT: nat := TWO_1024 - TWO_1024 / 0x40_0000_0000_0000

  /** float(j) raises OverflowError; no JSON number but an integer is that large. */
  predicate TooLarge(j: Json) {
    j.Number? && (j.value >= FLOAT_LIMIT as real || j.value <= -(FLOAT_LIMIT as real))
  }

  /** Whatever is not too large lies strictly between the two limits. */
  lemma TooLargeOutside(value: real)
    ensures !TooLarge(Number(value)) <==> -(FLOAT_LIMIT as real) < value < FLOAT_LIMIT as real
  {
    assert FLOAT_LIMIT > 0;
  }
}
