/**
  JSON values and the pair JSON.stringify / JSON.parse that the cache uses to
  put values into the key-value store and to read them back.

  The stored text is modelled one level above characters: a sequence of JSON
  tokens. Stringify writes the tokens of a value; Parse reads them back with a
  recursive-descent parser and fails on anything that is not exactly one value.
*/
module Json {

  datatype Option<T> = None | Some(value: T)

  /** A value as JSON.parse builds it. Numbers are integers in this model. */
  datatype JsonValue =
    | JNull
    | JBool(b: bool)
    | JNum(n: int)
    | JStr(s: string)
    | JArr(items: seq<JsonValue>)
    | JObj(fields: seq<Field>)

  /** One `"name": value` member of an object, in source order. */
  datatype Field = Field(name: string, value: JsonValue)

  datatype Token =
    | TNull | TTrue | TFalse | TNum(n: int) | TStr(s: string)
    | TBeginArray | TEndArray | TBeginObject | TEndObject | TComma | TColon

  /** The serialised form of a value: what the store holds. */
  type Text = seq<Token>

  /** True of the tokens a value can start with. */
  predicate StartsValue(t: Token) {
    !(t.TEndArray? || t.TEndObject? || t.TComma? || t.TColon?)
  }

  function Stringify(v: JsonValue): (ts: Text)
    ensures ts != [] && StartsValue(ts[0])
    decreases v, 1
  {
    match v
    case JNull => [TNull]
    case JBool(b) => if b then [TTrue] else [TFalse]
    case JNum(n) => [TNum(n)]
    case JStr(s) => [TStr(s)]
    case JArr(items) =>
      [TBeginArray] + (if items == [] then [TEndArray] else StringifyItems(items))
    case JObj(fields) =>
      [TBeginObject] + (if fields == [] then [TEndObject] else StringifyFields(fields))
  }

  /** The elements of a non-empty array, comma-separated, then the closing bracket. */
  function StringifyItems(items: seq<JsonValue>): Text
    requires items != []
    decreases items, 0
  {
    Stringify(items[0])
      + (if |items| == 1 then [TEndArray] else [TComma] + StringifyItems(items[1..]))
  }

  /** The members of a non-empty object, comma-separated, then the closing brace. */
  function StringifyFields(fields: seq<Field>): Text
    requires fields != []
    decreases fields, 0
  {
    [TStr(fields[0].name), TColon] + Stringify(fields[0].value)
      + (if |fields| == 1 then [TEndObject] else [TComma] + StringifyFields(fields[1..]))
  }

  /** Reads one value from the front of `ts`; returns it with the tokens after it. */
  function ParseValue(ts: Text): (r: Option<(JsonValue, Text)>)
    ensures r.Some? ==> |r.value.1| < |ts|
    decreases |ts|, 0
  {
    if ts == [] then None
    else match ts[0]
      case TNull => Some((JNull, ts[1..]))
      case TTrue => Some((JBool(true), ts[1..]))
      case TFalse => Some((JBool(false), ts[1..]))
      case TNum(n) => Some((JNum(n), ts[1..]))
      case TStr(s) => Some((JStr(s), ts[1..]))
      case TBeginArray =>
        if |ts| > 1 && ts[1] == TEndArray then Some((JArr([]), ts[2..]))
        else (match ParseItems(ts[1..])
              case None => None
              case Some((items, rest)) => Some((JArr(items), rest)))
      case TBeginObject =>
        if |ts| > 1 && ts[1] == TEndObject then Some((JObj([]), ts[2..]))
        else (match ParseFields(ts[1..])
              case None => None
              case Some((fields, rest)) => Some((JObj(fields), rest)))
      case _ => None
  }

  /** Reads `value (, value)* ]` from the front of `ts`. */
  function ParseItems(ts: Text): (r: Option<(seq<JsonValue>, Text)>)
    ensures r.Some? ==> |r.value.1| < |ts|
    decreases |ts|, 1
  {
    match ParseValue(ts)
    case None => None
    case Some((v, rest)) =>
      if rest == [] then None
      else if rest[0] == TEndArray then Some(([v], rest[1..]))
      else if rest[0] == TComma then
        (match ParseItems(rest[1..])
         case None => None
         case Some((vs, rest')) => Some(([v] + vs, rest')))
      else None
  }

  /** Reads `"name": value (, "name": value)* }` from the front of `ts`. */
  function ParseFields(ts: Text): (r: Option<(seq<Field>, Text)>)
    ensures r.Some? ==> |r.value.1| < |ts|
    decreases |ts|, 1
  {
    if |ts| < 2 || !ts[0].TStr? || ts[1] != TColon then None
    else match ParseValue(ts[2..])
      case None => None
      case Some((v, rest)) =>
        var f := Field(ts[0].s, v);
        if rest == [] then None
        else if rest[0] == TEndObject then Some(([f], rest[1..]))
        else if rest[0] == TComma then
          (match ParseFields(rest[1..])
           case None => None
           case Some((fs, rest')) => Some(([f] + fs, rest')))
        else None
  }

  /** JSON.parse: exactly one value and nothing after it, or a syntax error (None). */
  function Parse(ts: Text): Option<JsonValue> {
    match ParseValue(ts)
    case None => None
    case Some((v, rest)) => if rest == [] then Some(v) else None
  }

  /** JSON.parse undoes JSON.stringify, for every value. */
  lemma ParseStringify(v: JsonValue)
    ensures Parse(Stringify(v)) == Some(v)
  {
    ParseStringifyValue(v, []);
    assert Stringify(v) + [] == Stringify(v);
  }

  /** The parser reads back exactly the tokens Stringify wrote, whatever follows them. */
  lemma {:induction false} ParseStringifyValue(v: JsonValue, rest: Text)
    ensures ParseValue(Stringify(v) + rest) == Some((v, rest))
    decreases v, 1
  {
    var ts := Stringify(v) + rest;
    match v
    case JArr(items) =>
      if items == [] {
        assert ts == [TBeginArray, TEndArray] + rest;
        assert ts[2..] == rest;
      } else {
        var body := StringifyItems(items);
        Associative([TBeginArray], body, rest);
        assert ts[1..] == body + rest;
        assert ts[1] == Stringify(items[0])[0];
        ParseStringifyItems(items, rest);
      }
    case JObj(fields) =>
      if fields == [] {
        assert ts == [TBeginObject, TEndObject] + rest;
        assert ts[2..] == rest;
      } else {
        var body := StringifyFields(fields);
        Associative([TBeginObject], body, rest);
        assert ts[1..] == body + rest;
        ParseStringifyFields(fields, rest);
      }
    case _ =>
      assert ts[1..] == rest;
  }

  lemma {:induction false} ParseStringifyItems(items: seq<JsonValue>, rest: Text)
    requires items != []
    ensures ParseItems(StringifyItems(items) + rest) == Some((items, rest))
    decreases items, 0
  {
    var tail := if |items| == 1 then [TEndArray] else [TComma] + StringifyItems(items[1..]);
    Associative(Stringify(items[0]), tail, rest);
    ParseStringifyValue(items[0], tail + rest);
    if |items| == 1 {
      assert (tail + rest)[1..] == rest;
      assert [items[0]] == items;
    } else {
      Associative([TComma], StringifyItems(items[1..]), rest);
      assert (tail + rest)[1..] == StringifyItems(items[1..]) + rest;
      ParseStringifyItems(items[1..], rest);
      assert [items[0]] + items[1..] == items;
    }
  }

  lemma {:induction false} ParseStringifyFields(fields: seq<Field>, rest: Text)
    requires fields != []
    ensures ParseFields(StringifyFields(fields) + rest) == Some((fields, rest))
    decreases fields, 0
  {
    var f := fields[0];
    var tail := if |fields| == 1 then [TEndObject] else [TComma] + StringifyFields(fields[1..]);
    var after := tail + rest;
    var body := Stringify(f.value) + after;
    FieldsText(fields, rest);
    var ts := [TStr(f.name), TColon] + body;
    assert ts[2..] == body;
    ParseStringifyValue(f.value, after);
    var others := if |fields| == 1 then [] else fields[1..];
    if |fields| > 1 {
      Associative([TComma], StringifyFields(fields[1..]), rest);
      assert after[1..] == StringifyFields(fields[1..]) + rest;
      ParseStringifyFields(fields[1..], rest);
    }
    ParseFieldsCons(ts, f, after, others, rest);
    assert [f] + others == fields;
  }

  /** The text of the members, followed by `rest`, split after the first member's colon. */
  lemma FieldsText(fields: seq<Field>, rest: Text)
    requires fields != []
    ensures var tail := if |fields| == 1 then [TEndObject] else [TComma] + StringifyFields(fields[1..]);
      StringifyFields(fields) + rest == [TStr(fields[0].name), TColon] + (Stringify(fields[0].value) + (tail + rest))
  {
    var head := [TStr(fields[0].name), TColon];
    var tail := if |fields| == 1 then [TEndObject] else [TComma] + StringifyFields(fields[1..]);
    var value := Stringify(fields[0].value);
    Associative(head + value, tail, rest);
    Associative(head, value, tail + rest);
  }

  /** Concatenation is associative. */
  lemma Associative<T>(a: seq<T>, b: seq<T>, c: seq<T>)
    ensures a + b + c == a + (b + c)
  {
  }

  /** One member read from the front, then either the closing brace or a comma and the other members. */
  lemma ParseFieldsCons(ts: Text, f: Field, after: Text, others: seq<Field>, rest: Text)
    requires |ts| >= 2 && ts[0] == TStr(f.name) && ts[1] == TColon
    requires ParseValue(ts[2..]) == Some((f.value, after))
    requires after != []
    requires || (after[0] == TEndObject && others == [] && after[1..] == rest)
             || (after[0] == TComma && ParseFields(after[1..]) == Some((others, rest)))
    ensures ParseFields(ts) == Some(([f] + others, rest))
  {
    if after[0] == TEndObject {
      assert [f] + others == [f];
    }
  }

  /** Stringify is injective: distinct values are stored as distinct texts. */
  lemma StringifyInjective(v: JsonValue, w: JsonValue)
    requires Stringify(v) == Stringify(w)
    ensures v == w
  {
    ParseStringify(v);
    ParseStringify(w);
  }
}
