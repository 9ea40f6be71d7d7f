/**
  The parts of JavaScript's runtime behaviour that the server-side code relies
  on: rejected promises and thrown errors, `undefined`, property reads
  (`x.length`, `x[i]`, `x.id`), truthiness (`a || []`), the loop test
  `i < x.length`, and the conversion of a value to text inside a template
  literal or when it is used as a property key.
*/
module Runtime {
  import opened Json

  /** Why an operation threw or its promise rejected. */
  datatype Error =
    | ProducerFailure(reason: string)  // the producer's promise rejected
    | SyntaxError                      // JSON.parse rejected the stored text
    | TypeError(message: string)       // a property read on null or undefined, or a call of a non-function

  datatype Result<T> = Ok(value: T) | Err(error: Error) {
    predicate IsFailure() { Err? }
    function PropagateFailure<U>(): Result<U> requires Err? { Err(error) }
    function Extract(): T requires Ok? { value }
  }

  /** A JavaScript value the code can meet: a JSON value, or `undefined`. */
  datatype JsValue = Undefined | Defined(json: JsonValue)

  /** The key of a property read: `x.name` or `x[index]`. */
  datatype PropKey = Name(name: string) | Index(index: nat)

  /** The value of member `name` of an object; the last one wins, as JSON.parse keeps it. */
  function FieldValue(fields: seq<Field>, name: string): JsValue {
    if fields == [] then Undefined
    else if fields[|fields| - 1].name == name then Defined(fields[|fields| - 1].value)
    else FieldValue(fields[..|fields| - 1], name)
  }

  /** A member is found exactly when the object has one of that name, and it is the last of them. */
  lemma {:induction false} FieldValueLastWins(fields: seq<Field>, name: string)
    ensures var r := FieldValue(fields, name);
      && (r.Defined? <==> exists j :: 0 <= j < |fields| && fields[j].name == name)
      && (r.Defined? ==>
            exists j :: && 0 <= j < |fields| && fields[j].name == name && r.json == fields[j].value
                        && forall j' :: j < j' < |fields| ==> fields[j'].name != name)
  {
    if fields != [] && fields[|fields| - 1].name != name {
      var init := fields[..|fields| - 1];
      FieldValueLastWins(init, name);
      if j :| 0 <= j < |fields| && fields[j].name == name {
        assert init[j].name == name;
      }
      if FieldValue(init, name).Defined? {
        var j :| && 0 <= j < |init| && init[j].name == name && FieldValue(init, name).json == init[j].value
                 && forall j' :: j < j' < |init| ==> init[j'].name != name;
        assert fields[j] == init[j];
        assert forall j' :: j < j' < |fields| ==> fields[j'].name != name by {
          forall j' | j < j' < |fields| ensures fields[j'].name != name {
            if j' < |init| {
              assert fields[j'] == init[j'];
            }
          }
        }
      }
    }
  }

  /** A property read. It throws exactly when the base is null or undefined. */
  function Member(base: JsValue, key: PropKey): (r: Result<JsValue>)
    ensures r.Err? <==> base == Undefined || base == Defined(JNull)
    ensures base.Defined? && base.json.JArr? && key.Index? && key.index < |base.json.items| ==>
      r == Ok(Defined(base.json.items[key.index]))
    ensures base.Defined? && base.json.JArr? && key == Name("length") ==>
      r == Ok(Defined(JNum(|base.json.items|)))
  {
    match base
    case Undefined => Err(TypeError("Cannot read properties of undefined"))
    case Defined(v) =>
      match v
      case JNull => Err(TypeError("Cannot read properties of null"))
      case JArr(items) =>
        (match key
         case Name(n) => Ok(if n == "length" then Defined(JNum(|items|)) else Undefined)
         case Index(i) => Ok(if i < |items| then Defined(items[i]) else Undefined))
      case JStr(s) =>
        (match key
         case Name(n) => Ok(if n == "length" then Defined(JNum(|s|)) else Undefined)
         case Index(i) => Ok(if i < |s| then Defined(JStr([s[i]])) else Undefined))
      case JObj(fields) =>
        (match key
         case Name(n) => Ok(FieldValue(fields, n))
         case Index(i) => Ok(FieldValue(fields, NatToString(i))))
      case _ => Ok(Undefined)
  }

  /** JavaScript truthiness, as `a || b` tests it. */
  predicate Truthy(v: JsValue) {
    match v
    case Undefined => false
    case Defined(j) =>
      match j
      case JNull => false
      case JBool(b) => b
      case JNum(n) => n != 0
      case JStr(s) => s != ""
      case _ => true
  }

  /**
    How many times the test `i < bound` holds for i = 0, 1, 2, ... before it
    first fails: the number of iterations of `for (i = 0; i < bound; i++)`.
  */
  function LoopCount(bound: JsValue): (n: nat)
    ensures bound.Defined? && bound.json.JNum? && bound.json.n >= 0 ==> n == bound.json.n
    ensures bound == Undefined ==> n == 0
  {
    match bound
    case Defined(JNum(k)) => if k > 0 then k else 0
    case Defined(JBool(b)) => if b then 1 else 0
    case _ => 0
  }

  /** The decimal digit for 0 <= d < 10. */
  function Digit(d: nat): (c: char)
    requires d < 10
    ensures '0' <= c <= '9' && c as int - '0' as int == d
  {
    ('0' as int + d) as char
  }

  predicate IsDigits(s: string) {
    s != [] && forall j :: 0 <= j < |s| ==> '0' <= s[j] <= '9'
  }

  /** Number.prototype.toString for a non-negative integer. */
  function NatToString(n: nat): (s: string)
    ensures s != []
    decreases n
  {
    if n < 10 then [Digit(n)] else NatToString(n / 10) + [Digit(n % 10)]
  }

  /** The decimal form of a natural is made of digits only. */
  lemma {:induction false} NatToStringDigits(n: nat)
    ensures IsDigits(NatToString(n))
    decreases n
  {
    if n >= 10 {
      NatToStringDigits(n / 10);
    }
  }

  /** Number.prototype.toString for an integer. */
  function IntToString(i: int): (s: string)
    ensures s != []
  {
    if i < 0 then "-" + NatToString(-i) else NatToString(i)
  }

  /** The decimal form of an integer starts with a minus sign exactly when it is negative. */
  lemma IntToStringSign(i: int)
    ensures (IntToString(i)[0] == '-') <==> i < 0
  {
    if i >= 0 {
      NatToStringDigits(i);
    }
  }

  /** String(v) for a JSON value; arrays join their elements with commas, null elements as "". */
  function ToText(v: JsonValue): string
    decreases v, 1
  {
    match v
    case JNull => "null"
    case JBool(b) => if b then "true" else "false"
    case JNum(n) => IntToString(n)
    case JStr(s) => s
    case JArr(items) => JoinItems(items)
    case JObj(_) => "[object Object]"
  }

  function JoinItems(items: seq<JsonValue>): string
    decreases items, 0
  {
    if items == [] then ""
    else
      var head := if items[0] == JNull then "" else ToText(items[0]);
      head + (if |items| == 1 then "" else "," + JoinItems(items[1..]))
  }

  /** `${v}` in a template literal, and the key `obj[v]` names. */
  function JsText(v: JsValue): string {
    match v
    case Undefined => "undefined"
    case Defined(j) => ToText(j)
  }

  /** Distinct naturals have distinct decimal forms. */
  lemma {:induction false} NatToStringInjective(a: nat, b: nat)
    requires NatToString(a) == NatToString(b)
    ensures a == b
    decreases a
  {
    var s := NatToString(a);
    if a < 10 && b < 10 {
      assert s[0] == Digit(a) && s[0] == Digit(b);
    } else if a >= 10 && b >= 10 {
      var pa, pb := NatToString(a / 10), NatToString(b / 10);
      assert s == pa + [Digit(a % 10)] == pb + [Digit(b % 10)];
      assert |pa| == |pb|;
      assert s[|pa|] == Digit(a % 10) == Digit(b % 10);
      assert pa == s[..|pa|] == pb;
      NatToStringInjective(a / 10, b / 10);
    }
  }

  /** Distinct integers have distinct decimal forms. */
  lemma IntToStringInjective(a: int, b: int)
    requires IntToString(a) == IntToString(b)
    ensures a == b
  {
    var s := IntToString(a);
    IntToStringSign(a);
    IntToStringSign(b);
    if a < 0 {
      assert b < 0;
      assert NatToString(-a) == s[1..] == NatToString(-b);
      NatToStringInjective(-a, -b);
    } else {
      assert b >= 0;
      NatToStringInjective(a, b);
    }
  }
}
