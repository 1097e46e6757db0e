/** Values shared by every route handler: request values as JavaScript sees
    them, how the database reads them into integer columns, and the error
    outcomes the handlers answer with. */
module Common {

  datatype Option<T> = None | Some(value: T)

  /** A scalar as it arrives in a JSON body or a query string. */
  datatype JsValue = Undefined | Null | Num(n: int) | Str(s: string)

  /** JavaScript truthiness of an optional string field: present and not "". */
  predicate Truthy(s: Option<string>)
  {
    s.Some? && s.value != ""
  }

  /** JavaScript truthiness of a scalar: undefined, null, 0 and "" are falsy. */
  predicate JsTruthy(v: JsValue)
  {
    match v
    case Undefined => false
    case Null => false
    case Num(n) => n != 0
    case Str(s) => s != ""
  }

  predicate IsDigit(c: char)
  {
    '0' <= c <= '9'
  }

  predicate AllDigits(d: string)
  {
    forall i :: 0 <= i < |d| ==> IsDigit(d[i])
  }

  /** The white space parseInt skips before the number (ASCII part). */
  predicate IsJsSpace(c: char)
  {
    c == ' ' || c == '\t' || c == '\n' || c == '\r' || c == '\U{000B}' || c == '\U{000C}'
  }

  /** The value of a run of decimal digits. */
  function DigitsValue(d: string): (n: nat)
    requires AllDigits(d)
  {
    if d == [] then 0 else DigitsValue(d[..|d| - 1]) * 10 + (d[|d| - 1] as int - '0' as int)
  }

  /** The longest prefix of s made of decimal digits. */
  function LeadingDigits(s: string): (d: string)
    ensures d <= s && AllDigits(d)
    ensures |d| < |s| ==> !IsDigit(s[|d|])
  {
    if s != [] && IsDigit(s[0]) then [s[0]] + LeadingDigits(s[1..]) else []
  }

  /** s without its leading white space. */
  function TrimStart(s: string): (t: string)
    ensures |t| <= |s| && t == s[|s| - |t|..]
    ensures t != [] ==> !IsJsSpace(t[0])
  {
    if s != [] && IsJsSpace(s[0]) then TrimStart(s[1..]) else s
  }

  /** parseInt on a string, radix 10: skip leading white space, read an
      optional sign and the longest run of digits; None stands for NaN. */
  function ParseIntText(s: string): Option<int>
  {
    var t := TrimStart(s);
    var signed := t != [] && (t[0] == '-' || t[0] == '+');
    var d := LeadingDigits(if signed then t[1..] else t);
    if d == [] then None
    else if signed && t[0] == '-' then Some(-(DigitsValue(d) as int))
    else Some(DigitsValue(d))
  }

  /** JavaScript's parseInt(v); None stands for NaN. */
  function ParseInt(v: JsValue): Option<int>
  {
    match v
    case Num(n) => Some(n)
    case Str(s) => ParseIntText(s)
    case Undefined => None
    case Null => None
  }

  /** parseInt(a) !== parseInt(b) is false: both parse, to the same integer
      (NaN is unequal to everything, itself included). */
  predicate SameParsedInt(a: JsValue, b: JsValue)
  {
    ParseInt(a).Some? && ParseInt(b).Some? && ParseInt(a).value == ParseInt(b).value
  }

  /** The JavaScript value Sequelize hands out for a nullable INTEGER column. */
  function FromColumn(c: Option<int>): (v: JsValue)
    ensures v.Num? || v == Null
    ensures ParseInt(v) == c
  {
    if c.Some? then Num(c.value) else Null
  }

  /** `column === value` for a nullable INTEGER column and a request value:
      no type conversion, so a string never equals a number. */
  predicate StrictEquals(c: Option<int>, v: JsValue)
  {
    FromColumn(c) == v
  }

  /** How the database reads a request value bound to an INTEGER column or key. */
  datatype Conversion = NoValue | IntValue(n: int) | Unconvertible

  /** An optional sign followed by at least one digit and nothing else. */
  predicate IsIntLiteral(s: string)
  {
    if s != [] && (s[0] == '-' || s[0] == '+') then s[1..] != [] && AllDigits(s[1..])
    else s != [] && AllDigits(s)
  }

  lemma {:induction false} LeadingDigitsOfDigits(d: string)
    requires AllDigits(d)
    ensures LeadingDigits(d) == d
  {
    if d != [] {
      assert AllDigits(d[1..]);
      LeadingDigitsOfDigits(d[1..]);
    }
  }

  /** The integer an integer literal denotes. */
  function LiteralValue(s: string): int
    requires IsIntLiteral(s)
  {
    if s[0] == '-' then -(DigitsValue(s[1..]) as int)
    else if s[0] == '+' then DigitsValue(s[1..])
    else DigitsValue(s)
  }

  /** parseInt reads an integer literal as the integer it denotes. */
  lemma ParseIntOfLiteral(s: string)
    requires IsIntLiteral(s)
    ensures ParseIntText(s) == Some(LiteralValue(s))
  {
    assert TrimStart(s) == s;
    if s[0] == '-' || s[0] == '+' {
      LeadingDigitsOfDigits(s[1..]);
    } else {
      LeadingDigitsOfDigits(s);
    }
  }

  /** The strings the database reads into an INTEGER as 0 though they hold
      no digit: the empty string, blanks only, and a bare sign. */
  predicate ReadsAsZero(s: string)
  {
    s == "-" || s == "+" || forall i :: 0 <= i < |s| ==> s[i] == ' '
  }

  /** parseInt finds no number in such a string. */
  lemma {:induction false} ParseIntOfZeroText(s: string)
    requires ReadsAsZero(s)
    ensures ParseIntText(s) == None
  {
    if s != "-" && s != "+" {
      BlanksTrimAway(s);
    }
  }

  lemma {:induction false} BlanksTrimAway(s: string)
    requires forall i :: 0 <= i < |s| ==> s[i] == ' '
    ensures TrimStart(s) == []
  {
    if s != [] {
      BlanksTrimAway(s[1..]);
    }
  }

  /** The database's reading of a value: null and undefined are no value, a
      number is itself, a string is an integer when it is a plain integer
      literal and 0 when it is empty, blank or a bare sign; any other string
      makes the statement fail. Whenever the database reads an integer from
      a value parseInt can read, parseInt reads the same; the strings read
      as 0 are those parseInt finds no number in. */
  function ToInteger(v: JsValue): (c: Conversion)
    ensures c == NoValue <==> v == Undefined || v == Null
    ensures c.IntValue? ==>
      || ParseInt(v) == Some(c.n)
      || (v.Str? && ReadsAsZero(v.s) && c.n == 0 && ParseInt(v).None?)
    ensures v.Str? && ReadsAsZero(v.s) ==> c == IntValue(0)
  {
    match v
    case Undefined => NoValue
    case Null => NoValue
    case Num(n) => IntValue(n)
    case Str(s) =>
      if ReadsAsZero(s) then
        ParseIntOfZeroText(s);
        IntValue(0)
      else if !IsIntLiteral(s) then Unconvertible
      else
        ParseIntOfLiteral(s);
        IntValue(LiteralValue(s))
  }

  /** What a table is named by in a not-found answer. */
  datatype Entity = UserRow | TaskRow | ItemRow | CompanyRow | ReportRow | CallRow

  /** The outcomes other than success that the handlers answer with. */
  datatype Error =
    | NotFound(entity: Entity, shown: Option<JsValue>)  // 404; the bulk sale names the requested id
    | Forbidden                                         // 403
    | InvalidTransition(fromLabel: string, toLabel: string)  // 400, names both labels
    | OutOfStock                                        // 400, the single sale's bare stock refusal
    | InsufficientStock(itemName: string, available: int, requested: int)  // 400, the bulk sale's
    | MissingFields(fields: seq<string>)               // 400, localised field names
    | MissingUserInfo                                   // 400, listing without user id or role
    | Rejected    // the database or the model's validation refused the row; the catch block answers 400
    | Crashed     // a runtime exception inside the handler; its catch block answers 400 or 500

  datatype Result<T> = Ok(value: T) | Err(error: Error)
}
