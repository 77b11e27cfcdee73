/** JSON-RPC request ids, and the number/string twin that a careless peer may answer with. */
module RequestIds {
  import opened Basics
  import opened Json

  const I64_MAX: int := 0x7FFF_FFFF_FFFF_FFFF
  const I64_MIN: int := -0x8000_0000_0000_0000
  const U64_MAX: int := 0xFFFF_FFFF_FFFF_FFFF

  datatype Id = Str(s: string) | Integer(i: i64) | Unsigned(u: u64)

  /** The id a JSON value stands for: a string, or a number that is an i64 or else a u64. */
  function ParseIdOwned(value: Json): Option<Id> {
    match value
    case Str(s) => Some(Id.Str(s))
    case Num(PosInt(n)) => if n <= I64_MAX then Some(Integer(n)) else Some(Unsigned(n))
    case Num(NegInt(n)) => Some(Integer(n))
    case _ => None
  }

  /** The JSON number of an integer. */
  function IntValue(n: int): Json
    requires I64_MIN <= n <= U64_MAX
  {
    Num(if n < 0 then NegInt(n) else PosInt(n))
  }

  /** An id as it is written. */
  function IdValue(id: Id): Json {
    match id
    case Str(s) => Json.Str(s)
    case Integer(i) => IntValue(i)
    case Unsigned(u) => IntValue(u)
  }

  // ---- Decimal numerals ----

  predicate IsDigit(c: char) {
    '0' <= c <= '9'
  }

  function DigitChar(d: nat): (c: char)
    requires d < 10
    ensures IsDigit(c)
  {
    '0' + d as char
  }

  function DigitValue(c: char): (d: nat)
    requires IsDigit(c)
    ensures d < 10
  {
    (c - '0') as int
  }

  function NatToString(n: nat): (s: string)
    ensures s != ""
    ensures IsDigit(s[0])
  {
    if n < 10 then [DigitChar(n)] else NatToString(n / 10) + [DigitChar(n % 10)]
  }

  function IntToString(n: int): string {
    if n < 0 then "-" + NatToString(-n) else NatToString(n)
  }

  /** The number that a non-empty string of digits stands for. */
  function ParseDigits(s: string): Option<nat> {
    if s == "" || !IsDigit(s[|s| - 1]) then None
    else
      var last := DigitValue(s[|s| - 1]);
      if |s| == 1 then Some(last)
      else
        match ParseDigits(s[..|s| - 1])
        case None => None
        case Some(n) => Some(10 * n + last)
  }

  /** str::parse::<i64>: one optional sign, digits, in range. */
  function ParseI64(s: string): Option<int> {
    if s == "" then None
    else
      var signed := s[0] == '+' || s[0] == '-';
      match ParseDigits(if signed then s[1..] else s)
      case None => None
      case Some(n) =>
        var magnitude: int := n;
        var v := if s[0] == '-' then -magnitude else magnitude;
        if I64_MIN <= v <= I64_MAX then Some(v) else None
  }

  /** str::parse::<u64>: one optional '+', digits, in range. */
  function ParseU64(s: string): Option<int> {
    if s == "" then None
    else
      match ParseDigits(if s[0] == '+' then s[1..] else s)
      case None => None
      case Some(n) => if n <= U64_MAX then Some(n) else None
  }

  lemma {:induction false} DigitsRoundTrip(n: nat)
    ensures ParseDigits(NatToString(n)) == Some(n)
  {
    if n >= 10 {
      DigitsRoundTrip(n / 10);
      var s := NatToString(n / 10);
      assert (s + [DigitChar(n % 10)])[..|s|] == s;
    }
  }

  lemma IntRoundTrip(n: int)
    ensures ParseI64(IntToString(n)) == if I64_MIN <= n <= I64_MAX then Some(n) else None
    ensures n >= 0 ==> ParseU64(IntToString(n)) == if n <= U64_MAX then Some(n) else None
  {
    DigitsRoundTrip(if n < 0 then -n else n);
    if n < 0 {
      assert IntToString(n)[1..] == NatToString(-n);
    }
  }

  // ---- The twin ----

  function ParseStringifiedNumericId(s: string): Option<Id> {
    var i := ParseI64(s);
    if i.Some? && IntToString(i.value) == s then Some(Integer(i.value))
    else
      var u := ParseU64(s);
      if u.Some? && IntToString(u.value) == s then Some(Unsigned(u.value)) else None
  }

  /** The id that differs from this one only in being a string or a number. */
  function TypeMismatchCandidateId(id: Id): Option<Id> {
    match id
    case Integer(i) => Some(Id.Str(IntToString(i)))
    case Unsigned(u) => Some(Id.Str(IntToString(u)))
    case Str(s) => ParseStringifiedNumericId(s)
  }

  /** The ids that can come off the wire: a number that fits an i64 is never unsigned. */
  predicate FromWire(id: Id) {
    id.Unsigned? ==> id.u > I64_MAX
  }

  /** Reading inverts writing: a value is read as an id exactly when it is what that id is written as, and the id
      can come off the wire. */
  lemma IdIsWritten(value: Json, id: Id)
    ensures ParseIdOwned(value) == Some(id) <==> FromWire(id) && value == IdValue(id)
  {
  }

  lemma WireIds(value: Json)
    ensures ParseIdOwned(value).Some? ==> FromWire(ParseIdOwned(value).value)
  {
  }

  /** The id that a number is. */
  function NumberId(n: int): Id
    requires I64_MIN <= n <= U64_MAX
  {
    if n <= I64_MAX then Integer(n) else Unsigned(n)
  }

  lemma NumericIdParses(n: int)
    requires I64_MIN <= n <= U64_MAX
    ensures ParseStringifiedNumericId(IntToString(n)) == Some(NumberId(n))
  {
    IntRoundTrip(n);
  }

  /** A number and its decimal spelling are twins, and no other strings have one. */
  lemma TwinIsOtherSpelling(n: int, s: string)
    requires I64_MIN <= n <= U64_MAX
    ensures TypeMismatchCandidateId(NumberId(n)) == Some(Id.Str(IntToString(n)))
    ensures TypeMismatchCandidateId(Id.Str(s)) == Some(NumberId(n)) <==> s == IntToString(n)
    ensures var twin := TypeMismatchCandidateId(Id.Str(s));
      twin.Some? ==> exists m :: I64_MIN <= m <= U64_MAX && s == IntToString(m) && twin.value == NumberId(m)
  {
    NumericIdParses(n);
    var twin := TypeMismatchCandidateId(Id.Str(s));
    if twin.Some? {
      var m := if twin.value.Integer? then twin.value.i else twin.value.u;
      assert s == IntToString(m);
      NumericIdParses(m);
    }
  }

  /** The twin of the twin is the id itself, exactly for the ids that can come off the wire. */
  lemma TwinIsInvolution(id: Id)
    requires TypeMismatchCandidateId(id).Some?
    ensures FromWire(TypeMismatchCandidateId(id).value)
    ensures TypeMismatchCandidateId(id).value != id
    ensures TypeMismatchCandidateId(TypeMismatchCandidateId(id).value) == Some(id) <==> FromWire(id)
  {
    match id
    case Integer(i) => NumericIdParses(i);
    case Unsigned(u) => NumericIdParses(u);
    case Str(s) =>
      if ParseI64(s).Some? { IntRoundTrip(ParseI64(s).value); }
      if ParseU64(s).Some? { IntRoundTrip(ParseU64(s).value); }
  }
}
