/** The atomic field validators of api.py: each decides whether a truthy input
    value has the shape its field expects. Only the date validators can raise:
    strptime refuses a non-str argument with TypeError. */
module Fields {
  import opened Outcomes
  import opened Text
  import opened Json

  /** A birthday is accepted only while currentYear - year is below this. */
  const DeltaYear := 70
  const UnknownGender := 0
  const MaleGender := 1
  const FemaleGender := 2

  /** The validator classes of api.py. */
  datatype Kind =
    | CharField | ArgumentsField | EmailField | PhoneField
    | DateField | BirthDayField | GenderField | ClientIdsField

  predicate CharValid(v: Value) { v.Str? }

  predicate ArgumentsValid(v: Value) { v.Obj? }

  predicate EmailValid(v: Value) { v.Str? && '@' in v.s }

  /** str(v) for a str, an int or a bool. */
  function PyStr(v: Value): string
    requires v.Str? || IsInt(v)
  {
    match v
    case Str(s) => s
    case Int(i) => IntString(i)
    case Bool(b) => if b then "True" else "False"
  }

  predicate PhoneValid(v: Value)
  {
    (v.Str? || IsInt(v)) && var t := PyStr(v); |t| == 11 && t[0] == '7'
  }

  /** `value in [UNKNOWN, MALE, FEMALE]`, with Python's int equality (True == 1, False == 0). */
  predicate GenderValid(v: Value)
  {
    IsInt(v) && IntOf(v) in {UnknownGender, MaleGender, FemaleGender}
  }

  predicate ClientIdsValid(v: Value)
  {
    Truthy(v) && v.List? && forall k :: 0 <= k < |v.items| ==> IsInt(v.items[k])
  }

  // ---- dates: datetime.strptime(value, '%d.%m.%Y') ----

  datatype Date = Date(day: int, month: int, year: int)

  predicate IsLeap(year: int)
  {
    year % 4 == 0 && (year % 100 != 0 || year % 400 == 0)
  }

  function DaysInMonth(month: int, year: int): int
  {
    if month == 2 then (if IsLeap(year) then 29 else 28)
    else if month in {4, 6, 9, 11} then 30
    else 31
  }

  /** A calendar date that datetime can represent with a four-digit year. */
  predicate ValidDate(d: Date)
  {
    1 <= d.year <= 9999 && 1 <= d.month <= 12 && 1 <= d.day <= DaysInMonth(d.month, d.year)
  }

  predicate AllDigits(p: string)
  {
    forall k :: 0 <= k < |p| ==> IsDigit(p[k])
  }

  function TwoDigits(p: string): int
    requires |p| == 2 && AllDigits(p)
  {
    10 * DigitValue(p[0]) + DigitValue(p[1])
  }

  /** The %d directive: 01..31, 1..9, or a space followed by 1..9. */
  function ParseDay(p: string): (r: Option<int>)
    ensures r.Some? ==> 1 <= r.value <= 31
  {
    if |p| == 1 && '1' <= p[0] <= '9' then Some(DigitValue(p[0]))
    else if |p| == 2 && p[0] == ' ' && '1' <= p[1] <= '9' then Some(DigitValue(p[1]))
    else if |p| == 2 && AllDigits(p) && 1 <= TwoDigits(p) <= 31 then Some(TwoDigits(p))
    else None
  }

  /** The %m directive: 01..12 or 1..9. */
  function ParseMonth(p: string): (r: Option<int>)
    ensures r.Some? ==> 1 <= r.value <= 12
  {
    if |p| == 1 && '1' <= p[0] <= '9' then Some(DigitValue(p[0]))
    else if |p| == 2 && AllDigits(p) && 1 <= TwoDigits(p) <= 12 then Some(TwoDigits(p))
    else None
  }

  /** The %Y directive: exactly four digits. */
  function ParseYear(p: string): (r: Option<int>)
    ensures r.Some? ==> 0 <= r.value <= 9999
  {
    if |p| == 4 && AllDigits(p)
    then Some(1000 * DigitValue(p[0]) + 100 * DigitValue(p[1]) + 10 * DigitValue(p[2]) + DigitValue(p[3]))
    else None
  }

  /** strptime(s, '%d.%m.%Y'): the whole string must be day, '.', month, '.', year
      (none of the three directives matches a '.'), and the result must be a real
      calendar date with a year of at least 1. */
  function ParseDate(s: string): (r: Option<Date>)
    ensures r.Some? ==> ValidDate(r.value)
  {
    var parts := SplitOn(s, '.');
    if |parts| != 3 then None
    else
      match (ParseDay(parts[0]), ParseMonth(parts[1]), ParseYear(parts[2]))
      case (Some(d), Some(m), Some(y)) =>
        if 1 <= y && d <= DaysInMonth(m, y) then Some(Date(d, m, y)) else None
      case _ => None
  }

  /** BaseField._validate_date: a str that parses as a date, and for a birthday
      one whose year is less than DeltaYear years before currentYear. */
  function ValidateDate(v: Value, birthday: bool, currentYear: int): (r: Outcome<bool>)
    ensures r.Raised? <==> !v.Str?
    ensures r.Raised? ==> r.exc == TypeError
    ensures r == Returned(true) <==>
              v.Str? && ParseDate(v.s).Some? && (birthday ==> currentYear - ParseDate(v.s).value.year < DeltaYear)
  {
    if !v.Str? then Raised(TypeError)
    else
      match ParseDate(v.s)
      case None => Returned(false)
      case Some(d) => Returned(!birthday || currentYear - d.year < DeltaYear)
  }

  /** field.is_valid(value) for a field of the given class. */
  function IsValid(kind: Kind, v: Value, currentYear: int): (r: Outcome<bool>)
    ensures r.Raised? <==> (kind == DateField || kind == BirthDayField) && !v.Str?
    ensures r.Raised? ==> r.exc == TypeError
  {
    match kind
    case CharField => Returned(CharValid(v))
    case ArgumentsField => Returned(ArgumentsValid(v))
    case EmailField => Returned(EmailValid(v))
    case PhoneField => Returned(PhoneValid(v))
    case DateField => ValidateDate(v, false, currentYear)
    case BirthDayField => ValidateDate(v, true, currentYear)
    case GenderField => Returned(GenderValid(v))
    case ClientIdsField => Returned(ClientIdsValid(v))
  }

  // ---- properties ----

  /** An int phone number is valid exactly when it has eleven digits and starts with 7. */
  lemma PhoneIntRange(i: int)
    ensures PhoneValid(Int(i)) <==> 70000000000 <= i < 80000000000
  {
    if i >= 0 {
      var s := Decimal(i);
      assert PyStr(Int(i)) == s;
      assert Pow10(10) == 10000000000;
      assert Pow10(11) == 100000000000;
      DecimalLength(i, 10);
      if |s| == 11 {
        LeadingDigit(i, 10, 7);
        assert DigitChar(7) == '7';
      }
    } else {
      assert PyStr(Int(i))[0] == '-';
    }
  }

  /** A str phone number is valid exactly when it has eleven characters and starts with '7';
      a bool never is (str(True) is "True"). */
  lemma PhoneStrAndBool(s: string, b: bool)
    ensures PhoneValid(Str(s)) <==> |s| == 11 && s[0] == '7'
    ensures !PhoneValid(Bool(b))
  {
  }

  /** The test table of PhoneField. */
  lemma PhoneExamples()
    ensures !PhoneValid(Str("12345670000"))
    ensures PhoneValid(Str("76543210000"))
    ensures PhoneValid(Int(76543210000))
    ensures !PhoneValid(Str("765432100001"))
    ensures !PhoneValid(Int(765432100001))
    ensures !PhoneValid(Int(12345670000))
  {
    PhoneIntRange(76543210000);
    PhoneIntRange(765432100001);
    PhoneIntRange(12345670000);
  }

  /** The test table of ClientIDsField. */
  lemma ClientIdsExamples()
    ensures !ClientIdsValid(Str("1, 2, 3"))
    ensures !ClientIdsValid(Int(1))
    ensures !ClientIdsValid(List([]))
    ensures !ClientIdsValid(List([Str("1"), Str("2")]))
    ensures ClientIdsValid(List([Int(1), Int(2)]))
    ensures ClientIdsValid(List([Int(0)]))
  {
    assert List([Str("1"), Str("2")]).items[0] == Str("1");
  }

  /** DD.MM.YYYY with zero padding. */
  function FormatDate(d: Date): (s: string)
    requires ValidDate(d)
  {
    Pad2(d.day) + "." + Pad2(d.month) + "." + Pad4(d.year)
  }

  function Pad2(n: nat): (p: string)
    requires n < 100
    ensures |p| == 2 && AllDigits(p) && TwoDigits(p) == n
  {
    [DigitChar(n / 10), DigitChar(n % 10)]
  }

  function Pad4(n: nat): (p: string)
    requires n < 10000
    ensures |p| == 4 && AllDigits(p)
    ensures 1000 * DigitValue(p[0]) + 100 * DigitValue(p[1]) + 10 * DigitValue(p[2]) + DigitValue(p[3]) == n
  {
    var q1 := n / 10;
    var q2 := q1 / 10;
    var q3 := q2 / 10;
    assert n == 10 * q1 + n % 10 && q1 == 10 * q2 + q1 % 10 && q2 == 10 * q3 + q2 % 10;
    [DigitChar(q3), DigitChar(q2 % 10), DigitChar(q1 % 10), DigitChar(n % 10)]
  }

  /** Every representable date written as DD.MM.YYYY parses back to itself. */
  lemma DateRoundTrip(d: Date)
    requires ValidDate(d)
    ensures ParseDate(FormatDate(d)) == Some(d)
  {
    var parts := [Pad2(d.day), Pad2(d.month), Pad4(d.year)];
    forall k | 0 <= k < 3 ensures '.' !in parts[k] {
      assert forall c :: c in parts[k] ==> IsDigit(c);
    }
    assert Join(parts, ".") == FormatDate(d) by {
      assert parts[1..][1..] == [Pad4(d.year)];
      assert Join(parts[1..][1..], ".") == Pad4(d.year);
      assert Join(parts[1..], ".") == Pad2(d.month) + "." + Pad4(d.year);
    }
    SplitJoin(parts, '.');
    assert ParseDay(parts[0]) == Some(d.day);
    assert ParseMonth(parts[1]) == Some(d.month);
  }

  /** Without a '.', nothing is a date: '/', '-' and ISO-8601 forms are refused. */
  lemma DateNeedsDots(s: string)
    requires '.' !in s
    ensures ParseDate(s) == None
  {
    SplitWithoutSeparator(s, '.');
  }

  /** The valid case of DateField's test table. */
  lemma DateAccepted()
    ensures ParseDate("20.04.1970") == Some(Date(20, 4, 1970))
  {
    DateRoundTrip(Date(20, 4, 1970));
    assert FormatDate(Date(20, 4, 1970)) == "20.04.1970";
  }

  /** A two-digit year is refused. */
  lemma ShortYearRejected()
    ensures ParseDate("20.04.88") == None
  {
    var short := ["20", "04", "88"];
    assert Join(short, ".") == "20.04.88" by {
      assert short[1..][1..] == ["88"];
      assert Join(short[1..], ".") == "04.88";
    }
    SplitJoin(short, '.');
  }

  /** The other refused cases of DateField's test table: '/', '-' and ISO-8601. */
  lemma OtherSeparatorsRejected()
    ensures ParseDate("20/04/1970") == None
    ensures ParseDate("20-04-1970") == None
    ensures ParseDate("2005-08-09T18:31:42") == None
  {
    var slashes, dashes, iso := "20/04/1970", "20-04-1970", "2005-08-09T18:31:42";
    assert '.' !in slashes && '.' !in dashes && '.' !in iso;
    DateNeedsDots(slashes);
    DateNeedsDots(dashes);
    DateNeedsDots(iso);
  }

  /** The birthday cases of the test table, with 2022 as the current year: 69 years
      back is accepted, 70 years back is not. */
  lemma BirthdayAccepted()
    ensures ValidateDate(Str("20.04.1953"), true, 2022) == Returned(true)
  {
    var d := Date(20, 4, 1953);
    DateRoundTrip(d);
    assert Pad2(20) == "20" && Pad2(4) == "04" && Pad4(1953) == "1953";
    assert FormatDate(d) == "20.04.1953";
  }

  lemma BirthdayTooOld()
    ensures ValidateDate(Str("20.04.1952"), true, 2022) == Returned(false)
  {
    var d := Date(20, 4, 1952);
    DateRoundTrip(d);
    assert Pad2(20) == "20" && Pad2(4) == "04" && Pad4(1952) == "1952";
    assert FormatDate(d) == "20.04.1952";
  }
}
