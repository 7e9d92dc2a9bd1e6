/** Durations as people write them in the configuration: "15 min", "7days", "300 sec".
    A Go duration is a 64-bit count of nanoseconds. */
module HumanDuration {
  import opened Basics
  import opened Text

  const MAX_INT64 := 0x7FFF_FFFF_FFFF_FFFF
  const TWO_64 := 0x1_0000_0000_0000_0000

  const NANOSECOND := 1
  const MICROSECOND := 1000

  /** Two's complement. */
  function Wrap64(x: int): int {
    var r := x % TWO_64;
    if r > MAX_INT64 then r - TWO_64 else r
  }

  // ---------- library functions ----------

  /** unicode.IsSpace. */
  predicate IsSpace(c: char) {
    || c == ' ' || '\t' <= c <= '\r'
    || c == '\U{0085}' || c == '\U{00A0}' || c == '\U{1680}' || '\U{2000}' <= c <= '\U{200A}'
    || c == '\U{2028}' || c == '\U{2029}' || c == '\U{202F}' || c == '\U{205F}' || c == '\U{3000}'
  }

  predicate IsLetter(c: char) {
    'a' <= c <= 'z'
  }

  predicate Spaceless(s: string) {
    forall i :: 0 <= i < |s| ==> !IsSpace(s[i])
  }

  function TrimLeft(s: string): string {
    if s != "" && IsSpace(s[0]) then TrimLeft(s[1..]) else s
  }

  function TrimRight(s: string): string {
    if s != "" && IsSpace(s[|s| - 1]) then TrimRight(s[..|s| - 1]) else s
  }

  function TrimSpace(s: string): string {
    TrimRight(TrimLeft(s))
  }

  /** Up to the first space. */
  function Word(s: string): (w: string)
    ensures |w| <= |s| && w == s[..|w|] && Spaceless(w)
  {
    if s == "" || IsSpace(s[0]) then "" else [s[0]] + Word(s[1..])
  }

  lemma TrimLeftShorter(s: string)
    ensures |TrimLeft(s)| <= |s|
    ensures TrimLeft(s) != "" ==> Word(TrimLeft(s)) != ""
  {
  }

  /** strings.Fields. */
  function Fields(s: string): seq<string>
    decreases |s|
  {
    TrimLeftShorter(s);
    var t := TrimLeft(s);
    if t == "" then [] else [Word(t)] + Fields(t[|Word(t)|..])
  }

  function JoinWithSpaces(parts: seq<string>): string {
    if parts == [] then ""
    else if |parts| == 1 then parts[0]
    else parts[0] + " " + JoinWithSpaces(parts[1..])
  }

  predicate AllDigits(s: string) {
    forall i :: 0 <= i < |s| ==> IsDigit(s[i])
  }

  /** strconv.ParseInt(s, 10, 64): an optional sign and at least one digit, in range. */
  function ParseInt(s: string): Option<int> {
    var negative := s != "" && s[0] == '-';
    var digits := if s != "" && (s[0] == '-' || s[0] == '+') then s[1..] else s;
    if digits == "" || !AllDigits(digits) then None
    else
      var magnitude: int := Undec(digits);
      var v := if negative then -magnitude else magnitude;
      if -MAX_INT64 - 1 <= v <= MAX_INT64 then Some(v) else None
  }

  // ---------- the parser ----------

  /** The cases of the switch, in their order. */
  datatype Unit = Nano | Micro | Milli | Sec | Min | Hour | Day | Week

  const MICRO_SIGN := "\U{00B5}s"

  predicate Selects(c: Unit, unit: string) {
    match c
    case Nano => Prefixed(unit, "nanosec")
    case Micro => Prefixed(unit, "microsec") || Prefixed(unit, MICRO_SIGN)
    case Milli => Prefixed(unit, "millisec") || Prefixed(unit, "ms")
    case Sec => Prefixed(unit, "sec")
    case Min => Prefixed(unit, "min")
    case Hour => Prefixed(unit, "hour") || Prefixed(unit, "h")
    case Day => Prefixed(unit, "day") || unit == "d"
    case Week => Prefixed(unit, "week")
  }

  function LengthOf(c: Unit): int {
    match c
    case Nano => NANOSECOND
    case Micro => MICROSECOND
    case Milli => MILLISECOND
    case Sec => SECOND
    case Min => MINUTE
    case Hour => HOUR
    case Day => DAY
    case Week => WEEK
  }

  function ParseDurationUnit(num: int, unit: string): Option<int> {
    var u := Lower(TrimSpace(unit));
    if Selects(Nano, u) then Some(Wrap64(num * NANOSECOND))
    else if Selects(Micro, u) then Some(Wrap64(num * MICROSECOND))
    else if Selects(Milli, u) then Some(Wrap64(num * MILLISECOND))
    else if Selects(Sec, u) then Some(Wrap64(num * SECOND))
    else if Selects(Min, u) then Some(Wrap64(num * MINUTE))
    else if Selects(Hour, u) then Some(Wrap64(num * HOUR))
    else if Selects(Day, u) then Some(Wrap64(Wrap64(num * 24) * HOUR))
    else if Selects(Week, u) then Some(Wrap64(Wrap64(Wrap64(num * 7) * 24) * HOUR))
    else None
  }

  /** The first position that holds a letter. */
  function FirstLetter(s: string): Option<nat> {
    if s == "" then None
    else if IsLetter(s[0]) then Some(0)
    else match FirstLetter(s[1..]) case None => None case Some(i) => Some(i + 1)
  }

  lemma {:induction false} FirstLetterInside(s: string)
    ensures FirstLetter(s).Some? ==> FirstLetter(s).value < |s|
    decreases |s|
  {
    if s != "" { FirstLetterInside(s[1..]); }
  }

  function ParseHumanReadableDuration(value: string): Option<int> {
    var v := Lower(TrimSpace(value));
    var parts := Fields(v);
    if |parts| < 2 then
      FirstLetterInside(v);
      match FirstLetter(v)
      case None => None
      case Some(i) =>
        match ParseInt(v[..i])
        case Some(n) => if n <= 0 then None else ParseDurationUnit(n, v[i..])
        case None => None
    else
      match ParseInt(parts[0])
      case Some(n) => if n <= 0 then None else ParseDurationUnit(n, JoinWithSpaces(parts[1..]))
      case None => None
  }

  // ---------- the switch ----------

  /** No unit is selected by two cases, so their order does not matter. */
  lemma CasesExclusive(c: Unit, d: Unit, unit: string)
    requires Selects(c, unit) && Selects(d, unit)
    ensures c == d
  {
    CaseLetters(c, unit);
    CaseLetters(d, unit);
  }

  lemma FirstChars(s: string, prefix: string)
    requires Prefixed(s, prefix)
    ensures forall i :: 0 <= i < |prefix| ==> s[i] == prefix[i]
  {
    forall i | 0 <= i < |prefix|
      ensures s[i] == prefix[i]
    {
      assert s[..|prefix|][i] == s[i];
    }
  }

  /** Enough of the beginning to tell the cases apart. */
  lemma CaseLetters(c: Unit, unit: string)
    requires Selects(c, unit)
    ensures unit != ""
    ensures match c
      case Nano => unit[0] == 'n'
      case Micro => unit[0] == '\U{00B5}' || (|unit| > 2 && unit[0] == 'm' && unit[1] == 'i' && unit[2] == 'c')
      case Milli => |unit| > 1 && unit[0] == 'm' && (unit[1] == 's' || (|unit| > 2 && unit[1] == 'i' && unit[2] == 'l'))
      case Sec => unit[0] == 's'
      case Min => |unit| > 2 && unit[0] == 'm' && unit[1] == 'i' && unit[2] == 'n'
      case Hour => unit[0] == 'h'
      case Day => unit[0] == 'd'
      case Week => unit[0] == 'w'
  {
    match c {
      case Nano => FirstChars(unit, "nanosec");
      case Micro =>
        if Prefixed(unit, "microsec") { FirstChars(unit, "microsec"); } else { FirstChars(unit, MICRO_SIGN); }
      case Milli => if Prefixed(unit, "millisec") { FirstChars(unit, "millisec"); } else { FirstChars(unit, "ms"); }
      case Sec => FirstChars(unit, "sec");
      case Min => FirstChars(unit, "min");
      case Hour => FirstChars(unit, "h");
      case Day => if Prefixed(unit, "day") { FirstChars(unit, "day"); }
      case Week => FirstChars(unit, "week");
    }
  }

  // ---------- 64-bit arithmetic ----------

  lemma WrapShift(x: int, q: int)
    ensures Wrap64(x - q * TWO_64) == Wrap64(x)
  {
  }

  lemma WrapTimes(x: int, k: int)
    ensures Wrap64(Wrap64(x) * k) == Wrap64(x * k)
  {
    var q := (x - Wrap64(x)) / TWO_64;
    assert Wrap64(x) == x - q * TWO_64;
    assert Wrap64(x) * k == x * k - (q * k) * TWO_64 by {
      assert (x - q * TWO_64) * k == x * k - (q * TWO_64) * k;
      assert (q * TWO_64) * k == (q * k) * TWO_64;
    }
    WrapShift(x * k, q * k);
  }

  /** The result is the true product exactly when it fits. */
  lemma WrapExact(x: int)
    requires x >= 0
    ensures Wrap64(x) == x <==> x <= MAX_INT64
  {
  }

  /** What the selected case computes, wrapping after every multiplication. */
  function Scaled(c: Unit, num: int): int {
    match c
    case Day => Wrap64(Wrap64(num * 24) * HOUR)
    case Week => Wrap64(Wrap64(Wrap64(num * 7) * 24) * HOUR)
    case _ => Wrap64(num * LengthOf(c))
  }

  lemma ScaledIsProduct(c: Unit, num: int)
    ensures Scaled(c, num) == Wrap64(num * LengthOf(c))
  {
    if c.Day? {
      WrapTimes(num * 24, HOUR);
    } else if c.Week? {
      WrapTimes(num * 7, 24);
      WrapTimes(num * 7 * 24, HOUR);
    }
  }

  lemma {:induction false} SwitchSelects(num: int, unit: string, c: Unit)
    requires Selects(c, Lower(TrimSpace(unit)))
    ensures ParseDurationUnit(num, unit) == Some(Scaled(c, num))
  {
    var u := Lower(TrimSpace(unit));
    forall d | Selects(d, u)
      ensures d == c
    {
      CasesExclusive(d, c, u);
    }
  }

  /** The switch gives the length of the unit it selects. */
  lemma UnitParses(num: int, unit: string, c: Unit)
    requires Selects(c, Lower(TrimSpace(unit)))
    ensures ParseDurationUnit(num, unit) == Some(Wrap64(num * LengthOf(c)))
  {
    SwitchSelects(num, unit, c);
    ScaledIsProduct(c, num);
  }

  // ---------- taking the string apart ----------

  lemma {:induction false} WordOf(w: string, rest: string)
    requires Spaceless(w) && (rest == "" || IsSpace(rest[0]))
    ensures Word(w + rest) == w
    decreases |w|
  {
    if w == "" {
      assert w + rest == rest;
    } else {
      assert (w + rest)[1..] == w[1..] + rest;
      WordOf(w[1..], rest);
    }
  }

  lemma FieldsOfWord(w: string, rest: string)
    requires w != "" && Spaceless(w) && (rest == "" || IsSpace(rest[0]))
    ensures Fields(w + rest) == [w] + Fields(rest)
  {
    WordOf(w, rest);
    assert TrimLeft(w + rest) == w + rest;
    assert (w + rest)[|w|..] == rest;
  }

  lemma FieldsOfOne(w: string)
    requires w != "" && Spaceless(w)
    ensures Fields(w) == [w]
  {
    assert w + "" == w;
    FieldsOfWord(w, "");
    assert TrimLeft("") == "";
  }

  lemma FieldsOfTwo(w: string, x: string)
    requires w != "" && Spaceless(w) && x != "" && Spaceless(x)
    ensures Fields(w + " " + x) == [w, x]
  {
    assert w + " " + x == w + (" " + x);
    FieldsOfWord(w, " " + x);
    assert (" " + x)[1..] == x;
    assert TrimLeft(" " + x) == TrimLeft(x) == x;
    FieldsOfOne(x);
    assert Fields(" " + x) == Fields(x);
  }

  lemma TrimNothing(s: string)
    requires s != "" && !IsSpace(s[0]) && !IsSpace(s[|s| - 1])
    ensures TrimSpace(s) == s
  {
  }

  lemma LowerKeeps(s: string)
    ensures Lower(Lower(s)) == Lower(s)
    ensures Spaceless(s) ==> Spaceless(Lower(s))
    ensures AllDigits(s) ==> Lower(s) == s
  {
  }

  lemma LowerConcat(s: string, t: string)
    ensures Lower(s + t) == Lower(s) + Lower(t)
  {
  }

  lemma {:induction false} FirstLetterAfter(digits: string, rest: string)
    requires forall i :: 0 <= i < |digits| ==> !IsLetter(digits[i])
    requires rest != "" && IsLetter(rest[0])
    ensures FirstLetter(digits + rest) == Some(|digits|)
    decreases |digits|
  {
    if digits == "" {
      assert digits + rest == rest;
    } else {
      assert (digits + rest)[1..] == digits[1..] + rest;
      FirstLetterAfter(digits[1..], rest);
    }
  }

  lemma PlainInt(n: nat)
    ensures ParseInt(Dec(n)) == (if n <= MAX_INT64 then Some(n) else None)
  {
    DecRoundTrip(n);
    assert IsDigit(Dec(n)[0]);
  }

  // ---------- the round trip ----------

  lemma SpacedForm(n: nat, u: string, c: Unit)
    requires 1 <= n <= MAX_INT64 && u != "" && Spaceless(u) && Selects(c, Lower(u))
    ensures ParseHumanReadableDuration(Dec(n) + " " + u) == Some(Wrap64(n * LengthOf(c)))
  {
    var s, lu := Dec(n) + " " + u, Lower(u);
    LowerKeeps(u);
    LowerKeeps(Dec(n));
    assert s[|s| - 1] == u[|u| - 1];
    TrimNothing(s);
    LowerConcat(Dec(n) + " ", u);
    LowerConcat(Dec(n), " ");
    assert Lower(" ") == " ";
    assert Lower(s) == Dec(n) + " " + lu;
    FieldsOfTwo(Dec(n), lu);
    PlainInt(n);
    assert [Dec(n), lu][1..] == [lu];
    TrimNothing(lu);
    UnitParses(n, lu, c);
  }

  /** The joined form is one field, in lower case. */
  lemma JoinedIsOneField(n: nat, u: string)
    requires u != "" && Spaceless(u)
    ensures var v := Dec(n) + Lower(u);
      Lower(TrimSpace(Dec(n) + u)) == v && Fields(v) == [v]
  {
    var s := Dec(n) + u;
    LowerKeeps(u);
    LowerKeeps(Dec(n));
    assert s[|s| - 1] == u[|u| - 1];
    TrimNothing(s);
    LowerConcat(Dec(n), u);
    FieldsOfOne(Dec(n) + Lower(u));
  }

  lemma JoinedForm(n: nat, u: string, c: Unit)
    requires 1 <= n <= MAX_INT64 && u != "" && Spaceless(u) && Selects(c, Lower(u)) && IsLetter(Lower(u)[0])
    ensures ParseHumanReadableDuration(Dec(n) + u) == Some(Wrap64(n * LengthOf(c)))
  {
    var lu := Lower(u);
    var v := Dec(n) + lu;
    JoinedIsOneField(n, u);
    FirstLetterAfter(Dec(n), lu);
    assert v[..|Dec(n)|] == Dec(n) && v[|Dec(n)|..] == lu;
    PlainInt(n);
    LowerKeeps(u);
    TrimNothing(lu);
    UnitParses(n, lu, c);
  }

  lemma NoNumber(digits: string, c: char)
    requires digits != "" && AllDigits(digits) && !IsDigit(c)
    ensures ParseInt(digits + [c]) == None
  {
    var s := digits + [c];
    assert s[0] == digits[0] && s[|s| - 1] == c;
  }

  /** The micro sign is no letter between a and z: it ends up in the number. */
  lemma {:induction false} JoinedMicroSign(n: nat, u: string)
    requires u != "" && Spaceless(u) && Prefixed(Lower(u), MICRO_SIGN)
    ensures ParseHumanReadableDuration(Dec(n) + u) == None
  {
    var lu := Lower(u);
    var v := Dec(n) + lu;
    JoinedIsOneField(n, u);
    FirstChars(lu, MICRO_SIGN);
    var number := Dec(n) + [lu[0]];
    assert v == number + lu[1..];
    FirstLetterAfter(number, lu[1..]);
    assert v[..|number|] == number;
    NoNumber(Dec(n), lu[0]);
  }

  lemma Product(n: nat, k: int)
    requires k >= 1
    ensures n * k >= 0
  {
  }

  /** For every positive number and every unit the switch accepts: with a space the
      result is the product in 64 bits, which is the true product exactly when it
      fits; without one it is the same exactly when the unit is not spelled with the
      micro sign, which the joined form rejects. */
  lemma {:induction false} DurationRoundTrip(n: nat, u: string, c: Unit)
    requires 1 <= n <= MAX_INT64 && u != "" && Spaceless(u) && Selects(c, Lower(u))
    ensures
      var spaced, joined := ParseHumanReadableDuration(Dec(n) + " " + u), ParseHumanReadableDuration(Dec(n) + u);
      && spaced == Some(Wrap64(n * LengthOf(c)))
      && (spaced == Some(n * LengthOf(c)) <==> n * LengthOf(c) <= MAX_INT64)
      && (joined == spaced <==> !Prefixed(Lower(u), MICRO_SIGN))
  {
    var length := LengthOf(c);
    SpacedForm(n, u, c);
    Product(n, length);
    WrapExact(n * length);
    if Prefixed(Lower(u), MICRO_SIGN) {
      JoinedMicroSign(n, u);
    } else {
      NotMicroSign(c, Lower(u));
      JoinedForm(n, u, c);
    }
  }

  lemma NotMicroSign(c: Unit, unit: string)
    requires Selects(c, unit) && !Prefixed(unit, MICRO_SIGN)
    ensures unit != "" && IsLetter(unit[0])
  {
    CaseLetters(c, unit);
    if c.Micro? {
      FirstChars(unit, "microsec");
    }
  }

  // ---------- what is rejected ----------

  /** The 64-bit product of a positive number and the length of the unit; nothing for
      other numbers and for units that no case of the switch selects. */
  ghost predicate Means(number: Option<int>, unit: string, r: Option<int>) {
    && (r.Some? <==> number.Some? && number.value >= 1 && exists c :: Selects(c, unit))
    && (forall c :: r.Some? && Selects(c, unit) ==> r == Some(Wrap64(number.value * LengthOf(c))))
  }

  lemma UnitMeans(num: int, unit: string)
    requires unit != "" && Spaceless(unit) && num >= 1
    ensures Means(Some(num), Lower(unit), ParseDurationUnit(num, Lower(unit)))
  {
    LowerKeeps(unit);
    TrimNothing(Lower(unit));
    forall c | Selects(c, Lower(unit))
      ensures ParseDurationUnit(num, Lower(unit)) == Some(Wrap64(num * LengthOf(c)))
    {
      UnitParses(num, Lower(unit), c);
    }
  }

  lemma TwoFieldsOf(w: string, u: string)
    requires w != "" && Spaceless(w) && u != "" && Spaceless(u)
    ensures Fields(Lower(TrimSpace(w + " " + u))) == [Lower(w), Lower(u)]
  {
    var s, lw, lu := w + " " + u, Lower(w), Lower(u);
    LowerKeeps(u);
    LowerKeeps(w);
    assert s[0] == w[0] && s[|s| - 1] == u[|u| - 1];
    TrimNothing(s);
    LowerConcat(w + " ", u);
    LowerConcat(w, " ");
    assert Lower(" ") == " ";
    assert Lower(s) == lw + " " + lu;
    FieldsOfTwo(lw, lu);
  }

  /** Any two words: accepted exactly if the first is a positive number and the second a
      unit. */
  lemma {:induction false} TwoWordsMean(w: string, u: string)
    requires w != "" && Spaceless(w) && u != "" && Spaceless(u)
    ensures Means(ParseInt(Lower(w)), Lower(u), ParseHumanReadableDuration(w + " " + u))
  {
    var lw, lu := Lower(w), Lower(u);
    TwoFieldsOf(w, u);
    assert [lw, lu][1..] == [lu];
    var number := ParseInt(lw);
    if number.Some? && number.value >= 1 {
      UnitMeans(number.value, u);
    }
  }

  predicate Letterless(s: string) {
    forall i :: 0 <= i < |s| ==> !IsLetter(s[i])
  }

  lemma {:induction false} NoFirstLetter(s: string)
    requires Letterless(s)
    ensures FirstLetter(s).None?
    decreases |s|
  {
    if s != "" { NoFirstLetter(s[1..]); }
  }

  lemma OneFieldOf(s: string)
    requires s != "" && Spaceless(s)
    ensures Lower(TrimSpace(s)) == Lower(s) && Fields(Lower(s)) == [Lower(s)]
  {
    LowerKeeps(s);
    TrimNothing(s);
    FieldsOfOne(Lower(s));
  }

  /** Any single word, cut before its first letter: accepted exactly if the front is a
      positive number and the rest a unit; a word without a letter never is. */
  lemma {:induction false} OneWordMeans(w: string, u: string)
    requires w + u != "" && Spaceless(w) && Spaceless(u) && Letterless(Lower(w))
    requires u != "" ==> IsLetter(Lower(u)[0])
    ensures u == "" ==> ParseHumanReadableDuration(w + u).None?
    ensures u != "" ==> Means(ParseInt(Lower(w)), Lower(u), ParseHumanReadableDuration(w + u))
  {
    OneFieldOf(w + u);
    LowerConcat(w, u);
    var lw, lu := Lower(w), Lower(u);
    if u == "" {
      assert w + u == w;
      NoFirstLetter(lw);
    } else {
      var v := lw + lu;
      FirstLetterAfter(lw, lu);
      assert v[..|lw|] == lw && v[|lw|..] == lu;
      var number := ParseInt(lw);
      if number.Some? && number.value >= 1 {
        UnitMeans(number.value, u);
      }
    }
  }

  lemma SignedInt(n: nat)
    ensures ParseInt("+" + Dec(n)) == (if n <= MAX_INT64 then Some(n) else None)
    ensures ParseInt("-" + Dec(n)) == (if n <= MAX_INT64 + 1 then Some(0 - n as int) else None)
  {
    DecRoundTrip(n);
    assert ("+" + Dec(n))[1..] == Dec(n) && ("-" + Dec(n))[1..] == Dec(n);
  }

  lemma OnlyInts(s: string)
    requires ParseInt(s).Some?
    ensures s != "" && AllDigits(s[1..]) && (IsDigit(s[0]) || ((s[0] == '+' || s[0] == '-') && |s| > 1))
  {
  }

  /** The integers of strconv.ParseInt: decimal digits with an optional sign, in range,
      and nothing else. */
  lemma {:induction false} ParseIntMeans(n: nat, s: string)
    ensures ParseInt(Dec(n)) == ParseInt("+" + Dec(n)) == (if n <= MAX_INT64 then Some(n) else None)
    ensures ParseInt("-" + Dec(n)) == (if n <= MAX_INT64 + 1 then Some(0 - n as int) else None)
    ensures ParseInt(s).Some? ==>
      s != "" && AllDigits(s[1..]) && (IsDigit(s[0]) || ((s[0] == '+' || s[0] == '-') && |s| > 1))
  {
    SignedInt(n);
    PlainInt(n);
    if ParseInt(s).Some? {
      OnlyInts(s);
    }
  }

  /** Of the words that begin with a d, "d" itself and those that begin with "day". */
  lemma {:induction false} OnlyDays(w: string, u: string)
    requires w != "" && Spaceless(w) && u != "" && Spaceless(u) && Lower(u)[0] == 'd'
    ensures ParseHumanReadableDuration(w + " " + u).Some? <==>
      ParseInt(Lower(w)).Some? && ParseInt(Lower(w)).value >= 1 && (Lower(u) == "d" || Prefixed(Lower(u), "day"))
  {
    TwoWordsMean(w, u);
    if c :| Selects(c, Lower(u)) {
      CaseLetters(c, Lower(u));
    }
    assert Selects(Day, Lower(u)) <==> Lower(u) == "d" || Prefixed(Lower(u), "day");
  }

  // ---------- the units by name ----------

  /** The spelled units, independently of the switch. */
  function Spelled(w: string): Option<Unit> {
    if w in {"nanosecond", "nanoseconds"} then Some(Nano)
    else if w in {"microsecond", "microseconds"} then Some(Micro)
    else if w in {"millisecond", "milliseconds", "ms"} then Some(Milli)
    else if w in {"second", "seconds", "sec"} then Some(Sec)
    else if w in {"minute", "minutes", "min"} then Some(Min)
    else if w in {"hour", "hours", "h"} then Some(Hour)
    else if w in {"day", "days", "d"} then Some(Day)
    else if w in {"week", "weeks"} then Some(Week)
    else None
  }

  lemma LowerCaseStays(w: string)
    requires forall i :: 0 <= i < |w| ==> IsLetter(w[i])
    ensures Lower(w) == w && Spaceless(w)
  {
  }

  lemma SpelledLetters(w: string)
    requires Spelled(w).Some?
    ensures w != "" && forall i :: 0 <= i < |w| ==> IsLetter(w[i])
  {
  }

  lemma SpelledSelected(w: string)
    requires Spelled(w).Some?
    ensures Selects(Spelled(w).value, w)
  {
  }

  lemma NotBeyondProduct(n: nat, k: int)
    requires k >= 1
    ensures n <= n * k
  {
  }

  lemma UnitInLetters(n: nat, w: string, c: Unit, length: int)
    requires w != "" && (forall i :: 0 <= i < |w| ==> IsLetter(w[i])) && Selects(c, w)
    requires length == LengthOf(c) && 1 <= n && n * length <= MAX_INT64
    ensures ParseHumanReadableDuration(Dec(n) + " " + w) == Some(n * length)
    ensures ParseHumanReadableDuration(Dec(n) + w) == Some(n * length)
  {
    LowerCaseStays(w);
    NotBeyondProduct(n, length);
    assert IsLetter(w[0]) && !IsLetter(MICRO_SIGN[0]);
    assert !Prefixed(w, MICRO_SIGN) by {
      if Prefixed(w, MICRO_SIGN) {
        FirstChars(w, MICRO_SIGN);
      }
    }
    DurationRoundTrip(n, w, c);
  }

  /** Every spelled unit means its length, with a space and without. */
  lemma {:induction false} SpelledUnits(n: nat, w: string, c: Unit, length: int)
    requires Spelled(w) == Some(c) && length == LengthOf(c)
    requires 1 <= n && n * length <= MAX_INT64
    ensures ParseHumanReadableDuration(Dec(n) + " " + w) == Some(n * length)
    ensures ParseHumanReadableDuration(Dec(n) + w) == Some(n * length)
  {
    SpelledLetters(w);
    SpelledSelected(w);
    UnitInLetters(n, w, c, length);
  }
}
