// Loosely typed JavaScript values and the string, number and date helpers
// that the referral-billing engine applies to them.

module Js {

  datatype Option<+T> = None | Some(value: T)
  {
    function GetOr(default: T): T
    {
      match this
      case None => default
      case Some(v) => v
    }
  }

  datatype Result<+T> = Success(value: T) | Failure(error: string)

  /** The first element a predicate accepts, as `Array.prototype.find` finds it. */
  function FindFirst<T>(xs: seq<T>, accept: T -> bool): (k: Option<nat>)
    ensures k.None? <==> forall i :: 0 <= i < |xs| ==> !accept(xs[i])
    ensures k.Some? ==> k.value < |xs| && accept(xs[k.value]) && forall j :: 0 <= j < k.value ==> !accept(xs[j])
  {
    if xs == [] then None
    else if accept(xs[0]) then Some(0)
    else
      match FindFirst(xs[1..], accept)
      case None => None
      case Some(k) => Some(k + 1)
  }

  /** The position of the first element whose key is `key`, or the length when there is none:
    * a lookup in a `Map` whose entries are kept in insertion order. */
  function KeyIndex<T, K(==)>(xs: seq<T>, keyOf: T -> K, key: K): (k: nat)
    ensures k <= |xs|
    ensures k < |xs| ==> keyOf(xs[k]) == key
    ensures forall j :: 0 <= j < k ==> keyOf(xs[j]) != key
  {
    if xs == [] then 0
    else if keyOf(xs[0]) == key then 0
    else
      var k := KeyIndex(xs[1..], keyOf, key);
      assert forall j :: 1 <= j < k + 1 ==> xs[j] == xs[1..][j - 1];
      k + 1
  }

  /** The elements a predicate keeps, in order, as `Array.prototype.filter` keeps them. */
  function Where<T>(xs: seq<T>, keep: T -> bool): (r: seq<T>)
    ensures |r| <= |xs|
    ensures forall i :: 0 <= i < |r| ==> r[i] in xs && keep(r[i])
    ensures forall i :: 0 <= i < |xs| && keep(xs[i]) ==> xs[i] in r
    ensures |r| == |xs| <==> forall i :: 0 <= i < |xs| ==> keep(xs[i])
  {
    if xs == [] then []
    else
      var init, last := xs[..|xs| - 1], xs[|xs| - 1];
      assert xs == init + [last];
      Where(init, keep) + (if keep(last) then [last] else [])
  }

  /** Filtering one more element appends it exactly when it is kept. */
  lemma WhereSnoc<T>(xs: seq<T>, x: T, keep: T -> bool)
    ensures Where(xs + [x], keep) == Where(xs, keep) + (if keep(x) then [x] else [])
  {
    assert (xs + [x])[..|xs + [x]| - 1] == xs;
  }

  /** Filtering a concatenation filters each part: kept elements keep their order. */
  lemma {:induction false} WhereAppend<T>(xs: seq<T>, ys: seq<T>, keep: T -> bool)
    ensures Where(xs + ys, keep) == Where(xs, keep) + Where(ys, keep)
  {
    if ys == [] {
      assert xs + ys == xs;
    } else {
      var init := ys[..|ys| - 1];
      assert (xs + ys)[..|xs + ys| - 1] == xs + init;
      WhereAppend(xs, init, keep);
    }
  }

  /** A field value as it sits in a stored record: `Missing` stands for both
    * `null` and `undefined`, `Obj` for any object or array. */
  datatype Value = Missing | Num(n: real) | NaN | Inf(negative: bool) | Str(s: string) | Bool(b: bool) | Obj

  /** A normalised identifier: a number stays a number, a string is trimmed. */
  datatype Id = IdNum(n: int) | IdStr(s: string)

  /** The outcome of `Number(x)`: every non-finite IEEE value collapses to NotFinite. */
  datatype JsNum = Fin(r: real) | NotFinite

  /** JavaScript `+` on two numbers: anything non-finite absorbs. */
  function Add(a: JsNum, b: JsNum): JsNum
  {
    if a.Fin? && b.Fin? then Fin(a.r + b.r) else NotFinite
  }

  /** JavaScript truthiness. */
  predicate Truthy(v: Value)
  {
    match v
    case Missing => false
    case Num(n) => n != 0.0
    case NaN => false
    case Inf(_) => true
    case Str(s) => s != ""
    case Bool(b) => b
    case Obj => true
  }

  predicate IdTruthy(id: Id)
  {
    match id
    case IdNum(n) => n != 0
    case IdStr(s) => s != ""
  }

  /** `a ?? b` */
  function Coalesce(a: Value, b: Value): Value
  {
    if a.Missing? then b else a
  }

  function IdValue(id: Id): Value
  {
    match id
    case IdNum(n) => Num(n as real)
    case IdStr(s) => Str(s)
  }

  // ---------------------------------------------------------------- strings

  /** The characters `String.prototype.trim` and the regex class `\s` remove (ASCII and the common Unicode ones). */
  predicate IsSpace(c: char)
  {
    c == ' ' || c == '\t' || c == '\n' || c == '\r' || c == '\U{B}' || c == '\U{C}' || c == '\U{A0}' || c == '\U{FEFF}'
  }

  function TrimStart(s: string): (r: string)
    ensures |r| <= |s| && r == s[|s| - |r|..]
    ensures r == [] || !IsSpace(r[0])
    ensures forall i :: 0 <= i < |s| - |r| ==> IsSpace(s[i])
  {
    if s != [] && IsSpace(s[0]) then TrimStart(s[1..]) else s
  }

  function TrimEnd(s: string): (r: string)
    ensures |r| <= |s| && r == s[..|r|]
    ensures r == [] || !IsSpace(r[|r| - 1])
    ensures forall i :: |r| <= i < |s| ==> IsSpace(s[i])
  {
    if s != [] && IsSpace(s[|s| - 1]) then TrimEnd(s[..|s| - 1]) else s
  }

  /** `s.trim()` */
  function Trim(s: string): (r: string)
    ensures r == [] || (!IsSpace(r[0]) && !IsSpace(r[|r| - 1]))
  {
    TrimEnd(TrimStart(s))
  }

  /** What `trim` cuts is white space at either end: the result is the slice of the input
    * between the two runs it removes. */
  lemma TrimCutsOnlySpace(s: string)
    ensures var k := |s| - |TrimStart(s)|;
            && k + |Trim(s)| <= |s| && Trim(s) == s[k..k + |Trim(s)|]
            && (forall i :: 0 <= i < k ==> IsSpace(s[i]))
            && (forall i :: k + |Trim(s)| <= i < |s| ==> IsSpace(s[i]))
  {
    hide TrimStart, TrimEnd;
    var t := TrimStart(s);
    var k := |s| - |t|;
    var r := TrimEnd(t);
    assert t == s[k..];
    assert r == t[..|r|];
    forall i | k + |r| <= i < |s| ensures IsSpace(s[i]) {
      assert s[i] == t[i - k];
    }
  }

  predicate IsTrimmed(s: string)
  {
    s == [] || (!IsSpace(s[0]) && !IsSpace(s[|s| - 1]))
  }

  lemma TrimOfTrimmed(s: string)
    requires IsTrimmed(s)
    ensures Trim(s) == s
  {
  }

  lemma TrimIdempotent(s: string)
    ensures Trim(Trim(s)) == Trim(s)
  {
    TrimOfTrimmed(Trim(s));
  }

  /** A string trims to nothing exactly when every character is white space. */
  lemma TrimEmptyIffBlank(s: string)
    ensures Trim(s) == [] <==> forall i :: 0 <= i < |s| ==> IsSpace(s[i])
  {
  }

  function LowerChar(c: char): char
  {
    if 'A' <= c <= 'Z' then (c as int + 32) as char else c
  }

  function UpperChar(c: char): char
  {
    if 'a' <= c <= 'z' then (c as int - 32) as char else c
  }

  /** `s.toLowerCase()` on the ASCII letters. */
  function Lower(s: string): (r: string)
    ensures |r| == |s| && forall i :: 0 <= i < |s| ==> r[i] == LowerChar(s[i])
  {
    seq(|s|, i requires 0 <= i < |s| => LowerChar(s[i]))
  }

  /** `s.toUpperCase()` on the ASCII letters. */
  function Upper(s: string): (r: string)
    ensures |r| == |s| && forall i :: 0 <= i < |s| ==> r[i] == UpperChar(s[i])
  {
    seq(|s|, i requires 0 <= i < |s| => UpperChar(s[i]))
  }

  predicate StartsWith(s: string, prefix: string)
  {
    |prefix| <= |s| && s[..|prefix|] == prefix
  }

  predicate EndsWith(s: string, suffix: string)
  {
    |suffix| <= |s| && s[|s| - |suffix|..] == suffix
  }

  /** `s.includes(t)` */
  predicate Contains(s: string, t: string)
  {
    exists i :: 0 <= i <= |s| - |t| && OccursAt(s, t, i)
  }

  predicate OccursAt(s: string, t: string, i: nat)
    requires i + |t| <= |s|
  {
    s[i..i + |t|] == t
  }

  /** The first index of `c` in `s`, or `|s|` when it does not occur. */
  function IndexOf(s: string, c: char): (k: nat)
    ensures k <= |s| && c !in s[..k] && (k < |s| ==> s[k] == c)
  {
    if s == [] then 0 else if s[0] == c then 0 else 1 + IndexOf(s[1..], c)
  }

  // ---------------------------------------------------------------- numbers as text

  predicate IsDigit(c: char)
  {
    '0' <= c <= '9'
  }

  predicate AllDigits(s: string)
  {
    forall i :: 0 <= i < |s| ==> IsDigit(s[i])
  }

  function DigitChar(d: nat): char
    requires d < 10
  {
    ('0' as int + d) as char
  }

  function DigitsValue(s: string): nat
    requires AllDigits(s)
  {
    if s == [] then 0 else DigitsValue(s[..|s| - 1]) * 10 + (s[|s| - 1] as int - '0' as int)
  }

  /** The decimal digits of `n`, as `String(n)` writes them. */
  function NatText(n: nat): (r: string)
    ensures r != [] && AllDigits(r)
  {
    if n < 10 then [DigitChar(n)] else NatText(n / 10) + [DigitChar(n % 10)]
  }

  /** Reading back what NatText wrote gives the number. */
  lemma {:induction false} NatTextRoundTrip(n: nat)
    ensures DigitsValue(NatText(n)) == n
  {
    if n >= 10 {
      NatTextRoundTrip(n / 10);
      var s := NatText(n);
      assert s[..|s| - 1] == NatText(n / 10);
    }
  }

  lemma NatTextInjective(a: nat, b: nat)
    requires NatText(a) == NatText(b)
    ensures a == b
  {
    NatTextRoundTrip(a);
    NatTextRoundTrip(b);
  }

  function IntText(n: int): string
  {
    if n < 0 then "-" + NatText(-n) else NatText(n)
  }

  /** `String(n)` for a number. Integers are rendered digit for digit; a fraction
    * is given a text that no integer has, its digits are not modelled. */
  function NumberText(n: real): string
  {
    if n == n.Floor as real then IntText(n.Floor) else IntText(n.Floor) + ".~"
  }

  /** `String(s).padStart(width, '0')` */
  function PadStart(s: string, width: nat): (r: string)
    ensures |r| == if |s| >= width then |s| else width
    ensures EndsWith(r, s)
    decreases width - |s|
  {
    if |s| >= width then s else PadStart("0" + s, width)
  }

  function Pow10(n: nat): (r: nat)
    ensures r >= 1
  {
    if n == 0 then 1 else 10 * Pow10(n - 1)
  }

  /** A decimal without sign: digits, optionally a point and more digits, with at least one digit in all. */
  function UnsignedDecimal(s: string): Option<real>
  {
    var k := IndexOf(s, '.');
    var whole := s[..k];
    var frac := if k < |s| then s[k + 1..] else [];
    if AllDigits(whole) && AllDigits(frac) && (whole != [] || frac != []) then
      Some(DigitsValue(whole) as real + DigitsValue(frac) as real / Pow10(|frac|) as real)
    else None
  }

  /** `Number(s)` for a string: blank is 0, an optionally signed decimal is its value,
    * `Infinity` is not finite, anything else is NaN. */
  function NumberOfString(s: string): JsNum
  {
    var t := Trim(s);
    if t == [] then Fin(0.0)
    else
      var neg := t[0] == '-';
      var body := if t[0] == '-' || t[0] == '+' then t[1..] else t;
      if body == "Infinity" then NotFinite
      else match UnsignedDecimal(body)
        case Some(x) => Fin(if neg then -x else x)
        case None => NotFinite
  }

  lemma UnsignedDecimalOfDigits(s: string)
    requires s != [] && AllDigits(s)
    ensures UnsignedDecimal(s) == Some(DigitsValue(s) as real)
  {
    assert '.' !in s;
    assert IndexOf(s, '.') == |s|;
    assert s[..|s|] == s;
  }

  /** `Number(String(n))` gives `n` back. */
  lemma NumberOfDigits(n: nat)
    ensures NumberOfString(NatText(n)) == Fin(n as real)
  {
    var s := NatText(n);
    assert IsTrimmed(s);
    TrimOfTrimmed(s);
    assert s[0] != '-' && s[0] != '+';
    assert s != "Infinity" by { assert IsDigit(s[0]); }
    UnsignedDecimalOfDigits(s);
    NatTextRoundTrip(n);
  }

  /** `Number(v)` */
  function JsNumber(v: Value): JsNum
  {
    match v
    case Missing => NotFinite
    case Num(n) => Fin(n)
    case NaN => NotFinite
    case Inf(_) => NotFinite
    case Str(s) => NumberOfString(s)
    case Bool(b) => Fin(if b then 1.0 else 0.0)
    case Obj => NotFinite
  }

  /** `String(v)` */
  function JsString(v: Value): string
  {
    match v
    case Missing => "null"
    case Num(n) => NumberText(n)
    case NaN => "NaN"
    case Inf(neg) => if neg then "-Infinity" else "Infinity"
    case Str(s) => s
    case Bool(b) => if b then "true" else "false"
    case Obj => "[object Object]"
  }

  /** `normaliseId`: a string is trimmed, a number kept, anything else is no id. */
  function NormaliseId(v: Value): (r: Option<Id>)
    ensures v.Str? ==> r == Some(IdStr(Trim(v.s)))
    ensures !v.Str? && !v.Num? ==> r == None
  {
    match v
    case Str(s) => Some(IdStr(Trim(s)))
    case Num(n) => if n == n.Floor as real then Some(IdNum(n.Floor)) else None
    case _ => None
  }

  lemma NormaliseIdOfIdValue(id: Id)
    requires id.IdStr? ==> IsTrimmed(id.s)
    ensures NormaliseId(IdValue(id)) == Some(id)
  {
    if id.IdStr? { TrimOfTrimmed(id.s); }
  }

  /** The text an id renders to in a template literal. */
  function IdText(id: Id): string
  {
    match id
    case IdNum(n) => IntText(n)
    case IdStr(s) => s
  }

  // ---------------------------------------------------------------- money

  /** `Math.round(x * 100) / 100`; `Math.round` rounds halves upward. */
  function Round2(x: real): real
  {
    (x * 100.0 + 0.5).Floor as real / 100.0
  }

  /** A whole number of cents. */
  predicate IsCents(x: real)
  {
    (x * 100.0).Floor as real == x * 100.0
  }

  lemma Round2Properties(x: real)
    ensures IsCents(Round2(x))
    ensures x - 0.005 < Round2(x) <= x + 0.005
    ensures x >= 0.0 ==> Round2(x) >= 0.0
  {
    var f := (x * 100.0 + 0.5).Floor;
    assert Round2(x) * 100.0 == f as real;
  }

  lemma Round2OfCents(x: real)
    requires IsCents(x)
    ensures Round2(x) == x
  {
    var k := (x * 100.0).Floor;
    assert (x * 100.0 + 0.5).Floor == k;
  }

  // ---------------------------------------------------------------- dates

  /** Calendar fields of an instant in the local time zone. */
  datatype Date = Date(year: int, month: int, day: int)

  datatype Instant = Instant(millis: int, local: Date)

  /** A date field: `undefined`, `null`, something that does not parse as a date, or an instant. */
  datatype DateInput = Unset | Null | Invalid | At(t: Instant)

  /** `a ?? b` on date fields. */
  function CoalesceDate(a: DateInput, b: DateInput): DateInput
  {
    if a.Unset? || a.Null? then b else a
  }

  /** `monthKey(date)`: `YYYY-MM`. */
  function MonthKey(d: Date): string
  {
    IntText(d.year) + "-" + PadStart(IntText(d.month), 2)
  }

  /** `ymd(date)`: `YYYY-MM-DD`. */
  function Ymd(d: Date): string
  {
    MonthKey(d) + "-" + PadStart(IntText(d.day), 2)
  }

  /** `safeMonthKey`: `undefined` is the current month; `null` and a date that does not parse are `unknown`. */
  function SafeMonthKey(input: DateInput, now: Instant): string
  {
    match input
    case Unset => MonthKey(now.local)
    case Null => "unknown"
    case Invalid => "unknown"
    case At(t) => MonthKey(t.local)
  }

  // ---------------------------------------------------------------- ordering

  /** Code-point order of strings, the model of `localeCompare` (`<= 0`). */
  predicate StrLe(a: string, b: string)
  {
    a == [] || (b != [] && (a[0] < b[0] || (a[0] == b[0] && StrLe(a[1..], b[1..]))))
  }

  lemma {:induction false} StrLeTotal(a: string, b: string)
    ensures StrLe(a, b) || StrLe(b, a)
  {
    if a != [] && b != [] && a[0] == b[0] {
      StrLeTotal(a[1..], b[1..]);
    }
  }

  lemma {:induction false} StrLeTransitive(a: string, b: string, c: string)
    requires StrLe(a, b) && StrLe(b, c)
    ensures StrLe(a, c)
  {
    if a != [] && b != [] && c != [] && a[0] == b[0] == c[0] {
      StrLeTransitive(a[1..], b[1..], c[1..]);
    }
  }

  lemma {:induction false} StrLeAntisymmetric(a: string, b: string)
    requires StrLe(a, b) && StrLe(b, a)
    ensures a == b
  {
    if a != [] && b != [] {
      StrLeAntisymmetric(a[1..], b[1..]);
      assert a == [a[0]] + a[1..];
      assert b == [b[0]] + b[1..];
    }
  }
}
