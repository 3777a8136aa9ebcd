/** The values of a query: unescaping, lists, and scalars with their units. */
module PqlValues {
  import opened Common
  import opened Glob

  // ----- quoted strings

  /** The text between the quotes, each backslash dropped and the character after it kept. */
  function Unescaped(quoted: string, i: nat): string
    decreases |quoted| - i
  {
    if i + 1 >= |quoted| then []
    else if quoted[i] == '\\' && i + 2 < |quoted| then [quoted[i + 1]] + Unescaped(quoted, i + 2)
    else [quoted[i]] + Unescaped(quoted, i + 1)
  }

  method Unescape(quoted: string) returns (out: string)
    ensures out == Unescaped(quoted, 1)
  {
    out := [];
    var i := 1;
    while i + 1 < |quoted|
      invariant out + Unescaped(quoted, i) == Unescaped(quoted, 1)
      decreases |quoted| - i
    {
      ghost var at := i;
      if quoted[i] == '\\' && i + 2 < |quoted| { i := i + 1; }
      assert Unescaped(quoted, at) == [quoted[i]] + Unescaped(quoted, i + 1);
      out := out + [quoted[i]];
      i := i + 1;
    }
  }

  /** How a literal is written between quotes. */
  function Escape(text: string): string {
    if text == [] then []
    else (if text[0] == '"' || text[0] == '\\' then ['\\', text[0]] else [text[0]]) + Escape(text[1..])
  }

  /** Quoting any text and unescaping it gives the text back. */
  lemma {:induction false} UnescapesWhatIsEscaped(text: string, before: string)
    ensures Unescaped(before + Escape(text) + ['"'], |before|) == text
    decreases |text|
  {
    if text != [] {
      var head := if text[0] == '"' || text[0] == '\\' then ['\\', text[0]] else [text[0]];
      var whole := before + Escape(text) + ['"'];
      assert whole == (before + head) + Escape(text[1..]) + ['"'];
      assert whole[|before|] == head[0] && (|head| == 2 ==> whole[|before| + 1] == head[1]);
      UnescapesWhatIsEscaped(text[1..], before + head);
      assert text == [text[0]] + text[1..];
    }
  }

  // ----- lists

  function Join(parts: seq<string>, sep: char): string {
    if parts == [] then [] else if |parts| == 1 then parts[0] else parts[0] + [sep] + Join(parts[1..], sep)
  }

  /** The parts between separators: put together again they are the text, and none holds a separator. */
  ghost predicate Splits(parts: seq<string>, text: string, sep: char) {
    && parts != [] && Join(parts, sep) == text
    && forall i :: 0 <= i < |parts| ==> sep !in parts[i]
  }

  function FirstSep(text: string, sep: char): nat {
    if text == [] || text[0] == sep then 0 else 1 + FirstSep(text[1..], sep)
  }

  lemma {:induction false} FirstSepAt(text: string, sep: char, n: nat)
    requires n <= |text| && (forall i :: 0 <= i < n ==> text[i] != sep) && (n < |text| ==> text[n] == sep)
    ensures FirstSep(text, sep) == n
    decreases n
  {
    if n > 0 { FirstSepAt(text[1..], sep, n - 1); }
  }

  /** There is one such list only. */
  lemma {:induction false} SplitIsUnique(a: seq<string>, b: seq<string>, text: string, sep: char)
    requires Splits(a, text, sep) && Splits(b, text, sep)
    ensures a == b
    decreases |a|
  {
    var x, y := a[0], b[0];
    FirstSepAt(text, sep, |x|);
    FirstSepAt(text, sep, |y|);
    assert text[..|x|] == x == y;
    if |a| > 1 {
      assert Join(a[1..], sep) == text[|x| + 1..] == Join(b[1..], sep);
      SplitIsUnique(a[1..], b[1..], text[|x| + 1..], sep);
    }
    assert a == [x] + a[1..] && b == [y] + b[1..];
  }

  /** The first separator at or after `from`, or the length of the text. */
  method Find(text: string, sep: char, from: nat) returns (at: nat)
    requires from <= |text|
    ensures from <= at <= |text| && sep !in text[from..at] && (at < |text| ==> text[at] == sep)
  {
    at := from;
    while at < |text| && text[at] != sep
      invariant from <= at <= |text| && sep !in text[from..at]
    {
      at := at + 1;
    }
  }

  lemma {:induction false} JoinAppend(parts: seq<string>, last: string, sep: char)
    ensures Join(parts + [last], sep) == if parts == [] then last else Join(parts, sep) + [sep] + last
    decreases |parts|
  {
    if |parts| >= 1 {
      assert (parts + [last])[1..] == parts[1..] + [last];
      JoinAppend(parts[1..], last, sep);
    }
  }

  method Split(text: string, sep: char) returns (parts: seq<string>)
    ensures Splits(parts, text, sep)
  {
    hide Join;
    parts := [];
    var start := 0;
    var end := Find(text, sep, 0);
    while end < |text|
      invariant 0 <= start <= end <= |text| && sep !in text[start..end] && (end < |text| ==> text[end] == sep)
      invariant forall i :: 0 <= i < |parts| ==> sep !in parts[i]
      invariant if parts == [] then start == 0 else Join(parts, sep) + [sep] == text[..start]
      decreases |text| - end
    {
      var part := text[start..end];
      JoinAppend(parts, part, sep);
      assert text[..end + 1] == text[..start] + part + [sep];
      parts := parts + [part];
      start := end + 1;
      end := Find(text, sep, start);
    }
    JoinAppend(parts, text[start..], sep);
    assert text == text[..start] + text[start..];
    parts := parts + [text[start..]];
  }

  /** The parts as a function of the text. */
  function Parts(text: string, sep: char): seq<string>
    decreases |text|
  {
    var k := FirstSep(text, sep);
    FirstSepBound(text, sep);
    if k == |text| then [text] else [text[..k]] + Parts(text[k + 1..], sep)
  }

  lemma {:induction false} FirstSepBound(text: string, sep: char)
    ensures FirstSep(text, sep) <= |text| && sep !in text[..FirstSep(text, sep)]
    ensures FirstSep(text, sep) < |text| ==> text[FirstSep(text, sep)] == sep
    decreases |text|
  {
    if text != [] && text[0] != sep {
      FirstSepBound(text[1..], sep);
      var k := FirstSep(text[1..], sep);
      assert text[..k + 1] == [text[0]] + text[1..][..k];
    }
  }

  lemma {:induction false} PartsSplit(text: string, sep: char)
    ensures Splits(Parts(text, sep), text, sep)
    decreases |text|
  {
    var k := FirstSep(text, sep);
    FirstSepBound(text, sep);
    if k == |text| {
      assert text[..k] == text;
    } else {
      PartsSplit(text[k + 1..], sep);
      var rest := Parts(text[k + 1..], sep);
      assert ([text[..k]] + rest)[1..] == rest;
      assert text == text[..k] + [sep] + text[k + 1..];
    }
  }

  /** A value as it stands in the query; quoted ones are literal. */
  datatype Value = Value(text: string, quoted: bool)

  /** The items of a value: a quoted one is itself, others are split at commas. */
  function Items(v: Value): seq<string> { if v.quoted then [v.text] else Parts(v.text, ',') }

  method ListOf(v: Value) returns (items: seq<string>)
    ensures items == Items(v)
  {
    if v.quoted { return [v.text]; }
    items := Split(v.text, ',');
    PartsSplit(v.text, ',');
    SplitIsUnique(items, Parts(v.text, ','), v.text, ',');
  }

  // ----- scalars

  datatype Kind = TextK | TagK | HashK | SizeK | RateK | DurationK | NumberK | PercentK | DateK | StateK | BoolK
      | FlagsK

  /** The parts of the platform the values rest on: which numbers can be held, and what time a date covers. */
  datatype Clock = Clock(fits: real -> bool, date: string -> Option<(real, real)>)

  predicate IsDigit(c: char) { '0' <= c <= '9' }

  ghost predicate AllDigits(s: string) { forall i :: 0 <= i < |s| ==> IsDigit(s[i]) }

  /** "123" or "1.5": digits, or digits with a point and more digits. */
  ghost predicate IsNumeral(s: string) {
    s != [] && (AllDigits(s) || exists k ::
        0 < k < |s| - 1 && s[k] == '.' && AllDigits(s[..k]) && AllDigits(s[k + 1..]))
  }

  function DigitsFrom(text: string, i: nat): (n: nat)
    requires i <= |text|
    ensures i <= n <= |text| && AllDigits(text[i..n]) && (n < |text| ==> !IsDigit(text[n]))
    decreases |text| - i
  {
    if i < |text| && IsDigit(text[i]) then
      var n := DigitsFrom(text, i + 1);
      assert text[i..n] == [text[i]] + text[i + 1..n];
      n
    else i
  }

  function NumberPrefixOf(text: string): (n: nat)
    ensures n <= |text|
  {
    var i := DigitsFrom(text, 0);
    if i > 0 && i + 1 < |text| && text[i] == '.' && IsDigit(text[i + 1]) then DigitsFrom(text, i + 1) else i
  }

  method NumberPrefix(text: string) returns (n: nat)
    ensures n == NumberPrefixOf(text)
  {
    n := 0;
    while n < |text| && IsDigit(text[n])
      invariant 0 <= n <= |text| && DigitsFrom(text, 0) == DigitsFrom(text, n)
    {
      n := n + 1;
    }
    if n > 0 && n + 1 < |text| && text[n] == '.' && IsDigit(text[n + 1]) {
      ghost var point := n;
      n := n + 1;
      while n < |text| && IsDigit(text[n])
        invariant point + 1 <= n <= |text| && DigitsFrom(text, point + 1) == DigitsFrom(text, n)
      {
        n := n + 1;
      }
    }
  }

  /** The prefix is the longest numeral the text starts with, or empty when it starts with none. */
  lemma NumberPrefixIsLongest(text: string, k: nat)
    requires k <= |text| && IsNumeral(text[..k])
    ensures k <= NumberPrefixOf(text) && IsNumeral(text[..NumberPrefixOf(text)])
  {
    var i := DigitsFrom(text, 0);
    assert text[0..i] == text[..i];
    if AllDigits(text[..k]) {
      assert i > 0;
    } else {
      var d :| 0 < d < k - 1 && text[..k][d] == '.' && AllDigits(text[..k][..d]) && AllDigits(text[..k][d + 1..]);
      assert forall x :: 0 <= x < d ==> text[x] == text[..k][..d][x];
      assert forall x :: d < x < k ==> text[x] == text[..k][d + 1..][x - d - 1];
      assert i == d;
      var n := DigitsFrom(text, d + 1);
    }
    var n := NumberPrefixOf(text);
    if n > i {
      var s := text[..n];
      assert s[..i] == text[0..i] && s[i + 1..] == text[i + 1..n];
      assert IsNumeral(s);
    } else {
      assert IsNumeral(text[..i]);
    }
  }

  // ----- what numerals stand for

  function DigitOf(c: char): real { (c as int - '0' as int) as real }

  function WholeValue(s: string): real {
    if s == [] then 0.0 else 10.0 * WholeValue(s[..|s| - 1]) + DigitOf(s[|s| - 1])
  }

  function FractionOf(s: string): real { if s == [] then 0.0 else (DigitOf(s[0]) + FractionOf(s[1..])) / 10.0 }

  function NumeralValue(s: string): real {
    var i := DigitsFrom(s, 0);
    if i == |s| then WholeValue(s) else WholeValue(s[..i]) + FractionOf(s[i + 1..])
  }

  function Power(base: real, n: nat): real { if n == 0 then 1.0 else base * Power(base, n - 1) }

  lemma {:induction false} WholeValueConcat(a: string, b: string)
    ensures WholeValue(a + b) == WholeValue(a) * Power(10.0, |b|) + WholeValue(b)
    decreases |b|
  {
    if b == [] {
      assert a + b == a;
    } else {
      var init := b[..|b| - 1];
      WholeValueConcat(a, init);
      assert (a + b)[..|a + b| - 1] == a + init;
    }
  }

  lemma {:induction false} FractionScales(s: string)
    ensures FractionOf(s) * Power(10.0, |s|) == WholeValue(s)
    decreases |s|
  {
    if s != [] {
      var head, tail := s[..1], s[1..];
      FractionScales(tail);
      assert s == head + tail && head[..0] == [];
      WholeValueConcat(head, tail);
      assert WholeValue(head) == DigitOf(s[0]);
    }
  }

  lemma {:induction false} DigitsEnd(s: string, i: nat, n: nat)
    requires i <= n <= |s| && AllDigits(s[i..n]) && (n < |s| ==> !IsDigit(s[n]))
    ensures DigitsFrom(s, i) == n
    decreases n - i
  {
    if i < n {
      assert s[i] == s[i..n][0] && s[i + 1..n] == s[i..n][1..];
      DigitsEnd(s, i + 1, n);
    }
  }

  lemma NumeralSplits(a: string, b: string)
    requires AllDigits(a) && AllDigits(b)
    ensures NumeralValue(a) == WholeValue(a)
    ensures NumeralValue(a + ['.'] + b) == WholeValue(a) + FractionOf(b)
  {
    hide WholeValue, FractionOf, DigitsFrom;
    var s := a + ['.'] + b;
    assert a[0..|a|] == a && s[0..|a|] == a && s[..|a|] == a && s[|a| + 1..] == b;
    DigitsEnd(a, 0, |a|);
    DigitsEnd(s, 0, |a|);
  }

  /** A numeral is a decimal number: with its point moved to the end it is what its digits stand for. */
  lemma NumeralIsDecimal(a: string, b: string)
    requires AllDigits(a) && AllDigits(b)
    ensures NumeralValue(a) == WholeValue(a)
    ensures NumeralValue(a + ['.'] + b) * Power(10.0, |b|) == WholeValue(a + b)
  {
    hide NumeralValue, WholeValue, FractionOf, Power, AllDigits;
    NumeralSplits(a, b);
    WholeValueConcat(a, b);
    FractionScales(b);
    Distributes(WholeValue(a), FractionOf(b), Power(10.0, |b|));
  }

  lemma Distributes(x: real, y: real, p: real)
    ensures (x + y) * p == x * p + y * p
  {}

  lemma DigitsCount(i: nat)
    requires i < 10
    ensures WholeValue("0123456789"[i..i + 1]) == i as real
    ensures forall c :: IsDigit(c) <==> c in "0123456789"
  {
    forall c ensures IsDigit(c) <==> c in "0123456789" {
      if IsDigit(c) { assert "0123456789"[c as int - '0' as int] == c; }
    }
    var digit := "0123456789"[i..i + 1];
    assert digit[..0] == [];
  }

  // ----- units

  const DECIMAL := ["kb", "mb", "gb", "tb", "pb"]
  const BINARY := ["kib", "mib", "gib", "tib", "pib"]
  const TIMES := ["", "s", "m", "h", "d", "w", "mo", "y"]

  function SizeUnit(unit: string): Option<real> {
    if unit == "" || unit == "b" then Some(1.0)
    else if unit == "kb" then Some(1000.0)
    else if unit == "mb" then Some(1000000.0)
    else if unit == "gb" then Some(1000000000.0)
    else if unit == "tb" then Some(1000000000000.0)
    else if unit == "pb" then Some(1000000000000000.0)
    else if unit == "kib" then Some(1024.0)
    else if unit == "mib" then Some(1048576.0)
    else if unit == "gib" then Some(1073741824.0)
    else if unit == "tib" then Some(1099511627776.0)
    else if unit == "pib" then Some(1125899906842624.0)
    else None
  }

  function DurationUnit(unit: string): Option<real> {
    if unit == "" || unit == "s" then Some(1.0)
    else if unit == "m" then Some(60.0)
    else if unit == "h" then Some(3600.0)
    else if unit == "d" then Some(86400.0)
    else if unit == "w" then Some(604800.0)
    else if unit == "mo" then Some(2592000.0)
    else if unit == "y" then Some(31536000.0)
    else None
  }

  function UnitMultiplier(kind: Kind, unit: string): Option<real> {
    match kind
    case SizeK => SizeUnit(unit)
    case RateK => SizeUnit(if |unit| >= 2 && unit[|unit| - 2..] == "/s" then unit[..|unit| - 2] else unit)
    case DurationK => DurationUnit(unit)
    case PercentK => if unit == "" || unit == "%" then Some(10000.0) else None
    case _ => if unit == "" then Some(1.0) else None
  }

  /** The decimal units are the powers of 1000, the binary ones those of 1024, and there are no others. */
  lemma SizeUnits(i: nat, unit: string)
    requires i < 5
    ensures SizeUnit(DECIMAL[i]) == Some(Power(1000.0, i + 1)) && SizeUnit(BINARY[i]) == Some(Power(1024.0, i + 1))
    ensures SizeUnit("") == SizeUnit("b") == Some(1.0)
    ensures SizeUnit(unit).Some? ==> unit == "" || unit == "b" || unit in DECIMAL || unit in BINARY
  {
    Powers(1000.0);
    Powers(1024.0);
    if SizeUnit(unit).Some? && unit != "" && unit != "b" {
      assert unit == DECIMAL[0] || unit == DECIMAL[1] || unit == DECIMAL[2] || unit == DECIMAL[3] || unit == DECIMAL[4]
        || unit == BINARY[0] || unit == BINARY[1] || unit == BINARY[2] || unit == BINARY[3] || unit == BINARY[4];
    }
  }

  lemma Powers(b: real)
    ensures Power(b, 1) == b && Power(b, 2) == b * b && Power(b, 3) == b * b * b
    ensures Power(b, 4) == b * b * b * b && Power(b, 5) == b * b * b * b * b
  {
    assert Power(b, 0) == 1.0 && Power(b, 1) == b * Power(b, 0) && Power(b, 2) == b * Power(b, 1);
    assert Power(b, 3) == b * Power(b, 2) && Power(b, 4) == b * Power(b, 3) && Power(b, 5) == b * Power(b, 4);
  }

  /** Sixty seconds are a minute, and so on up; there are no other units of time. */
  lemma DurationUnits(unit: string)
    ensures DurationUnit("") == DurationUnit("s") == Some(1.0)
    ensures DurationUnit("m") == Some(60.0 * DurationUnit("s").value)
    ensures DurationUnit("h") == Some(60.0 * DurationUnit("m").value)
    ensures DurationUnit("d") == Some(24.0 * DurationUnit("h").value)
    ensures DurationUnit("w") == Some(7.0 * DurationUnit("d").value)
    ensures DurationUnit("mo") == Some(30.0 * DurationUnit("d").value)
    ensures DurationUnit("y") == Some(365.0 * DurationUnit("d").value)
    ensures DurationUnit(unit).Some? <==> unit in TIMES
  {
    assert forall u :: u in TIMES <==> u == TIMES[0] || u == TIMES[1] || u == TIMES[2] || u == TIMES[3]
                                       || u == TIMES[4] || u == TIMES[5] || u == TIMES[6] || u == TIMES[7];
  }

  /** A rate is a size, with or without "/s"; a percentage counts ten thousands; other numbers have no unit. */
  lemma OtherUnits(unit: string)
    ensures UnitMultiplier(SizeK, unit) == SizeUnit(unit) && UnitMultiplier(DurationK, unit) == DurationUnit(unit)
    ensures UnitMultiplier(RateK, unit + "/s") == SizeUnit(unit)
    ensures SizeUnit(unit).Some? ==> UnitMultiplier(RateK, unit) == SizeUnit(unit)
    ensures UnitMultiplier(PercentK, unit) == if unit in ["", "%"] then Some(10000.0) else None
    ensures UnitMultiplier(NumberK, unit) == if unit == "" then Some(1.0) else None
  {
    hide SizeUnit, DurationUnit;
    assert (unit + "/s")[|unit|..] == "/s" && (unit + "/s")[..|unit|] == unit;
    SizesEndInB(unit);
    if |unit| >= 2 { assert unit[|unit| - 2..][1] == unit[|unit| - 1]; }
  }

  lemma SizesEndInB(unit: string)
    ensures SizeUnit(unit).Some? ==> unit == "" || unit[|unit| - 1] == 'b'
  {}

  /** A scalar is the interval it covers; a relative one is an offset from now. */
  datatype Scalar = Scalar(lo: real, hi: real, relative: bool)

  function ParseQuantity(clock: Clock, kind: Kind, text: string): Option<Scalar> {
    var n := NumberPrefixOf(text);
    if n == 0 then None
    else Counted(clock, kind, NumeralValue(text[..n]), UnitMultiplier(kind, Lower(text[n..])))
  }

  /** A number counted in a unit, if it can be held, the unit is known, and it is no percentage beyond the whole. */
  function Counted(clock: Clock, kind: Kind, number: real, unit: Option<real>): Option<Scalar> {
    if !clock.fits(number) then None
    else match unit
      case None => None
      case Some(mult) =>
        if kind == PercentK && number > 100.0 then None else Some(Scalar(number * mult, number * mult, false))
  }

  lemma CountedIs(clock: Clock, kind: Kind, x: real, u: Option<real>)
    ensures Counted(clock, kind, x, u) ==
              if !clock.fits(x) || u.None? || (kind == PercentK && x > 100.0) then None
              else Some(Scalar(x * u.value, x * u.value, false))
  {}

  lemma BackIs(clock: Clock, x: real, m: real)
    requires clock.fits(x)
    ensures var ago := Counted(clock, DurationK, x, Some(m));
            ago.Some? && Scalar(-ago.value.lo, -ago.value.hi, true) == Scalar(0.0 - x * m, 0.0 - x * m, true)
  {}

  /** A quantity starts with a numeral. With the longest one it starts with, and its unit, it is what the numeral stands
      for, counted in that unit. */
  lemma QuantityIs(clock: Clock, kind: Kind, num: string, unit: string, x: real, u: Option<real>)
    requires IsNumeral(num) && forall k :: |num| < k <= |num + unit| ==> !IsNumeral((num + unit)[..k])
    requires x == NumeralValue(num) && u == UnitMultiplier(kind, Lower(unit))
    ensures ParseQuantity(clock, kind, num + unit) ==
              if !clock.fits(x) || u.None? || (kind == PercentK && x > 100.0) then None
              else Some(Scalar(x * u.value, x * u.value, false))
  {
    hide NumberPrefixOf, NumeralValue, IsNumeral, UnitMultiplier, Lower, Counted;
    LongestIs(num, unit);
    CountedIs(clock, kind, x, u);
  }

  lemma LongestIs(num: string, unit: string)
    requires IsNumeral(num) && forall k :: |num| < k <= |num + unit| ==> !IsNumeral((num + unit)[..k])
    ensures NumberPrefixOf(num + unit) == |num| > 0 && (num + unit)[..|num|] == num && (num + unit)[|num|..] == unit
  {
    hide NumberPrefixOf;
    var text := num + unit;
    assert text[..|num|] == num && text[|num|..] == unit;
    NumberPrefixIsLongest(text, |num|);
  }

  lemma NoQuantity(clock: Clock, kind: Kind, text: string)
    ensures ParseQuantity(clock, kind, text).Some? ==> exists k :: 0 <= k <= |text| && IsNumeral(text[..k])
  {
    if NumberPrefixOf(text) > 0 {
      assert IsDigit(text[0]) && text[..1][0] == text[0];
      assert IsNumeral(text[..1]);
    }
  }

  function ParseScalar(clock: Clock, kind: Kind, text: string): Option<Scalar> {
    if kind != DateK then ParseQuantity(clock, kind, text)
    else if text != [] && text[0] == '-' then
      match ParseQuantity(clock, DurationK, text[1..])
      case None => None
      case Some(ago) => Some(Scalar(-ago.lo, -ago.hi, true))
    else match clock.date(text)
      case None => None
      case Some(d) => Some(Scalar(d.0, d.1, false))
  }

  /** A date names the time it covers. */
  lemma DatesAre(clock: Clock, text: string)
    requires text == [] || text[0] != '-'
    ensures ParseScalar(clock, DateK, text) ==
              if clock.date(text).None? then None
              else Some(Scalar(clock.date(text).value.0, clock.date(text).value.1, false))
  {}

  /** After a minus sign it is so long ago: one instant, that much before now. */
  lemma AgoIs(clock: Clock, num: string, unit: string, x: real, u: Option<real>, m: real)
    requires IsNumeral(num) && forall k :: |num| < k <= |num + unit| ==> !IsNumeral((num + unit)[..k])
    requires x == NumeralValue(num) && u == DurationUnit(Lower(unit)) && (u.Some? ==> m == u.value)
    ensures ParseScalar(clock, DateK, ['-'] + (num + unit)) ==
              if !clock.fits(x) || u.None? then None else Some(Scalar(0.0 - x * m, 0.0 - x * m, true))
  {
    hide NumberPrefixOf, NumeralValue, IsNumeral, UnitMultiplier, Lower, Counted;
    var text := num + unit;
    LongestIs(num, unit);
    OtherUnits(Lower(unit));
    CountedIs(clock, DurationK, x, u);
    if clock.fits(x) && u.Some? { BackIs(clock, x, m); }
    assert (['-'] + text)[0] == '-' && (['-'] + text)[1..] == text;
  }
}
