/** The leaf filters of a query: text and tag matchers, hash prefixes, flag masks and number
    intervals, each against a meaning that does not mention how it is compiled. */
module PqlLeaves {
  import opened Common
  import opened Glob
  import opened PqlValues

  // ----- text

  datatype Mode = Contains | Equals | Pattern

  datatype Matcher = Matcher(mode: Mode, needle: string)

  /** The needle agrees with the text from i on, ignoring ASCII case in the text. */
  predicate AgreesAt(text: string, needle: string, i: nat) {
    i + |needle| <= |text| && forall k :: 0 <= k < |needle| ==> LowerAscii(text[i + k]) == needle[k]
  }

  /** Whether a search for the needle ends before the end of the text: an empty needle is found at
      the start, which in an empty text is also the end. */
  predicate Found(text: string, needle: string) {
    exists i :: 0 <= i < |text| && AgreesAt(text, needle, i)
  }

  predicate MatcherMatches(m: Matcher, text: string) {
    match m.mode
    case Contains => Found(text, m.needle)
    case Equals => |text| == |m.needle| && AgreesAt(text, m.needle, 0)
    case Pattern => Matches(m.needle, text)
  }

  /** The search as a loop over start positions. */
  method Search(text: string, needle: string) returns (found: bool)
    ensures found <==> Found(text, needle)
  {
    var i := 0;
    while i < |text|
      invariant 0 <= i <= |text|
      invariant forall x :: 0 <= x < i ==> !AgreesAt(text, needle, x)
    {
      if AgreesAt(text, needle, i) { return true; }
      i := i + 1;
    }
    return false;
  }

  function MatcherOf(item: string, quoted: bool, default: Mode): Matcher {
    Matcher(if !quoted && '*' in item then Pattern else default, Lower(item))
  }

  method MatchersOf(v: Value, default: Mode) returns (ms: seq<Matcher>)
    ensures |ms| == |Items(v)| && forall i :: 0 <= i < |ms| ==> ms[i] == MatcherOf(Items(v)[i], v.quoted, default)
  {
    var items := ListOf(v);
    ms := [];
    for i := 0 to |items|
      invariant |ms| == i && forall x :: 0 <= x < i ==> ms[x] == MatcherOf(items[x], v.quoted, default)
    {
      ms := ms + [MatcherOf(items[i], v.quoted, default)];
    }
  }

  /** What one item of a text value asks of a text: an unquoted item with stars can be filled to spell
      it; otherwise the folded text is the folded item, or holds it and is not empty. */
  ghost predicate ItemMeans(item: string, quoted: bool, default: Mode, text: string) {
    if (!quoted && '*' in item) || default == Pattern then Spells(Lower(item), text)
    else if default == Equals then Lower(text) == Lower(item)
    else HoldsItem(item, text)
  }

  /** The folded item is a part of the folded text, which is not empty. */
  ghost predicate HoldsItem(item: string, text: string) { text != [] && exists i: nat :: PartIs(item, text, i) }

  ghost predicate PartIs(item: string, text: string, i: nat) {
    i + |item| <= |text| && Lower(text)[i..i + |item|] == Lower(item)
  }

  lemma AgreesIsPart(text: string, item: string, i: nat)
    ensures AgreesAt(text, Lower(item), i) <==> PartIs(item, text, i)
  {}

  lemma FoundIsHeld(text: string, item: string)
    ensures Found(text, Lower(item)) <==> HoldsItem(item, text)
  {
    if Found(text, Lower(item)) {
      var i :| 0 <= i < |text| && AgreesAt(text, Lower(item), i);
      AgreesIsPart(text, item, i);
    }
    if HoldsItem(item, text) {
      var i: nat :| PartIs(item, text, i);
      AgreesIsPart(text, item, i);
      AgreesIsPart(text, item, 0);
      if item == [] { assert AgreesAt(text, Lower(item), 0); }
    }
  }

  lemma EqualIsWhole(text: string, item: string)
    ensures |text| == |Lower(item)| && AgreesAt(text, Lower(item), 0) <==> Lower(text) == Lower(item)
  {}

  lemma MatcherMeansItem(item: string, quoted: bool, default: Mode, text: string)
    ensures MatcherMatches(MatcherOf(item, quoted, default), text) <==> ItemMeans(item, quoted, default, text)
  {
    hide Found, AgreesAt, HoldsItem, Matches, Spells, Lower, LowerAscii;
    MatchesIffFilled(Lower(item), text);
    FoundIsHeld(text, item);
    EqualIsWhole(text, item);
  }

  // ----- hashes

  type Byte = b: nat | b < 256

  function HexDigit(n: nat): char
    requires n < 16
  { "0123456789abcdef"[n] }

  /** The hex string of a hash. */
  ghost function HexOf(bytes: seq<Byte>): (r: string)
    ensures |r| == 2 * |bytes|
  {
    if bytes == [] then [] else [HexDigit(bytes[0] / 16), HexDigit(bytes[0] % 16)] + HexOf(bytes[1..])
  }

  function Nibble(bytes: seq<Byte>, i: nat): (n: nat)
    requires i < 2 * |bytes|
    ensures n < 16
  { if i % 2 == 0 then bytes[i / 2] / 16 else bytes[i / 2] % 16 }

  predicate HasHexPrefix(bytes: seq<Byte>, p: string) {
    |p| <= 2 * |bytes| && forall i :: 0 <= i < |p| ==> HexDigit(Nibble(bytes, i)) == p[i]
  }

  /** The comparison nibble by nibble. */
  method CheckPrefix(bytes: seq<Byte>, p: string) returns (r: bool)
    ensures r <==> HasHexPrefix(bytes, p)
  {
    if |p| > |bytes| * 2 { return false; }
    for i := 0 to |p|
      invariant forall x :: 0 <= x < i ==> HexDigit(Nibble(bytes, x)) == p[x]
    {
      var nibble := if i % 2 == 0 then bytes[i / 2] / 16 else bytes[i / 2] % 16;
      if HexDigit(nibble) != p[i] { return false; }
    }
    return true;
  }

  lemma {:induction false} HexAt(bytes: seq<Byte>, i: nat)
    requires i < 2 * |bytes|
    ensures HexOf(bytes)[i] == HexDigit(Nibble(bytes, i))
    decreases |bytes|
  {
    if i >= 2 {
      HexAt(bytes[1..], i - 2);
      assert Nibble(bytes[1..], i - 2) == Nibble(bytes, i);
    }
  }

  /** Comparing nibbles is comparing with the start of the hex string. */
  lemma PrefixOfHex(bytes: seq<Byte>, p: string)
    ensures HasHexPrefix(bytes, p) <==> p <= HexOf(bytes)
  {
    forall i | 0 <= i < 2 * |bytes| ensures HexOf(bytes)[i] == HexDigit(Nibble(bytes, i)) { HexAt(bytes, i); }
  }

  predicate IsHex(s: string) {
    forall i :: 0 <= i < |s| ==> '0' <= s[i] <= '9' || 'a' <= s[i] <= 'f' || 'A' <= s[i] <= 'F'
  }

  /** The digits count up from '0' and go on with 'a'; hex texts are those of such digits, in either case. */
  lemma HexDigits(n: nat, s: string)
    requires n < 16
    ensures HexDigit(n) as int == if n < 10 then '0' as int + n else 'a' as int + n - 10
    ensures IsHex(s) <==> forall i :: 0 <= i < |s| ==> exists d {:trigger HexDigit(d)} ::
                             0 <= d < 16 && LowerAscii(s[i]) == HexDigit(d)
  {
    DigitPlaces();
    forall c: char
      ensures ('0' <= c <= '9' || 'a' <= c <= 'f' || 'A' <= c <= 'F') <==> exists d {:trigger HexDigit(d)} ::
                0 <= d < 16 && LowerAscii(c) == HexDigit(d)
    {
      var small := LowerAscii(c) as int;
      if '0' as int <= small <= '9' as int {
        assert HexDigit(small - '0' as int) as int == small;
      } else if 'a' as int <= small <= 'f' as int {
        assert HexDigit(small - 'a' as int + 10) as int == small;
      }
    }
  }

  lemma DigitPlaces()
    ensures forall n {:trigger HexDigit(n)} :: 0 <= n < 16 ==>
              HexDigit(n) as int == if n < 10 then '0' as int + n else 'a' as int + n - 10
  {}

  // ----- flags

  /** A flag word as the set of its bits: `&` is intersection, `|` is union. */
  type Bits = set<nat>

  /** A named flag that must be set, or clear when negated. */
  datatype Flag = Flag(bits: Bits, negate: bool)

  predicate Holds(f: Flag, flags: Bits) { if f.negate then flags !! f.bits else f.bits <= flags }

  ghost predicate Disjoint(fs: seq<Flag>) { forall i, j :: 0 <= i < j < |fs| ==> fs[i].bits !! fs[j].bits }

  function MaskOf(fs: seq<Flag>): Bits {
    if fs == [] then {} else MaskOf(fs[..|fs| - 1]) + fs[|fs| - 1].bits
  }

  function WantOf(fs: seq<Flag>): Bits {
    if fs == [] then {}
    else if fs[|fs| - 1].negate then WantOf(fs[..|fs| - 1]) else WantOf(fs[..|fs| - 1]) + fs[|fs| - 1].bits
  }

  /** The mask meets some bits exactly when some flag already does. */
  lemma {:induction false} MaskMeets(fs: seq<Flag>, bits: Bits)
    ensures MaskOf(fs) !! bits <==> forall i :: 0 <= i < |fs| ==> fs[i].bits !! bits
    decreases |fs|
  {
    if fs != [] {
      var init := fs[..|fs| - 1];
      MaskMeets(init, bits);
      assert forall i :: 0 <= i < |init| ==> fs[i] == init[i];
    }
  }

  /** One comparison under the mask decides all flags at once. */
  lemma {:induction false} MaskDecidesAll(fs: seq<Flag>, flags: Bits)
    requires Disjoint(fs)
    ensures WantOf(fs) <= MaskOf(fs)
    ensures flags * MaskOf(fs) == WantOf(fs) <==> forall i :: 0 <= i < |fs| ==> Holds(fs[i], flags)
    decreases |fs|
  {
    if fs != [] {
      var init, last := fs[..|fs| - 1], fs[|fs| - 1];
      MaskDecidesAll(init, flags);
      MaskMeets(init, last.bits);
      MaskStep(flags, MaskOf(init), WantOf(init), last);
      assert forall i :: 0 <= i < |init| ==> fs[i] == init[i];
    }
  }

  lemma MaskStep(flags: Bits, mask: Bits, want: Bits, f: Flag)
    requires mask !! f.bits && want <= mask
    ensures flags * (mask + f.bits) == (if f.negate then want else want + f.bits) <==>
              flags * mask == want && Holds(f, flags)
  {}

  /** The item without its '~', and the flag it names. */
  function FlagName(item: string): string { Lower(if item != [] && item[0] == '~' then item[1..] else item) }

  function FlagOf(names: map<string, Bits>, item: string): Flag
    requires FlagName(item) in names
  { Flag(names[FlagName(item)], item != [] && item[0] == '~') }

  /** A name asks for its bits to be set and the name after a tilde for them to be clear, so that of a flag of one bit
      one asks for what the other does not. Names are told apart without regard to case. */
  lemma TildeIsComplement(names: map<string, Bits>, item: string, flags: Bits)
    requires (item == [] || item[0] != '~') && Lower(item) in names
    ensures FlagName(item) == FlagName(['~'] + item) == Lower(item)
    ensures Holds(FlagOf(names, item), flags) <==> names[Lower(item)] <= flags
    ensures Holds(FlagOf(names, ['~'] + item), flags) <==> names[Lower(item)] !! flags
    ensures forall bit {:trigger {bit}} :: names[Lower(item)] == {bit} ==>
              (Holds(FlagOf(names, ['~'] + item), flags) <==> !Holds(FlagOf(names, item), flags))
  {
    assert (['~'] + item)[1..] == item;
  }

  ghost function FlagsOf(names: map<string, Bits>, items: seq<string>): (fs: seq<Flag>)
    requires forall i :: 0 <= i < |items| ==> FlagName(items[i]) in names
    ensures |fs| == |items| && forall i :: 0 <= i < |fs| ==> fs[i] == FlagOf(names, items[i])
  {
    seq(|items|, i requires 0 <= i < |items| => FlagOf(names, items[i]))
  }

  ghost predicate FlagsOk(names: map<string, Bits>, items: seq<string>) {
    (forall i :: 0 <= i < |items| ==> FlagName(items[i]) in names) && Disjoint(FlagsOf(names, items))
  }

  /** Reads the list into a mask and the bits wanted under it; an unknown flag or one given twice fails. */
  method CompileFlags(names: map<string, Bits>, items: seq<string>) returns (r: Option<(Bits, Bits)>)
    ensures r.Some? <==> FlagsOk(names, items)
    ensures r.Some? ==> r.value == (MaskOf(FlagsOf(names, items)), WantOf(FlagsOf(names, items)))
  {
    hide MaskOf, WantOf, FlagName;
    var mask: Bits, want: Bits := {}, {};
    NoFlags();
    ghost var fs: seq<Flag> := [];
    for i := 0 to |items|
      invariant |fs| == i && Disjoint(fs) && mask == MaskOf(fs) && want == WantOf(fs)
      invariant forall x :: 0 <= x < i ==> FlagName(items[x]) in names && fs[x] == FlagOf(names, items[x])
    {
      if FlagName(items[i]) !in names { return None; }
      var flag := FlagOf(names, items[i]);
      MaskMeets(fs, flag.bits);
      DisjointIsNothingCommon(mask, flag.bits);
      if mask * flag.bits != {} {
        TwiceIsNotOk(names, items, fs, i);
        return None;
      }
      MaskAppend(fs, flag);
      mask := mask + flag.bits;
      if !flag.negate { want := want + flag.bits; }
      fs := fs + [flag];
    }
    assert fs == FlagsOf(names, items);
    return Some((mask, want));
  }

  lemma TwiceIsNotOk(names: map<string, Bits>, items: seq<string>, fs: seq<Flag>, n: nat)
    requires n == |fs| < |items| && FlagName(items[n]) in names
    requires forall x :: 0 <= x < n ==> FlagName(items[x]) in names && fs[x] == FlagOf(names, items[x])
    requires !forall x :: 0 <= x < n ==> fs[x].bits !! FlagOf(names, items[n]).bits
    ensures !FlagsOk(names, items)
  {}

  lemma DisjointIsNothingCommon(a: Bits, b: Bits)
    ensures a * b == {} <==> a !! b
  {
    if a * b == {} {
      forall x | x in a ensures x !in b {
        assert x in a * b <==> x in b;
      }
    }
  }

  lemma NoFlags()
    ensures MaskOf([]) == {} && WantOf([]) == {}
  {}

  lemma MaskAppend(fs: seq<Flag>, f: Flag)
    ensures MaskOf(fs + [f]) == MaskOf(fs) + f.bits
    ensures WantOf(fs + [f]) == if f.negate then WantOf(fs) else WantOf(fs) + f.bits
  {}

  // ----- numbers

  datatype Oper = Bare | Eq | Gt | Gte | Lt | Lte

  datatype Bound = Lowest | At(r: real) | Highest

  /** Bounds may be offsets from now, and open. */
  datatype Interval = Interval(lo: Bound, hi: Bound, loRelative: bool, hiRelative: bool, loOpen: bool, hiOpen: bool)

  function Shift(b: Bound, relative: bool, now: int): Bound { if relative && b.At? then At(now as real + b.r) else b }

  predicate Above(v: real, b: Bound, open: bool) {
    match b case Lowest => true case Highest => false case At(r) => if open then v > r else v >= r
  }

  predicate Below(v: real, b: Bound, open: bool) {
    match b case Lowest => false case Highest => true case At(r) => if open then v < r else v <= r
  }

  predicate InInterval(iv: Interval, v: real, now: int) {
    Above(v, Shift(iv.lo, iv.loRelative, now), iv.loOpen) && Below(v, Shift(iv.hi, iv.hiRelative, now), iv.hiOpen)
  }

  /** Where the first ".." starts, or the length when there is none. */
  function Dots(text: string): (n: nat)
    ensures n <= |text| && (n < |text| ==> n + 2 <= |text| && text[n] == '.' && text[n + 1] == '.')
    ensures forall i :: 0 <= i < n && i + 1 < |text| ==> !(text[i] == '.' && text[i + 1] == '.')
  {
    if |text| < 2 then |text|
    else if text[0] == '.' && text[1] == '.' then 0
    else
      Dots(text[1..]) + 1
  }

  function IntervalOf(oper: Oper, s: Scalar): Interval
    requires s.relative ==> oper != Eq
  {
    match oper
    case Bare => if s.relative then Interval(At(s.lo), Highest, true, false, false, false)
                 else Interval(At(s.lo), At(s.hi), false, false, false, false)
    case Eq => Interval(At(s.lo), At(s.hi), false, false, false, false)
    case Gt => Interval(At(s.hi), Highest, s.relative, false, true, false)
    case Gte => Interval(At(s.lo), Highest, s.relative, false, false, false)
    case Lt => Interval(Lowest, At(s.lo), false, s.relative, false, true)
    case Lte => Interval(Lowest, At(s.hi), false, s.relative, false, false)
  }

  function BuildInterval(clock: Clock, buildTime: int, kind: Kind, oper: Oper, value: Value): Option<Interval> {
    var text := value.text;
    var dots := Dots(text);
    if !value.quoted && (',' in text || '*' in text) then None
    else if !value.quoted && dots < |text| then
      if oper != Bare then None
      else match (ParseScalar(clock, kind, text[..dots]), ParseScalar(clock, kind, text[dots + 2..]))
        case (Some(a), Some(b)) =>
          if Lo(a, buildTime) > Hi(b, buildTime) then None
          else Some(Interval(At(a.lo), At(b.hi), a.relative, b.relative, false, false))
        case _ => None
    else match ParseScalar(clock, kind, text)
      case None => None
      case Some(s) => if s.relative && oper == Eq then None else Some(IntervalOf(oper, s))
  }

  /** "-7d" and its like: unless it is asked to be equal it compiles, and against the instant so long before the time of
      the query it selects by the operator, from then on when there is none. */
  lemma AgoMeans(clock: Clock, buildTime: int, oper: Oper, num: string, unit: string, quoted: bool, v: real, now: int,
                 x: real, u: real)
    requires IsNumeral(num) && Lower(unit) in TIMES
    requires x == NumeralValue(num) && clock.fits(x) && DurationUnit(Lower(unit)) == Some(u)
    ensures var value := Value(['-'] + (num + unit), quoted);
            && (NumberOk(clock, buildTime, DateK, oper, value) <==> oper != Eq)
            && var ago := now as real - x * u;
               NumberMeans(clock, DateK, oper, value, v, now) <==>
                 match oper
                 case Bare => v >= ago
                 case Eq => v == ago
                 case Gt => v > ago
                 case Gte => v >= ago
                 case Lt => v < ago
                 case Lte => v <= ago
  {
    hide ParseScalar, DurationUnit, Lower, IsNumeral, NumeralValue;
    var text := num + unit;
    AgoText(num, unit);
    AgoIs(clock, num, unit, x, Some(u), u);
    var value := Value(['-'] + text, quoted);
    var s := Scalar(0.0 - x * u, 0.0 - x * u, true);
    assert Dots(value.text) == |value.text| && ParseScalar(clock, DateK, value.text) == Some(s);
    assert NumberMeans(clock, DateK, oper, value, v, now) <==> Compares(oper, s, v, now);
    ComparesInstant(oper, x * u, v, now);
  }

  lemma ComparesInstant(oper: Oper, back: real, v: real, now: int)
    ensures var ago := now as real - back;
            Compares(oper, Scalar(0.0 - back, 0.0 - back, true), v, now) <==>
              match oper
              case Bare => v >= ago
              case Eq => v == ago
              case Gt => v > ago
              case Gte => v >= ago
              case Lt => v < ago
              case Lte => v <= ago
  {}

  /** Such a text holds no range, list or pattern, and its numeral ends where the unit starts. */
  lemma AgoText(num: string, unit: string)
    requires IsNumeral(num) && Lower(unit) in TIMES
    ensures var text := ['-'] + (num + unit);
            ',' !in text && '*' !in text && forall i :: 0 <= i < |text| - 1 ==> !(text[i] == '.' && text[i + 1] == '.')
    ensures forall k :: |num| < k <= |num + unit| ==> !IsNumeral((num + unit)[..k])
  {
    OnlyLetters(unit);
    DigitsAndPoint(num);
    forall k | |num| < k <= |num + unit| ensures !IsNumeral((num + unit)[..k]) {
      var s := (num + unit)[..k];
      assert s[|num|] == unit[0];
      if IsNumeral(s) { DigitsAndPoint(s); assert false; }
    }
  }

  lemma OnlyLetters(unit: string)
    requires Lower(unit) in TIMES
    ensures forall i :: 0 <= i < |unit| ==> !IsDigit(unit[i]) && unit[i] != '.' && unit[i] != ',' && unit[i] != '*'
  {
    var small := Lower(unit);
    assert forall i :: 0 <= i < |small| ==> 'a' <= small[i] <= 'z';
    assert forall i :: 0 <= i < |unit| ==> small[i] == LowerAscii(unit[i]);
  }

  lemma DigitsAndPoint(num: string)
    requires IsNumeral(num)
    ensures forall i :: 0 <= i < |num| ==> IsDigit(num[i]) || num[i] == '.'
    ensures forall i :: 0 <= i < |num| - 1 ==> !(num[i] == '.' && num[i + 1] == '.')
  {
    if !AllDigits(num) {
      var k :| 0 < k < |num| - 1 && num[k] == '.' && AllDigits(num[..k]) && AllDigits(num[k + 1..]);
      assert forall i :: 0 <= i < k ==> num[i] == num[..k][i];
      assert forall i :: k < i < |num| ==> num[i] == num[k + 1..][i - k - 1];
    }
  }

  /** The ends of what a scalar covers at a given time. */
  function Lo(s: Scalar, now: int): real { if s.relative then now as real + s.lo else s.lo }

  function Hi(s: Scalar, now: int): real { if s.relative then now as real + s.hi else s.hi }

  /** What an operator asks of a value next to the span a scalar covers; a bare relative time means
      "since then", every other bare scalar the span itself. */
  ghost predicate Compares(oper: Oper, s: Scalar, v: real, now: int) {
    match oper
    case Gt => v > Hi(s, now)
    case Gte => v >= Lo(s, now)
    case Lt => v < Lo(s, now)
    case Lte => v <= Hi(s, now)
    case Eq => Lo(s, now) <= v <= Hi(s, now)
    case Bare => Lo(s, now) <= v && (s.relative || v <= Hi(s, now))
  }

  /** A range a..b asks for >=a and <=b; anything else is one comparison. */
  ghost predicate NumberMeans(clock: Clock, kind: Kind, oper: Oper, value: Value, v: real, now: int) {
    var dots := Dots(value.text);
    if !value.quoted && dots < |value.text| then
      var a, b := ParseScalar(clock, kind, value.text[..dots]), ParseScalar(clock, kind, value.text[dots + 2..]);
      a.Some? && b.Some? && Compares(Gte, a.value, v, now) && Compares(Lte, b.value, v, now)
    else
      var s := ParseScalar(clock, kind, value.text);
      s.Some? && Compares(oper, s.value, v, now)
  }

  /** What a number or date may ask for: no list and no pattern, and either a range of two scalars that is not
      reversed at the time it is built and has no operator, or one scalar, which is not equal to a relative time. */
  ghost predicate NumberOk(clock: Clock, buildTime: int, kind: Kind, oper: Oper, value: Value) {
    var dots := Dots(value.text);
    && (!value.quoted ==> ',' !in value.text && '*' !in value.text)
    && if !value.quoted && dots < |value.text| then
         var a, b := ParseScalar(clock, kind, value.text[..dots]), ParseScalar(clock, kind, value.text[dots + 2..]);
         oper == Bare && a.Some? && b.Some? && Lo(a.value, buildTime) <= Hi(b.value, buildTime)
       else
         var s := ParseScalar(clock, kind, value.text);
         s.Some? && (s.value.relative ==> oper != Eq)
  }

  lemma IntervalMeansNumber(clock: Clock, buildTime: int, kind: Kind, oper: Oper, value: Value, v: real, now: int)
    ensures var iv := BuildInterval(clock, buildTime, kind, oper, value);
            && (iv.Some? <==> NumberOk(clock, buildTime, kind, oper, value))
            && (iv.Some? ==> (InInterval(iv.value, v, now) <==> NumberMeans(clock, kind, oper, value, v, now)))
  {
    hide ParseScalar, Dots;
    if BuildInterval(clock, buildTime, kind, oper, value).Some? && (value.quoted || Dots(value.text) >= |value.text|) {
      ComparesIsInterval(oper, ParseScalar(clock, kind, value.text).value, v, now);
    }
  }

  lemma ComparesIsInterval(oper: Oper, s: Scalar, v: real, now: int)
    requires oper == Eq ==> !s.relative
    ensures InInterval(IntervalOf(oper, s), v, now) <==> Compares(oper, s, v, now)
  {}

  /** Nothing before the first ".." holds one. */
  lemma {:induction false} NoDotsBefore(text: string)
    ensures Dots(text[..Dots(text)]) == Dots(text)
    decreases |text|
  {
    if |text| >= 2 && !(text[0] == '.' && text[1] == '.') {
      var n := Dots(text[1..]);
      NoDotsBefore(text[1..]);
      assert text[..n + 1][1..] == text[1..][..n];
      if n >= 1 { assert text[..n + 1][0] == text[0] && text[..n + 1][1] == text[1]; }
    } else {
      assert text[..|text|] == text;
    }
  }

  /** A range means its two bounds as separate qualifiers. */
  lemma RangeIsBothBounds(clock: Clock, buildTime: int, kind: Kind, text: string, v: real, now: int)
    requires Dots(text) < |text| && Dots(text[Dots(text) + 2..]) == |text| - Dots(text) - 2
    requires BuildInterval(clock, buildTime, kind, Bare, Value(text, false)).Some?
    ensures var lower := BuildInterval(clock, buildTime, kind, Gte, Value(text[..Dots(text)], false));
            var upper := BuildInterval(clock, buildTime, kind, Lte, Value(text[Dots(text) + 2..], false));
            var range := BuildInterval(clock, buildTime, kind, Bare, Value(text, false));
            && lower.Some? && upper.Some?
            && (InInterval(range.value, v, now) <==> InInterval(lower.value, v, now) && InInterval(upper.value, v, now))
  {
    hide ParseScalar, Dots, BuildInterval;
    NoDotsBefore(text);
    var a, b := text[..Dots(text)], text[Dots(text) + 2..];
    BuildsRange(clock, buildTime, kind, text);
    BuildsBound(clock, buildTime, kind, Gte, a);
    BuildsBound(clock, buildTime, kind, Lte, b);
  }

  lemma BuildsRange(clock: Clock, buildTime: int, kind: Kind, text: string)
    requires Dots(text) < |text| && BuildInterval(clock, buildTime, kind, Bare, Value(text, false)).Some?
    ensures var a, b := ParseScalar(clock, kind, text[..Dots(text)]), ParseScalar(clock, kind, text[Dots(text) + 2..]);
            && a.Some? && b.Some? && ',' !in text && '*' !in text
            && BuildInterval(clock, buildTime, kind, Bare, Value(text, false)).value
            == Interval(At(a.value.lo), At(b.value.hi), a.value.relative, b.value.relative, false, false)
  {}

  lemma BuildsBound(clock: Clock, buildTime: int, kind: Kind, oper: Oper, text: string)
    requires Dots(text) == |text| && ',' !in text && '*' !in text && ParseScalar(clock, kind, text).Some? && oper != Eq
    ensures BuildInterval(clock, buildTime, kind, oper, Value(text, false)) ==
              Some(IntervalOf(oper, ParseScalar(clock, kind, text).value))
  {}
}
