/** Points in simulation time: arithmetic, display text and protocol text. */
module Times {
  import opened Wrappers
  import opened Decimal
  import opened Texts

  const RESOLUTION: int := 1_000_000_000_000_000

  /** BigInt division and remainder truncate toward zero. */
  function TruncDiv(n: int, d: int): int
    requires d > 0
  {
    if n < 0 then -(-n / d) else n / d
  }

  function TruncMod(n: int, d: int): int
    requires d > 0
  {
    if n < 0 then -(-n % d) else n % d
  }

  datatype SyntaxError = SyntaxError(text: string)

  /** A number of femtoseconds since the beginning of time. */
  datatype TimePoint = TimePoint(raw: int) {

    static function Of(secs: int, femtos: int): TimePoint {
      TimePoint(secs * RESOLUTION + femtos)
    }

    function Secs(): int { TruncDiv(raw, RESOLUTION) }

    function Femtos(): int { TruncMod(raw, RESOLUTION) }

    function OffsetByFemtos(femtos: int): TimePoint {
      Of(Secs(), Femtos() + femtos)
    }

    function ToCXXRTL(): string {
      PrintInt(Secs()) + "." + PadStart(PrintInt(Femtos()), 15)
    }

    function ToText(): string {
      if TruncMod(raw, 1_000_000_000_000_000) == 0 then Grouped(TruncDiv(raw, 1_000_000_000_000_000)) + "s"
      else if TruncMod(raw, 1_000_000_000_000) == 0 then Grouped(TruncDiv(raw, 1_000_000_000_000)) + "ms"
      else if TruncMod(raw, 1_000_000_000) == 0 then Grouped(TruncDiv(raw, 1_000_000_000)) + "us"
      else if TruncMod(raw, 1_000_000) == 0 then Grouped(TruncDiv(raw, 1_000_000)) + "ns"
      else if TruncMod(raw, 1_000) == 0 then Grouped(TruncDiv(raw, 1_000)) + "ps"
      else Grouped(raw) + "fs"
    }
  }

  /** Splitting at a second boundary and adding never loses a femtosecond, on either side of zero. */
  lemma OffsetIsExact(t: TimePoint, femtos: int)
    ensures t.OffsetByFemtos(femtos).raw == t.raw + femtos
    ensures TimePoint.Of(t.Secs(), t.Femtos()) == t
    ensures -RESOLUTION < t.Femtos() < RESOLUTION && (t.raw >= 0 <==> t.Secs() >= 0 && t.Femtos() >= 0)
  {
    if t.raw < 0 {
      assert -t.raw == (-t.raw / RESOLUTION) * RESOLUTION + -t.raw % RESOLUTION;
    }
  }

  // ---------------------------------------------------------------- grouped display

  function Pad3(s: string): string { PadStart(s, 3) }

  /** A number with a comma before every third digit from the right. */
  function Grouped(num: int): string
    decreases if num < 0 then -num else num
  {
    if -1000 < num < 1000 then PrintInt(num)
    else Grouped(TruncDiv(num, 1000)) + "," + Pad3(PrintInt(TruncMod(num, 1000)))
  }

  /** The base-1000 digits of a number, least significant first. */
  function Thousands(num: int): seq<string>
    decreases if num < 0 then -num else num
  {
    if num == 0 then [] else [PrintInt(TruncMod(num, 1000))] + Thousands(TruncDiv(num, 1000))
  }

  function PadAllButLast(groups: seq<string>): (padded: seq<string>)
    ensures |padded| == |groups|
  {
    seq(|groups|, i requires 0 <= i < |groups| => if i == |groups| - 1 then groups[i] else Pad3(groups[i]))
  }

  function Reverse<T>(s: seq<T>): (r: seq<T>)
    ensures |r| == |s|
  {
    if s == [] then [] else Reverse(s[1..]) + [s[0]]
  }

  lemma {:induction false} ThousandsAreGroups(num: int)
    requires num != 0
    ensures Thousands(num) != []
    ensures Join(Reverse(PadAllButLast(Thousands(num))), ",") == Grouped(num)
    decreases if num < 0 then -num else num
  {
    var gs := Thousands(num);
    var high := TruncDiv(num, 1000);
    if -1000 < num < 1000 {
      assert gs == [PrintInt(num)];
      assert Reverse(PadAllButLast(gs)) == [PrintInt(num)];
    } else {
      ThousandsAreGroups(high);
      var rest := PadAllButLast(Thousands(high));
      assert PadAllButLast(gs)[0] == Pad3(PrintInt(TruncMod(num, 1000)));
      assert PadAllButLast(gs)[1..] == rest;
      var r := Reverse(PadAllButLast(gs));
      assert r[..|r| - 1] == Reverse(rest);
    }
  }

  method GroupDecimals(num: int) returns (text: string)
    ensures text == Grouped(num)
  {
    var groups: seq<string> := [];
    if num == 0 {
      groups := groups + ["0"];
    } else {
      var n := num;
      while n != 0
        invariant groups + Thousands(n) == Thousands(num)
        decreases if n < 0 then -n else n
      {
        assert groups + Thousands(n) == groups + [PrintInt(TruncMod(n, 1000))] + Thousands(TruncDiv(n, 1000));
        groups := groups + [PrintInt(TruncMod(n, 1000))];
        n := TruncDiv(n, 1000);
      }
      assert groups == Thousands(num);
      ThousandsAreGroups(num);
    }
    text := Join(Reverse(PadAllButLast(groups)), ",");
    if num == 0 {
      assert Reverse(PadAllButLast(groups)) == ["0"];
    }
  }

  method ToString(t: TimePoint) returns (text: string)
    ensures text == t.ToText()
    ensures t.raw >= 0 ==> FromString(StripCommas(text)) == Ok(t)
  {
    if t.raw >= 0 { DisplayIsLossless(t); }
    var suffix := "fs";
    var units := t.raw;
    if TruncMod(t.raw, 1_000_000_000_000_000) == 0 {
      units, suffix := TruncDiv(t.raw, 1_000_000_000_000_000), "s";
    } else if TruncMod(t.raw, 1_000_000_000_000) == 0 {
      units, suffix := TruncDiv(t.raw, 1_000_000_000_000), "ms";
    } else if TruncMod(t.raw, 1_000_000_000) == 0 {
      units, suffix := TruncDiv(t.raw, 1_000_000_000), "us";
    } else if TruncMod(t.raw, 1_000_000) == 0 {
      units, suffix := TruncDiv(t.raw, 1_000_000), "ns";
    } else if TruncMod(t.raw, 1_000) == 0 {
      units, suffix := TruncDiv(t.raw, 1_000), "ps";
    }
    var grouped := GroupDecimals(units);
    text := grouped + suffix;
  }

  datatype Unit = Second | Milli | Micro | Nano | Pico | Femto {

    function InFemtos(): (f: int)
      ensures f > 0
    {
      match this
      case Second => 1_000_000_000_000_000
      case Milli => 1_000_000_000_000
      case Micro => 1_000_000_000
      case Nano => 1_000_000
      case Pico => 1_000
      case Femto => 1
    }

    function Suffix(): string {
      match this
      case Second => "s"
      case Milli => "ms"
      case Micro => "us"
      case Nano => "ns"
      case Pico => "ps"
      case Femto => "fs"
    }
  }

  /** Division by a unit truncates toward zero: the remainder is smaller than the unit and has the sign of the
      dividend. */
  lemma TruncatesTowardZero(n: int, unit: Unit)
    ensures var d := unit.InFemtos();
            && n == TruncDiv(n, d) * d + TruncMod(n, d) && -d < TruncMod(n, d) < d
            && (n >= 0 ==> TruncMod(n, d) >= 0) && (n <= 0 ==> TruncMod(n, d) <= 0)
  {
    match unit
    case Second => assert unit.InFemtos() == 1_000_000_000_000_000;
    case Milli => assert unit.InFemtos() == 1_000_000_000_000;
    case Micro => assert unit.InFemtos() == 1_000_000_000;
    case Nano => assert unit.InFemtos() == 1_000_000;
    case Pico => assert unit.InFemtos() == 1_000;
    case Femto => assert unit.InFemtos() == 1;
  }

  /** The display shows a whole number of the largest unit that divides the time. */
  lemma DisplayUsesCoarsestUnit(t: TimePoint) returns (unit: Unit)
    ensures TruncMod(t.raw, unit.InFemtos()) == 0
    ensures forall u: Unit :: u.InFemtos() > unit.InFemtos() ==> TruncMod(t.raw, u.InFemtos()) != 0
    ensures t.ToText() == Grouped(TruncDiv(t.raw, unit.InFemtos())) + unit.Suffix()
    ensures t.raw == TruncDiv(t.raw, unit.InFemtos()) * unit.InFemtos()
  {
    unit :=
      if TruncMod(t.raw, 1_000_000_000_000_000) == 0 then Second
      else if TruncMod(t.raw, 1_000_000_000_000) == 0 then Milli
      else if TruncMod(t.raw, 1_000_000_000) == 0 then Micro
      else if TruncMod(t.raw, 1_000_000) == 0 then Nano
      else if TruncMod(t.raw, 1_000) == 0 then Pico
      else Femto;
  }

  // ---------------------------------------------------------------- reading display text

  function StripCommas(s: string): string { StripFirst(s, |s|) }

  /** The first n characters without their commas. */
  function StripFirst(s: string, n: nat): string
    requires n <= |s|
  {
    if n == 0 then "" else if s[n - 1] == ',' then StripFirst(s, n - 1) else StripFirst(s, n - 1) + [s[n - 1]]
  }

  /** White space as regular expressions of the source language define it. */
  predicate IsSpace(c: char) {
    c in ['\t', '\n', '\U{000B}', '\U{000C}', '\r', ' ', '\U{00A0}', '\U{1680}', '\U{2028}', '\U{2029}',
          '\U{202F}', '\U{205F}', '\U{3000}', '\U{FEFF}']
    || '\U{2000}' <= c <= '\U{200A}'
  }

  predicate AllSpaces(s: string) { forall i | 0 <= i < |s| :: IsSpace(s[i]) }

  function DigitsPrefix(s: string): (k: nat)
    ensures k <= |s| && (forall i | 0 <= i < k :: IsDigit(s[i])) && (k < |s| ==> !IsDigit(s[k]))
  {
    if s == "" || !IsDigit(s[0]) then 0 else 1 + DigitsPrefix(s[1..])
  }

  function SpacesPrefix(s: string): (k: nat)
    ensures k <= |s| && (forall i | 0 <= i < k :: IsSpace(s[i])) && (k < |s| ==> !IsSpace(s[k]))
  {
    if s == "" || !IsSpace(s[0]) then 0 else 1 + SpacesPrefix(s[1..])
  }

  function UnitOfSuffix(s: string): Option<Unit> {
    if s == "s" then Some(Second)
    else if s == "ms" then Some(Milli)
    else if s == "us" then Some(Micro)
    else if s == "ns" then Some(Nano)
    else if s == "ps" then Some(Pico)
    else if s == "fs" then Some(Femto)
    else None
  }

  function FromString(value: string): Result<TimePoint, SyntaxError> {
    var d := DigitsPrefix(value);
    var w := SpacesPrefix(value[d..]);
    var unit := UnitOfSuffix(value[d..][w..]);
    if d == 0 || unit.None? then Err(SyntaxError(value))
    else
      StripKeepsDigits(value[..d]);
      Ok(InUnit(Read(StripCommas(value[..d])), unit.value))
  }

  function InUnit(mantissa: nat, unit: Unit): (t: TimePoint)
    ensures t.raw == mantissa * unit.InFemtos()
  {
    match unit
    case Second => TimePoint.Of(mantissa, 0)
    case Milli => TimePoint.Of(0, mantissa * 1_000_000_000_000)
    case Micro => TimePoint.Of(0, mantissa * 1_000_000_000)
    case Nano => TimePoint.Of(0, mantissa * 1_000_000)
    case Pico => TimePoint.Of(0, mantissa * 1_000)
    case Femto => TimePoint.Of(0, mantissa)
  }

  lemma {:induction false} StripKeepsOthers(s: string, n: nat)
    requires n <= |s| && forall i | 0 <= i < n :: s[i] != ','
    ensures StripFirst(s, n) == s[..n]
  {
    if n > 0 { StripKeepsOthers(s, n - 1); }
  }

  lemma StripKeepsDigits(s: string)
    requires AllDigits(s)
    ensures StripCommas(s) == s
  {
    StripKeepsOthers(s, |s|);
    assert s[..|s|] == s;
  }

  /** What the pattern of the source accepts: digits, white space, a unit, and nothing else. */
  ghost predicate TimeText(s: string, digits: string, spaces: string, unit: Unit) {
    s == digits + spaces + unit.Suffix() && digits != "" && AllDigits(digits) && AllSpaces(spaces)
  }

  lemma PrefixUnique(s: string, d: nat, digits: string, rest: string)
    requires s == digits + rest && AllDigits(digits) && rest != "" && !IsDigit(rest[0])
    requires d == DigitsPrefix(s)
    ensures d == |digits|
  {
    assert forall i | 0 <= i < |digits| :: s[i] == digits[i];
    assert s[|digits|] == rest[0];
  }

  lemma JoinedSlices(a: string, b: string, c: string)
    ensures var s := a + b + c;
            s == a + (b + c) && s[..|a|] == a && s[|a|..] == b + c && (b + c)[|b|..] == c
  {
  }

  lemma TimeTextParses(s: string, digits: string, spaces: string, unit: Unit)
    requires TimeText(s, digits, spaces, unit)
    ensures FromString(s) == Ok(TimePoint(Read(digits) * unit.InFemtos()))
  {
    var rest := spaces + unit.Suffix();
    JoinedSlices(digits, spaces, unit.Suffix());
    PrefixUnique(s, DigitsPrefix(s), digits, rest);
    SpacesUnique(rest, spaces, unit);
    SuffixNamesUnit(unit);
    StripKeepsDigits(digits);
    assert FromString(s) == Ok(InUnit(Read(digits), unit));
  }

  lemma SuffixNamesUnit(unit: Unit)
    ensures UnitOfSuffix(unit.Suffix()) == Some(unit)
  {
    match unit
    case Second =>
    case Milli => assert "ms"[0] == 'm';
    case Micro => assert "us"[0] == 'u';
    case Nano => assert "ns"[0] == 'n';
    case Pico => assert "ps"[0] == 'p';
    case Femto => assert "fs"[0] == 'f';
  }

  lemma SpacesUnique(s: string, spaces: string, unit: Unit)
    requires s == spaces + unit.Suffix() && AllSpaces(spaces)
    ensures SpacesPrefix(s) == |spaces|
  {
    assert forall i | 0 <= i < |spaces| :: s[i] == spaces[i];
    assert s[|spaces|] == unit.Suffix()[0];
  }

  lemma UnitHasSuffix(s: string)
    ensures UnitOfSuffix(s).Some? ==> UnitOfSuffix(s).value.Suffix() == s
  {
  }

  lemma ThreeSlices(s: string, d: nat, w: nat)
    requires d <= |s| && w <= |s[d..]|
    ensures s == s[..d] + s[d..][..w] + s[d..][w..]
  {
  }

  lemma AcceptedIsTimeText(s: string)
    requires FromString(s).Ok?
    ensures exists digits, spaces, unit :: TimeText(s, digits, spaces, unit)
  {
    var d := DigitsPrefix(s);
    var w := SpacesPrefix(s[d..]);
    var unit := UnitOfSuffix(s[d..][w..]).value;
    UnitHasSuffix(s[d..][w..]);
    ThreeSlices(s, d, w);
    assert TimeText(s, s[..d], s[d..][..w], unit);
  }

  /** The units by the names that users write. */
  predicate UnitName(name: string, femtos: nat) {
    || (name == "s" && femtos == 1_000_000_000_000_000)
    || (name == "ms" && femtos == 1_000_000_000_000)
    || (name == "us" && femtos == 1_000_000_000)
    || (name == "ns" && femtos == 1_000_000)
    || (name == "ps" && femtos == 1_000)
    || (name == "fs" && femtos == 1)
  }

  /** A number and the name of a unit are accepted, with a space between or not, and mean so many of it. */
  lemma UnitsByName(n: nat, name: string, femtos: nat)
    requires UnitName(name, femtos)
    ensures FromString(Print(n) + name) == FromString(Print(n) + " " + name) == Ok(TimePoint(n * femtos))
  {
    var unit := NamedUnit(name, femtos);
    SpaceAllowed(n, unit);
  }

  lemma NamedUnit(name: string, femtos: nat) returns (unit: Unit)
    requires UnitName(name, femtos)
    ensures unit.Suffix() == name && unit.InFemtos() == femtos
  {
    unit :=
      if name == "s" then Second
      else if name == "ms" then Milli
      else if name == "us" then Micro
      else if name == "ns" then Nano
      else if name == "ps" then Pico
      else Femto;
  }

  lemma SpaceAllowed(n: nat, unit: Unit)
    ensures FromString(Print(n) + unit.Suffix()) == Ok(TimePoint(n * unit.InFemtos()))
    ensures FromString(Print(n) + " " + unit.Suffix()) == Ok(TimePoint(n * unit.InFemtos()))
  {
    PrintThenRead(n);
    NothingBetween(Print(n), unit.Suffix());
    TimeTextParses(Print(n) + "" + unit.Suffix(), Print(n), "", unit);
    TimeTextParses(Print(n) + " " + unit.Suffix(), Print(n), " ", unit);
  }

  /** White space is what regular expressions of the source language take for it. */
  lemma WhiteSpace(c: char)
    ensures IsSpace(c) <==> c as int in {9, 10, 11, 12, 13, 32, 0xA0, 0x1680, 0x2000, 0x2001, 0x2002, 0x2003, 0x2004,
                                        0x2005, 0x2006, 0x2007, 0x2008, 0x2009, 0x200A, 0x2028, 0x2029, 0x202F, 0x205F,
                                        0x3000, 0xFEFF}
  {
  }

  /** Reading accepts exactly the pattern, with exactly the value it denotes. */
  lemma FromStringAcceptsExactly(s: string)
    ensures FromString(s).Ok? <==> exists digits, spaces, unit :: TimeText(s, digits, spaces, unit)
    ensures forall digits, spaces, unit :: TimeText(s, digits, spaces, unit) ==>
              FromString(s) == Ok(TimePoint(Read(digits) * unit.InFemtos()))
  {
    if FromString(s).Ok? { AcceptedIsTimeText(s); }
    forall digits, spaces, unit | TimeText(s, digits, spaces, unit)
      ensures FromString(s) == Ok(TimePoint(Read(digits) * unit.InFemtos()))
    {
      TimeTextParses(s, digits, spaces, unit);
    }
  }

  // ---------------------------------------------------------------- display is lossless

  lemma {:induction false} StripFrame(a: string, b: string, n: nat)
    requires n <= |a| && n <= |b| && forall i | 0 <= i < n :: a[i] == b[i]
    ensures StripFirst(a, n) == StripFirst(b, n)
  {
    if n > 0 { StripFrame(a, b, n - 1); }
  }

  lemma {:induction false} StripDistributes(a: string, b: string, n: nat)
    requires n <= |b|
    ensures StripFirst(a + b, |a| + n) == StripCommas(a) + StripFirst(b, n)
  {
    if n == 0 { StripFrame(a, a + b, |a|); } else { StripDistributes(a, b, n - 1); }
  }

  lemma StripBoth(a: string, b: string)
    ensures StripCommas(a + b) == StripCommas(a) + StripCommas(b)
  {
    StripDistributes(a, b, |b|);
  }

  lemma StripCommaBetween(a: string, b: string)
    ensures StripCommas(a + "," + b) == StripCommas(a) + StripCommas(b)
  {
    StripBoth(a + ",", b);
    StripBoth(a, ",");
    assert StripFirst(",", 1) == StripFirst(",", 0);
  }

  lemma PrintSmall(m: nat)
    requires m < 1000
    ensures Pad3(Print(m)) == [DigitChar(m / 100), DigitChar(m / 10 % 10), DigitChar(m % 10)]
  {
    if m >= 100 {
      assert Print(m) == Print(m / 10) + [DigitChar(m % 10)];
      assert Print(m / 10) == Print(m / 10 / 10) + [DigitChar(m / 10 % 10)];
    } else if m >= 10 {
      assert Print(m) == Print(m / 10) + [DigitChar(m % 10)];
    }
  }

  lemma ThousandDigits(n: nat)
    ensures n / 10 / 10 / 10 == n / 1000
    ensures n % 1000 % 10 == n % 10 && n % 1000 / 10 % 10 == n / 10 % 10 && n % 1000 / 100 == n / 10 / 10 % 10
  {
  }

  lemma PrintTens(n: nat)
    requires n >= 10
    ensures Print(n) == Print(n / 10) + [DigitChar(n % 10)]
  {
  }

  lemma PrintByThousands(n: nat)
    requires n >= 1000
    ensures Print(n) == Print(n / 1000) + Pad3(Print(n % 1000))
  {
    var a, b, c := DigitChar(n / 10 / 10 % 10), DigitChar(n / 10 % 10), DigitChar(n % 10);
    var high := Print(n / 1000);
    assert Pad3(Print(n % 1000)) == [a, b, c] by {
      PrintSmall(n % 1000);
      ThousandDigits(n);
    }
    assert Print(n) == high + [a] + [b] + [c] by {
      ThousandDigits(n);
      PrintTens(n);
      PrintTens(n / 10);
      PrintTens(n / 10 / 10);
    }
  }

  /** A comma stands before every third digit from the right and nowhere else. */
  lemma {:induction false} CommaEveryThird(n: nat, i: nat)
    requires i < |Grouped(n)|
    ensures Grouped(n)[i] == ',' <==> (|Grouped(n)| - i) % 4 == 0
  {
    if n < 1000 {
      assert Pow10(3) == 1000;
      PrintLength(n, 3);
      PrintThenRead(n);
    } else {
      var low := GroupedUnfolds(n);
      if i < |Grouped(n / 1000)| { CommaEveryThird(n / 1000, i); }
      CommaInFront(Grouped(n / 1000), low, i);
    }
  }

  lemma GroupedUnfolds(n: nat) returns (low: string)
    requires n >= 1000
    ensures Grouped(n) == Grouped(n / 1000) + "," + low && |low| == 3 && AllDigits(low)
  {
    low := Pad3(Print(n % 1000));
    PrintSmall(n % 1000);
    ReadPadded(n % 1000, 3);
  }

  lemma CommaInFront(high: string, low: string, i: nat)
    requires |low| == 3 && AllDigits(low) && i < |high| + 4
    requires i < |high| ==> (high[i] == ',' <==> (|high| - i) % 4 == 0)
    ensures var s := high + "," + low; |s| == |high| + 4 && (s[i] == ',' <==> (|s| - i) % 4 == 0)
  {
    var s := high + "," + low;
    if i > |high| { assert s[i] == low[i - |high| - 1]; }
  }

  /** The commas are the only difference between the grouped and the plain decimal. */
  lemma {:induction false} GroupedStripsToPrint(n: nat)
    ensures StripCommas(Grouped(n)) == Print(n)
  {
    PrintThenRead(n);
    if n < 1000 {
      StripKeepsDigits(Print(n));
    } else {
      var low := Pad3(Print(n % 1000));
      var high := Grouped(n / 1000);
      GroupedStripsToPrint(n / 1000);
      PrintByThousands(n);
      ReadPadded(n % 1000, 3);
      StripKeepsDigits(low);
      StripCommaBetween(high, low);
    }
  }

  lemma StripKeepsSuffix(unit: Unit)
    ensures StripCommas(unit.Suffix()) == unit.Suffix()
  {
    var s := unit.Suffix();
    StripKeepsOthers(s, |s|);
    assert s[..|s|] == s;
  }

  lemma GroupedTextStrips(m: nat, unit: Unit)
    ensures StripCommas(Grouped(m) + unit.Suffix()) == Print(m) + unit.Suffix()
  {
    GroupedStripsToPrint(m);
    StripBoth(Grouped(m), unit.Suffix());
    StripKeepsSuffix(unit);
  }

  lemma PlainTextParses(m: nat, unit: Unit)
    ensures FromString(Print(m) + unit.Suffix()) == Ok(TimePoint(m * unit.InFemtos()))
  {
    PrintThenRead(m);
    NothingBetween(Print(m), unit.Suffix());
    TimeTextParses(Print(m) + "" + unit.Suffix(), Print(m), "", unit);
  }

  /** Deleting the grouping commas makes the display read back as the time displayed. */
  lemma DisplayIsLossless(t: TimePoint)
    requires t.raw >= 0
    ensures FromString(StripCommas(t.ToText())) == Ok(t)
  {
    var unit := DisplayUsesCoarsestUnit(t);
    var m := TruncDiv(t.raw, unit.InFemtos());
    GroupedTextStrips(m, unit);
    PlainTextParses(m, unit);
  }

  lemma NothingBetween(s: string, t: string)
    ensures s + "" + t == s + t
  {
  }

  lemma DisplayIsInjective(a: TimePoint, b: TimePoint)
    requires a.raw >= 0 && b.raw >= 0
    requires a.ToText() == b.ToText()
    ensures a == b
  {
    DisplayIsLossless(a);
    DisplayIsLossless(b);
  }

  lemma {:induction false} GroupedOddCharacter(num: int) returns (i: nat)
    requires num < 0 || num >= 1000
    ensures i < |Grouped(num)| && Grouped(num)[i] in [',', '-']
    decreases if num < 0 then -num else num
  {
    if -1000 < num {
      if num < 0 { i := 0; } else { i := |Grouped(num / 1000)|; }
    } else {
      i := GroupedOddCharacter(TruncDiv(num, 1000));
    }
  }

  /** Display text as written is accepted back exactly when no comma and no sign was printed. */
  lemma DisplayReadsBackIff(t: TimePoint) returns (unit: Unit)
    ensures t.ToText() == Grouped(TruncDiv(t.raw, unit.InFemtos())) + unit.Suffix()
    ensures FromString(t.ToText()).Ok? <==> 0 <= t.raw < 1000 * unit.InFemtos()
    ensures FromString(t.ToText()).Ok? ==> FromString(t.ToText()) == Ok(t)
  {
    unit := DisplayUsesCoarsestUnit(t);
    var m := TruncDiv(t.raw, unit.InFemtos());
    var s := t.ToText();
    MantissaRange(t.raw, unit);
    if 0 <= m < 1000 {
      PrintThenRead(m);
      assert Grouped(m) == Print(m);
      assert s == Print(m) + "" + unit.Suffix();
      TimeTextParses(s, Print(m), "", unit);
    } else {
      var i := GroupedOddCharacter(m);
      assert s[i] == Grouped(m)[i];
      OddCharacterRejected(s, i);
    }
  }

  /** A thousand seconds are displayed with a comma, which is not accepted. */
  lemma ThousandSecondsRejected()
    ensures var text := TimePoint(1000 * RESOLUTION).ToText(); text == "1,000s" && FromString(text).Err?
  {
    var t := TimePoint(1000 * RESOLUTION);
    assert TruncMod(t.raw, 1_000_000_000_000_000) == 0 && TruncDiv(t.raw, 1_000_000_000_000_000) == 1000;
    GroupedThousand();
    assert "1,000" + "s" == "1,000s";
    OddCharacterRejected("1,000s", 1);
  }

  lemma GroupedThousand()
    ensures Grouped(1000) == "1,000"
  {
    assert Grouped(1) == Print(1) == "1" && Pad3(Print(0)) == "000";
    assert "1" + "," + "000" == "1,000";
  }

  lemma MantissaRange(raw: int, unit: Unit)
    requires raw == TruncDiv(raw, unit.InFemtos()) * unit.InFemtos()
    ensures 0 <= TruncDiv(raw, unit.InFemtos()) < 1000 <==> 0 <= raw < 1000 * unit.InFemtos()
    ensures unit.InFemtos() * TruncDiv(raw, unit.InFemtos()) == raw
  {
    match unit
    case Second =>
    case Milli =>
    case Micro =>
    case Nano =>
    case Pico =>
    case Femto =>
  }

  lemma OneOfThree(a: string, b: string, c: string, i: nat)
    requires i < |a + b + c|
    ensures (a + b + c)[i] in a || (a + b + c)[i] in b || (a + b + c)[i] in c
  {
  }

  lemma TimeTextCharacters(s: string, digits: string, spaces: string, unit: Unit, i: nat)
    requires TimeText(s, digits, spaces, unit) && i < |s|
    ensures s[i] !in [',', '-']
  {
    OneOfThree(digits, spaces, unit.Suffix(), i);
    assert forall c | c in digits :: IsDigit(c);
    assert forall c | c in spaces :: IsSpace(c);
    assert forall c | c in unit.Suffix() :: c in ['m', 'u', 'n', 'p', 'f', 's'];
  }

  lemma OddCharacterRejected(s: string, i: nat)
    requires i < |s| && s[i] in [',', '-']
    ensures FromString(s).Err?
  {
    if FromString(s).Ok? {
      AcceptedIsTimeText(s);
      var digits, spaces, unit :| TimeText(s, digits, spaces, unit);
      TimeTextCharacters(s, digits, spaces, unit, i);
    }
  }

  // ---------------------------------------------------------------- protocol text

  function FromCXXRTL(value: string): Result<TimePoint, SyntaxError> {
    var d := DigitsPrefix(value);
    if 0 < d && d + 1 < |value| && value[d] == '.' && AllDigits(value[d + 1..]) then
      Ok(TimePoint.Of(Read(value[..d]), Read(value[d + 1..])))
    else Err(SyntaxError(value))
  }

  lemma PointPlaces(secs: string, femtos: string)
    ensures var s := secs + "." + femtos;
            && |s| == |secs| + 1 + |femtos| && s == secs + ("." + femtos)
            && s[|secs|] == '.' && s[..|secs|] == secs && s[|secs| + 1..] == femtos
  {
  }

  lemma CXXRTLTextParses(secs: string, femtos: string)
    requires secs != "" && femtos != "" && AllDigits(secs) && AllDigits(femtos)
    ensures FromCXXRTL(secs + "." + femtos) == Ok(TimePoint.Of(Read(secs), Read(femtos)))
  {
    var s := secs + "." + femtos;
    PointPlaces(secs, femtos);
    PrefixUnique(s, DigitsPrefix(s), secs, "." + femtos);
  }

  lemma AroundPoint(s: string, d: nat)
    requires d < |s| && s[d] == '.'
    ensures s == s[..d] + "." + s[d + 1..]
  {
  }

  lemma CXXRTLTextDenotes(s: string, secs: string, femtos: string)
    requires CXXRTLText(s, secs, femtos)
    ensures FromCXXRTL(s) == Ok(TimePoint(Read(secs) * RESOLUTION + Read(femtos)))
  {
    CXXRTLTextParses(secs, femtos);
  }

  lemma AcceptedIsCXXRTLText(s: string)
    requires FromCXXRTL(s).Ok?
    ensures exists secs, femtos :: CXXRTLText(s, secs, femtos)
  {
    var d := DigitsPrefix(s);
    AroundPoint(s, d);
    assert CXXRTLText(s, s[..d], s[d + 1..]);
  }

  lemma AcceptedIffCXXRTLText(s: string)
    ensures FromCXXRTL(s).Ok? <==> exists secs, femtos :: CXXRTLText(s, secs, femtos)
  {
    if secs, femtos :| CXXRTLText(s, secs, femtos) {
      CXXRTLTextDenotes(s, secs, femtos);
    } else if FromCXXRTL(s).Ok? {
      AcceptedIsCXXRTLText(s);
      assert false;
    }
  }

  /** Reading accepts exactly two runs of digits around a point; the second one counts femtoseconds, however long it
      is. */
  lemma FromCXXRTLAcceptsExactly(s: string)
    ensures FromCXXRTL(s).Ok? <==> exists secs, femtos :: CXXRTLText(s, secs, femtos)
    ensures forall secs, femtos :: CXXRTLText(s, secs, femtos) ==>
              FromCXXRTL(s) == Ok(TimePoint(Read(secs) * RESOLUTION + Read(femtos)))
  {
    AcceptedIffCXXRTLText(s);
    forall secs, femtos | CXXRTLText(s, secs, femtos)
      ensures FromCXXRTL(s) == Ok(TimePoint(Read(secs) * RESOLUTION + Read(femtos)))
    {
      CXXRTLTextDenotes(s, secs, femtos);
    }
  }

  ghost predicate CXXRTLText(s: string, secs: string, femtos: string) {
    s == secs + "." + femtos && secs != "" && femtos != "" && AllDigits(secs) && AllDigits(femtos)
  }

  /** Protocol text written for a time reads back as that time exactly when the time is not negative. */
  lemma CXXRTLRoundTripIff(t: TimePoint)
    ensures FromCXXRTL(t.ToCXXRTL()) == Ok(t) <==> t.raw >= 0
    ensures FromCXXRTL(t.ToCXXRTL()).Ok? <==> t.raw >= 0
  {
    OffsetIsExact(t, 0);
    var secs, femtos := PrintInt(t.Secs()), PadStart(PrintInt(t.Femtos()), 15);
    var s := t.ToCXXRTL();
    if t.raw >= 0 {
      PrintThenRead(t.Secs());
      ReadPadded(t.Femtos(), 15);
      CXXRTLTextParses(secs, femtos);
    } else {
      var k := if t.Secs() < 0 then 0 else |secs| + 1 + |femtos| - |PrintInt(t.Femtos())|;
      assert s[k] == '-';
      if FromCXXRTL(s).Ok? { CXXRTLTextCharacters(s); }
    }
  }

  lemma CXXRTLTextCharacters(s: string)
    requires FromCXXRTL(s).Ok?
    ensures forall i | 0 <= i < |s| :: s[i] == '.' || IsDigit(s[i])
  {
    var d := DigitsPrefix(s);
    assert forall i | d < i < |s| :: s[i] == s[d + 1..][i - d - 1];
  }

  /** The texts that survive reading and writing: no redundant zeros, fifteen fraction digits. */
  ghost predicate CanonicalCXXRTL(s: string) {
    exists secs, femtos :: s == secs + "." + femtos && Canonical(secs) && AllDigits(femtos) && |femtos| == 15
  }

  lemma CXXRTLTextIdentityIff(s: string)
    requires FromCXXRTL(s).Ok?
    ensures FromCXXRTL(s).value.ToCXXRTL() == s <==> CanonicalCXXRTL(s)
  {
    var t := FromCXXRTL(s).value;
    OffsetIsExact(t, 0);
    PrintThenRead(t.Secs());
    ReadPadded(t.Femtos(), 15);
    assert Pow10(15) == RESOLUTION;
    PrintLength(t.Femtos(), 15);
    assert |PadStart(Print(t.Femtos()), 15)| == 15;
    if CanonicalCXXRTL(s) {
      var secs, femtos :| s == secs + "." + femtos && Canonical(secs) && AllDigits(femtos) && |femtos| == 15;
      CanonicalIsRewritten(secs, femtos);
    }
  }

  lemma CanonicalIsRewritten(secs: string, femtos: string)
    requires Canonical(secs) && AllDigits(femtos) && |femtos| == 15
    ensures FromCXXRTL(secs + "." + femtos).Ok?
    ensures FromCXXRTL(secs + "." + femtos).value.ToCXXRTL() == secs + "." + femtos
  {
    CXXRTLTextParses(secs, femtos);
    assert Pow10(15) == RESOLUTION;
    ReadBound(femtos, 15, RESOLUTION);
    var t := TimePoint.Of(Read(secs), Read(femtos));
    assert t.Secs() == Read(secs) && t.Femtos() == Read(femtos);
    ReadThenPrint(secs);
    PadRestores(femtos);
  }
}
