/** Amounts as they are shown and entered (internal/gui/amount.go). */
module Amounts {
  import opened Basics

  const SATS_PER_BTC := 100_000_000
  const MAX_SATS := 21_000_000 * SATS_PER_BTC
  const BTC_THRESHOLD := 5_000_000
  const INT64_LIMIT := 0x8000_0000_0000_0000

  datatype Unit = Sats | Btc

  datatype EntryError = NotWholeSats | TooManyDecimals | NotAnAmount | ExceedsSupply

  // ------------------------------------------------------------------ numbers

  predicate IsDigit(c: char) { '0' <= c <= '9' }

  function Digit(d: nat): (c: char)
    requires d < 10
    ensures IsDigit(c) && DigitValue(c) == d
  {
    ('0' as int + d) as char
  }

  function DigitValue(c: char): (d: nat)
    requires IsDigit(c)
    ensures d < 10
  {
    c as int - '0' as int
  }

  predicate AllDigits(s: string) {
    forall i :: 0 <= i < |s| ==> IsDigit(s[i])
  }

  /** The number a string of digits spells. */
  function Value(s: string): nat
    requires AllDigits(s)
  {
    if s == "" then 0 else Value(s[..|s| - 1]) * 10 + DigitValue(s[|s| - 1])
  }

  /** A number in decimal. */
  function Dec(n: nat): (s: string)
    ensures s != "" && AllDigits(s) && Value(s) == n
  {
    if n < 10 then [Digit(n)] else Dec(n / 10) + [Digit(n % 10)]
  }

  function Pow10(n: nat): (p: nat)
    ensures p > 0
  {
    if n == 0 then 1 else 10 * Pow10(n - 1)
  }

  /** A number in decimal, padded with zeros to a width it fits in. */
  function Pad(n: nat, width: nat): (s: string)
    requires n < Pow10(width)
    ensures |s| == width && AllDigits(s) && Value(s) == n
  {
    if width == 0 then "" else Pad(n / 10, width - 1) + [Digit(n % 10)]
  }

  function Zeros(n: nat): (s: string)
    ensures |s| == n && AllDigits(s)
  {
    if n == 0 then "" else Zeros(n - 1) + "0"
  }

  /** The string without its trailing zeros. */
  function TrimZeros(s: string): (t: string)
    ensures |t| <= |s| && t + Zeros(|s| - |t|) == s
    ensures t == "" || t[|t| - 1] != '0'
  {
    if s != "" && s[|s| - 1] == '0' then
      assert s == s[..|s| - 1] + "0";
      TrimZeros(s[..|s| - 1])
    else s
  }

  /** A signed 64-bit number in decimal, with an optional sign. */
  function ParseInt(s: string): Option<int> {
    var signed := s != "" && (s[0] == '+' || s[0] == '-');
    var body := if signed then s[1..] else s;
    if body == "" || !AllDigits(body) then None
    else
      var n: int := if signed && s[0] == '-' then -(Value(body) as int) else Value(body);
      if -INT64_LIMIT <= n < INT64_LIMIT then Some(n) else None
  }

  /** The value a 64-bit signed number takes after wrapping around. */
  function Wrap64(n: int): int {
    (n + INT64_LIMIT) % (2 * INT64_LIMIT) - INT64_LIMIT
  }

  // ------------------------------------------------------------------- output

  /** The digits in groups of three from the right, separated by spaces. */
  function Grouped(digits: string, n: nat): string
    requires n <= |digits|
  {
    if n == 0 then ""
    else Grouped(digits, n - 1) + (if n > 1 && (|digits| - (n - 1)) % 3 == 0 then " " else "") + [digits[n - 1]]
  }

  method GroupDigits(digits: string) returns (text: string)
    ensures text == Grouped(digits, |digits|)
  {
    text := "";
    for i := 0 to |digits|
      invariant text == Grouped(digits, i)
    {
      if i > 0 && (|digits| - i) % 3 == 0 {
        text := text + " ";
      }
      text := text + [digits[i]];
    }
  }

  /** Where the digit stands among n grouped ones: one place further for each space before it. */
  function Place(n: nat, k: nat): int
    requires k < n
  {
    k + (n - 1) / 3 - (n - 1 - k) / 3
  }

  /** A space stands before every digit but the first from which on the number
      of digits is a multiple of three, and nowhere else. */
  lemma {:induction false} GroupedAt(digits: string, n: nat, k: nat)
    requires k < n <= |digits|
    ensures |Grouped(digits, n)| == Place(|digits|, n - 1) + 1 && 0 <= Place(|digits|, k) < |Grouped(digits, n)|
    ensures Grouped(digits, n)[Place(|digits|, k)] == digits[k]
    ensures k > 0 ==>
              if (|digits| - k) % 3 == 0 then
                Place(|digits|, k) == Place(|digits|, k - 1) + 2 && Grouped(digits, n)[Place(|digits|, k) - 1] == ' '
              else Place(|digits|, k) == Place(|digits|, k - 1) + 1
  {
    if n > 1 {
      GroupedAt(digits, n - 1, if k < n - 1 then k else n - 2);
    }
  }

  /** A signed number in decimal. */
  function FormatInt(n: int): string {
    if n < 0 then "-" + Dec(-n) else Dec(n)
  }

  /** A number below 10^8 in decimal, padded with zeros to a width of eight, a sign included. */
  function Pad8(n: int): string
    requires n < SATS_PER_BTC
  {
    Pow10Of8();
    if n >= 0 then Pad(n, 8) else if -n < Pow10(7) then "-" + Pad(-n, 7) else "-" + Dec(-n)
  }

  /** A plain BTC decimal, its trailing zeros dropped. Quotient and remainder of
      a negative amount are both negative or zero. */
  function BtcDecimal(sats: int): string {
    var sign, abs := if sats < 0 then -1 else 1, if sats < 0 then -sats else sats;
    var frac := TrimZeros(Pad8(sign * (abs % SATS_PER_BTC)));
    var whole := FormatInt(sign * (abs / SATS_PER_BTC));
    if frac == "" then whole else whole + "." + frac
  }

  lemma Pow10Of8()
    ensures Pow10(8) == SATS_PER_BTC
  {
    assert Pow10(4) == 10000;
  }

  /** An amount as it is displayed: its number with the whole part grouped, and
      the unit, which changes at the threshold. */
  function Shown(sats: int): (string, Unit) {
    var sign, abs := if sats < 0 then "-" else "", if sats < 0 then -sats else sats;
    var whole := Dec(if abs < BTC_THRESHOLD then abs else abs / SATS_PER_BTC);
    Pow10Of8();
    var frac := TrimZeros(Pad(abs % SATS_PER_BTC, 8));
    if abs < BTC_THRESHOLD then (sign + Grouped(whole, |whole|), Sats)
    else (sign + Grouped(whole, |whole|) + if frac == "" then "" else "." + frac, Btc)
  }

  function UnitText(sats: int, unit: Unit): string {
    if unit == Sats then FormatInt(sats) else BtcDecimal(sats)
  }

  // -------------------------------------------------------------------- entry

  predicate IsSpace(c: char) {
    c == ' ' || '\t' <= c <= '\r' || c == 0x85 as char || c == 0xa0 as char
  }

  function TrimLeft(s: string): string {
    if s != "" && IsSpace(s[0]) then TrimLeft(s[1..]) else s
  }

  function TrimRight(s: string): string {
    if s != "" && IsSpace(s[|s| - 1]) then TrimRight(s[..|s| - 1]) else s
  }

  function NoSpaces(s: string): string {
    if s == "" then "" else NoSpaces(s[..|s| - 1]) + if s[|s| - 1] == ' ' then "" else [s[|s| - 1]]
  }

  function Clean(text: string): string { NoSpaces(TrimRight(TrimLeft(text))) }

  /** The parts before and after the first point. */
  function Cut(s: string): (string, string) {
    if s == "" then ("", "")
    else if s[0] == '.' then ("", s[1..])
    else ([s[0]] + Cut(s[1..]).0, Cut(s[1..]).1)
  }

  predicate HasSign(s: string) {
    exists i :: 0 <= i < |s| && (s[i] == '+' || s[i] == '-')
  }

  /** An entered amount in satoshis. */
  function Parsed(text: string, unit: Unit): Result<int, EntryError> {
    var clean := Clean(text);
    if clean == "" then Ok(0)
    else if unit == Sats then
      var n := ParseInt(clean);
      if n.None? || n.value < 0 then Err(NotWholeSats) else Capped(n.value)
    else
      var (whole, frac) := Cut(clean);
      if |frac| > 8 then Err(TooManyDecimals)
      else
        var w := ParseInt(whole + "0");
        var f := ParseInt(frac + Zeros(8 - |frac|));
        if HasSign(clean) then Err(NotAnAmount) else Joined(w, f)
  }

  /** The satoshis of a whole part, read with a zero appended, and a fraction
      of eight digits. The product is not checked for overflow. */
  function Joined(w: Option<int>, f: Option<int>): Result<int, EntryError> {
    if w.None? || f.None? || w.value < 0 then Err(NotAnAmount)
    else Capped(Wrap64(Wrap64(w.value / 10 * SATS_PER_BTC) + f.value))
  }

  function Capped(sats: int): Result<int, EntryError> {
    if sats > MAX_SATS then Err(ExceedsSupply) else Ok(sats)
  }

  method ParseAmount(text: string, unit: Unit) returns (result: Result<int, EntryError>)
    ensures result == Parsed(text, unit)
  {
    hide Wrap64, ParseInt, Clean, Cut, HasSign;
    var clean := Clean(text);
    if clean == "" {
      return Ok(0);
    }
    var sats: int;
    if unit == Sats {
      var n := ParseInt(clean);
      if n.None? || n.value < 0 {
        return Err(NotWholeSats);
      }
      sats := n.value;
    } else {
      var parts := Cut(clean);
      if |parts.1| > 8 {
        return Err(TooManyDecimals);
      }
      var w := ParseInt(parts.0 + "0");
      var f := ParseInt(parts.1 + Zeros(8 - |parts.1|));
      if w.None? || f.None? || w.value < 0 || HasSign(clean) {
        return Err(NotAnAmount);
      }
      sats := Wrap64(Wrap64(w.value / 10 * SATS_PER_BTC) + f.value);
    }
    if sats > MAX_SATS {
      return Err(ExceedsSupply);
    }
    return Ok(sats);
  }

  // -------------------------------------------------------------- round trips

  lemma {:induction false} NoSpacesAppend(a: string, b: string)
    ensures NoSpaces(a + b) == NoSpaces(a) + NoSpaces(b)
  {
    if b == "" {
      assert a + b == a;
    } else {
      assert (a + b)[..|a + b| - 1] == a + b[..|b| - 1];
      NoSpacesAppend(a, b[..|b| - 1]);
    }
  }

  /** Spaces may be taken out before or after the ends are trimmed. */
  lemma {:induction false} TrimLeftLater(s: string)
    ensures TrimLeft(NoSpaces(s)) == NoSpaces(TrimLeft(s))
  {
    if s != "" {
      assert s == [s[0]] + s[1..];
      NoSpacesAppend([s[0]], s[1..]);
      SingleChars(s[0]);
      if IsSpace(s[0]) {
        TrimLeftLater(s[1..]);
        assert ("" + NoSpaces(s[1..])) == NoSpaces(s[1..]) && ([s[0]] + NoSpaces(s[1..]))[1..] == NoSpaces(s[1..]);
      }
    }
  }

  lemma {:induction false} TrimRightLater(s: string)
    ensures TrimRight(NoSpaces(s)) == NoSpaces(TrimRight(s))
  {
    if s != "" {
      var front, last := s[..|s| - 1], s[|s| - 1];
      TrimRightLater(front);
      if last != ' ' {
        assert NoSpaces(s)[..|NoSpaces(s)| - 1] == NoSpaces(front) && NoSpaces(s)[|NoSpaces(s)| - 1] == last;
      } else {
        assert NoSpaces(s) == NoSpaces(front);
      }
    }
  }

  lemma {:induction false} NothingToRemove(s: string)
    requires ' ' !in s
    ensures NoSpaces(s) == s
  {
    if s != "" {
      NothingToRemove(s[..|s| - 1]);
    }
  }

  lemma {:induction false} NoneLeft(s: string)
    ensures ' ' !in NoSpaces(s)
    ensures forall c :: c in NoSpaces(s) ==> c in s
  {
    if s != "" {
      NoneLeft(s[..|s| - 1]);
      assert s == s[..|s| - 1] + [s[|s| - 1]];
    }
  }

  lemma ParsedByClean(a: string, b: string, unit: Unit)
    ensures Clean(a) == Clean(b) ==> Parsed(a, unit) == Parsed(b, unit)
  {
    hide Wrap64, ParseInt, Clean, Cut, HasSign;
  }

  /** Entries that differ in nothing but spaces, wherever they are, give the same amount. */
  lemma SpacesDoNotMatter(a: string, b: string, unit: Unit)
    requires NoSpaces(a) == NoSpaces(b)
    ensures Parsed(a, unit) == Parsed(b, unit)
  {
    hide Parsed, Clean;
    CleanLater(a);
    CleanLater(b);
    ParsedByClean(a, b, unit);
  }

  lemma CleanLater(text: string)
    ensures Clean(text) == TrimRight(TrimLeft(NoSpaces(text)))
  {
    TrimLeftLater(text);
    TrimRightLater(TrimLeft(text));
  }

  /** White space as it is trimmed: tab to carriage return, space, U+0085 and U+00A0. */
  predicate IsWhite(c: char) {
    c as int in {9, 10, 11, 12, 13, 32, 0x85, 0xa0}
  }

  predicate White(s: string) {
    forall i :: 0 <= i < |s| ==> IsWhite(s[i])
  }

  /** What is read of an entry is, spaces taken out, what is between the white
      space at its ends, all of which goes. */
  lemma CleanIs(text: string) returns (a: string, b: string)
    ensures White(a) && White(b) && NoSpaces(text) == a + Clean(text) + b
    ensures var c := Clean(text); c != "" ==> !IsWhite(c[0]) && !IsWhite(c[|c| - 1])
  {
    CleanLater(text);
    a := TrimLeftIs(NoSpaces(text));
    b := TrimRightIs(TrimLeft(NoSpaces(text)));
  }

  lemma {:induction false} TrimLeftIs(s: string) returns (a: string)
    ensures White(a) && s == a + TrimLeft(s)
    ensures TrimLeft(s) != "" ==> !IsWhite(TrimLeft(s)[0])
  {
    a := "";
    if s != "" && IsSpace(s[0]) {
      a := TrimLeftIs(s[1..]);
      a := [s[0]] + a;
    }
  }

  lemma {:induction false} TrimRightIs(s: string) returns (b: string)
    ensures White(b) && s == TrimRight(s) + b
    ensures TrimRight(s) != "" ==> !IsWhite(TrimRight(s)[|TrimRight(s)| - 1])
  {
    b := "";
    if s != "" && IsSpace(s[|s| - 1]) {
      b := TrimRightIs(s[..|s| - 1]);
      b := b + [s[|s| - 1]];
    }
  }

  lemma CleanNothing(text: string)
    requires forall i :: 0 <= i < |text| ==> !IsSpace(text[i])
    ensures Clean(text) == text
  {
    assert TrimLeft(text) == text && TrimRight(text) == text;
    NothingToRemove(text);
  }

  /** Taking the spaces out undoes the grouping of digits. */
  lemma {:induction false} UngroupedDigits(digits: string, n: nat)
    requires n <= |digits| && ' ' !in digits
    ensures NoSpaces(Grouped(digits, n)) == digits[..n]
  {
    hide NoSpaces;
    if n == 0 {
      NothingToRemove("");
    } else {
      var before, last := Grouped(digits, n - 1), digits[n - 1];
      var gap := if n > 1 && (|digits| - (n - 1)) % 3 == 0 then " " else "";
      UngroupedDigits(digits, n - 1);
      assert Grouped(digits, n) == before + gap + [last];
      NoSpacesAppend(before, gap);
      NoSpacesAppend(before + gap, [last]);
      SingleChars(last);
      assert digits[..n] == digits[..n - 1] + [last];
    }
  }

  lemma SingleChars(c: char)
    ensures NoSpaces(" ") == "" && NoSpaces("") == "" && (c != ' ' ==> NoSpaces([c]) == [c])
  {
    assert " "[..0] == "" && [c][..0] == "";
  }

  lemma {:induction false} CutAtPoint(whole: string, frac: string)
    requires '.' !in whole
    ensures Cut(whole) == (whole, "") && Cut(whole + "." + frac) == (whole, frac)
  {
    if whole == "" {
      assert ("" + "." + frac)[1..] == frac;
    } else {
      CutAtPoint(whole[1..], frac);
      assert whole == [whole[0]] + whole[1..];
      assert (whole + "." + frac)[1..] == whole[1..] + "." + frac;
    }
  }

  lemma ParseDigits(s: string)
    requires AllDigits(s) && s != ""
    ensures ParseInt(s) == if Value(s) < INT64_LIMIT then Some(Value(s)) else None
  {
    assert IsDigit(s[0]);
  }

  lemma TimesTen(s: string)
    requires AllDigits(s)
    ensures AllDigits(s + "0") && Value(s + "0") == Value(s) * 10
  {
    assert (s + "0")[..|s|] == s;
  }

  /** What an entry of whole bitcoins and a fraction in satoshis gives: its
      exact value if that is small enough, and otherwise what is left of it
      after wrapping around. */
  function EntryOf(whole: nat, frac: nat): Result<int, EntryError> {
    if whole * 10 >= INT64_LIMIT then Err(NotAnAmount) else Capped(Wrap64(whole * SATS_PER_BTC + frac))
  }

  lemma EntryOfParts(w: Option<int>, f: Option<int>, whole: nat, frac: nat)
    requires w == if whole * 10 < INT64_LIMIT then Some(whole * 10) else None
    requires f == Some(frac)
    ensures EntryOf(whole, frac) == Joined(w, f)
  {
    hide Capped, Wrap64;
    WrapTwice(whole * SATS_PER_BTC, frac);
    assert whole * 10 / 10 == whole;
  }

  /** The entry has a whole part and a fraction, or a whole part alone without a point. */
  predicate IsEntry(text: string, whole: string, frac: string) {
    text == whole + "." + frac || (frac == "" && text == whole)
  }

  lemma BtcEntry(whole: string, frac: string, text: string)
    requires AllDigits(whole) && AllDigits(frac) && |frac| <= 8 && IsEntry(text, whole, frac)
    ensures AllDigits(frac + Zeros(8 - |frac|)) && Value(frac + Zeros(8 - |frac|)) < SATS_PER_BTC
    ensures Parsed(text, Btc) == EntryOf(Value(whole), Value(frac + Zeros(8 - |frac|)))
  {
    hide EntryOf, Joined, Parsed, ParseInt, Clean, Wrap64, Capped, Cut, Pow10, HasSign, Value;
    var padded := frac + Zeros(8 - |frac|);
    ValueBelow(padded);
    Pow10Of8();
    PointText(whole, frac, text);
    TimesTen(whole);
    ParseDigits(whole + "0");
    ParseDigits(padded);
    EntryOfParts(ParseInt(whole + "0"), ParseInt(padded), Value(whole), Value(padded));
    if text == "" {
      EmptyEntry(padded);
    } else {
      ParsedParts(text, whole, frac);
    }
  }

  lemma EmptyEntry(padded: string)
    requires padded == "" + Zeros(8)
    ensures Value(padded) == 0 && Parsed("", Btc) == EntryOf(Value(""), 0)
  {
    hide Zeros;
    ZerosAreNothing(8);
    assert padded == Zeros(8) && TrimLeft("") == "" && TrimRight("") == "";
    assert Clean("") == "";
  }

  /** Digits around a point are read as they stand. */
  lemma PointText(whole: string, frac: string, text: string)
    requires AllDigits(whole) && AllDigits(frac) && IsEntry(text, whole, frac)
    ensures Clean(text) == text && !HasSign(text) && Cut(text) == (whole, frac)
  {
    hide NoSpaces, Clean, Cut;
    forall i | 0 <= i < |text|
      ensures IsDigit(text[i]) || text[i] == '.'
    {
    }
    CleanNothing(text);
    CutAtPoint(whole, frac);
  }

  /** A BTC entry of two parts, read part by part. */
  lemma ParsedParts(text: string, whole: string, frac: string)
    requires Clean(text) == text != "" && Cut(text) == (whole, frac) && |frac| <= 8 && !HasSign(text)
    ensures Parsed(text, Btc) == Joined(ParseInt(whole + "0"), ParseInt(frac + Zeros(8 - |frac|)))
  {
    hide Joined, Wrap64, ParseInt, Clean, Cut, HasSign, Capped;
  }

  lemma {:induction false} ValueBelow(s: string)
    requires AllDigits(s)
    ensures Value(s) < Pow10(|s|)
  {
    if s != "" {
      ValueBelow(s[..|s| - 1]);
    }
  }

  lemma WrapTwice(a: int, b: int)
    ensures Wrap64(Wrap64(a) + b) == Wrap64(a + b)
  {
  }

  /** Entering what is shown for an amount gives the amount back, in either unit. */
  lemma ParseUndoesUnitText(sats: nat, unit: Unit)
    requires sats <= MAX_SATS
    ensures Parsed(UnitText(sats, unit), unit) == Ok(sats)
  {
    hide Parsed, Dec, BtcDecimal;
    if unit == Sats {
      SatsEntry(Dec(sats), sats);
    } else {
      BtcRoundTrip(sats);
    }
  }

  lemma SatsEntry(s: string, sats: nat)
    requires AllDigits(s) && s != "" && Value(s) == sats <= MAX_SATS
    ensures Parsed(s, Sats) == Ok(sats)
  {
    hide Clean, ParseInt, Value, NoSpaces, Wrap64, Cut;
    CleanNothing(s);
    ParseDigits(s);
  }

  lemma BtcRoundTrip(sats: nat)
    requires sats <= MAX_SATS
    ensures Parsed(BtcDecimal(sats), Btc) == Ok(sats)
  {
    hide Parsed, Dec, Pow10, Pad, TrimZeros, Wrap64, Value;
    Pow10Of8();
    var padded := Pad8(sats % SATS_PER_BTC);
    var frac := TrimZeros(padded);
    assert forall i :: 0 <= i < |frac| ==> frac[i] == (frac + Zeros(8 - |frac|))[i] == padded[i];
    BtcEntry(Dec(sats / SATS_PER_BTC), frac, BtcDecimal(sats));
    WrapSmall(sats);
  }

  lemma WrapSmall(n: int)
    requires -INT64_LIMIT <= n < INT64_LIMIT
    ensures Wrap64(n) == n
  {
  }

  /** Switching the unit of an entry keeps the amount entered exactly when it
      is not negative. */
  lemma SwitchingUnitsKeepsAmount(text: string, unit: Unit, other: Unit)
    requires Parsed(text, unit).Ok?
    ensures Parsed(UnitText(Parsed(text, unit).value, other), other) == Parsed(text, unit) <==> Parsed(text, unit).value >= 0
  {
    hide Parsed, UnitText;
    ParsedCapped(text, unit);
    if Parsed(text, unit).value >= 0 {
      ParseUndoesUnitText(Parsed(text, unit).value, other);
    } else {
      NegativeTextRefused(Parsed(text, unit).value, other);
    }
  }

  /** What is shown for a negative amount is no entry. */
  lemma NegativeTextRefused(sats: int, unit: Unit)
    requires sats < 0
    ensures Parsed(UnitText(sats, unit), unit).Err?
  {
    hide Dec, Value, Parsed, BtcDecimal;
    if unit == Sats {
      NegativeSats(-sats);
    } else {
      NegativeDecimal(sats);
      SignRefused(BtcDecimal(sats));
    }
  }

  lemma NegativeSats(n: nat)
    requires n > 0
    ensures Parsed("-" + Dec(n), Sats).Err?
  {
    hide Dec, Clean, Cut, Wrap64;
    var text := "-" + Dec(n);
    CleanNothing(text);
    assert text[1..] == Dec(n);
  }

  lemma SignRefused(text: string)
    requires HasSign(text) && forall i :: 0 <= i < |text| ==> !IsSpace(text[i])
    ensures Parsed(text, Btc).Err?
  {
    hide Clean, Cut, Value, Wrap64, ParseInt;
    CleanNothing(text);
  }

  /** Digits with a sign before them or not. */
  predicate Signed(s: string) {
    s != "" && (IsDigit(s[0]) || s[0] == '-') && forall i :: 0 < i < |s| ==> IsDigit(s[i])
  }

  lemma FormatIsSigned(n: int)
    ensures Signed(FormatInt(n)) && (n < 0 ==> FormatInt(n)[0] == '-')
    ensures n < SATS_PER_BTC ==> Signed(Pad8(n)) && (n < 0 ==> Pad8(n)[0] == '-')
  {
    hide Dec, Value, Pad, Pow10;
    Pow10Of8();
  }

  lemma NegativeDecimal(sats: int)
    requires sats < 0
    ensures HasSign(BtcDecimal(sats)) && forall i :: 0 <= i < |BtcDecimal(sats)| ==> !IsSpace(BtcDecimal(sats)[i])
  {
    hide FormatInt, Pad8, TrimZeros;
    var padded := Pad8(-(-sats % SATS_PER_BTC));
    var whole := FormatInt(-(-sats / SATS_PER_BTC));
    FormatIsSigned(-(-sats % SATS_PER_BTC));
    FormatIsSigned(-(-sats / SATS_PER_BTC));
    TrimKeeps(padded);
    SignedAround(whole, TrimZeros(padded));
  }

  lemma SignedAround(whole: string, frac: string)
    requires Signed(whole) && (frac != "" ==> Signed(frac)) && (whole[0] == '-' || (frac != "" && frac[0] == '-'))
    ensures var text := if frac == "" then whole else whole + "." + frac;
            HasSign(text) && forall i :: 0 <= i < |text| ==> !IsSpace(text[i])
  {
    var text := if frac == "" then whole else whole + "." + frac;
    assert text[0] == whole[0];
    if frac != "" {
      assert text[|whole| + 1] == frac[0];
    }
  }

  /** Without its trailing zeros a signed number is signed the same way, or nothing is left. */
  lemma TrimKeeps(s: string)
    requires Signed(s)
    ensures TrimZeros(s) != "" ==> Signed(TrimZeros(s)) && TrimZeros(s)[0] == s[0]
    ensures s[0] == '-' ==> TrimZeros(s) != ""
  {
    hide Zeros;
    var t := TrimZeros(s);
    assert forall i :: 0 <= i < |t| ==> t[i] == (t + Zeros(|s| - |t|))[i];
    assert t == "" ==> "" + Zeros(|s|) == s;
  }

  lemma ParsedCapped(text: string, unit: Unit)
    requires Parsed(text, unit).Ok?
    ensures Parsed(text, unit).value <= MAX_SATS
  {
  }

  /** Grouping the digits at the start of an entry does not change the amount. */
  lemma GroupingKeepsAmount(digits: string, rest: string, unit: Unit)
    requires AllDigits(digits)
    ensures Parsed(Grouped(digits, |digits|) + rest, unit) == Parsed(digits + rest, unit)
  {
    hide Parsed, NoSpaces;
    UngroupedDigits(digits, |digits|);
    NothingToRemove(digits);
    assert digits[..|digits|] == digits;
    NoSpacesAppend(Grouped(digits, |digits|), rest);
    NoSpacesAppend(digits, rest);
    SpacesDoNotMatter(Grouped(digits, |digits|) + rest, digits + rest, unit);
  }

  /** What is displayed is what is shown in an entry, the whole part grouped. */
  lemma ShownParts(sats: nat) returns (whole: string, rest: string)
    ensures AllDigits(whole) && Shown(sats).0 == Grouped(whole, |whole|) + rest
    ensures UnitText(sats, Shown(sats).1) == whole + rest
  {
    hide Dec, Grouped, TrimZeros, Pad, Value;
    Pow10Of8();
    var frac := TrimZeros(Pad(sats % SATS_PER_BTC, 8));
    if sats < BTC_THRESHOLD {
      whole, rest := Dec(sats), "";
    } else {
      whole, rest := Dec(sats / SATS_PER_BTC), if frac == "" then "" else "." + frac;
    }
    assert "" + Grouped(whole, |whole|) == Grouped(whole, |whole|);
  }

  /** Entering an amount as it is displayed gives it back. */
  lemma ShownReadsBack(sats: nat)
    requires sats <= MAX_SATS
    ensures Parsed(Shown(sats).0, Shown(sats).1) == Ok(sats)
  {
    hide Parsed, Shown, UnitText, Grouped;
    var whole, rest := ShownParts(sats);
    ParseUndoesUnitText(sats, Shown(sats).1);
    GroupingKeepsAmount(whole, rest, Shown(sats).1);
  }

  // ------------------------------------------------------- the unchecked product

  /** A BTC entry, with or without a point, is taken at its exact value or
      refused exactly when its value does not wrap around into the accepted
      range; an amount up to the supply is always taken. */
  lemma BtcEntryIsExactIff(whole: string, frac: string, text: string)
    requires AllDigits(whole) && AllDigits(frac) && |frac| <= 8 && IsEntry(text, whole, frac)
    ensures AllDigits(frac + Zeros(8 - |frac|))
    ensures var exact := Value(whole) * SATS_PER_BTC + Value(frac + Zeros(8 - |frac|));
            && ((Parsed(text, Btc).Ok? ==> Parsed(text, Btc).value == exact) <==>
                !(Value(whole) * 10 < INT64_LIMIT && exact >= INT64_LIMIT && Wrap64(exact) <= MAX_SATS))
            && (exact <= MAX_SATS ==> Parsed(text, Btc) == Ok(exact))
  {
    hide Parsed, Value, Wrap64, Zeros;
    BtcEntry(whole, frac, text);
    var exact := Value(whole) * SATS_PER_BTC + Value(frac + Zeros(8 - |frac|));
    if exact < INT64_LIMIT {
      WrapSmall(exact);
    } else {
      WrapBelow(exact);
    }
  }

  lemma WrapBelow(n: int)
    ensures Wrap64(n) < INT64_LIMIT
  {
  }

  /** Below 92 233 720 368 whole bitcoins no entry wraps around. */
  lemma SmallEntriesAreExact(whole: string, frac: string, text: string)
    requires AllDigits(whole) && AllDigits(frac) && |frac| <= 8 && IsEntry(text, whole, frac)
    requires Value(whole) < 92_233_720_368
    ensures AllDigits(frac + Zeros(8 - |frac|))
    ensures Parsed(text, Btc) == Capped(Value(whole) * SATS_PER_BTC + Value(frac + Zeros(8 - |frac|)))
  {
    hide Parsed, Value, Wrap64, Zeros;
    BtcEntry(whole, frac, text);
    WrapSmall(Value(whole) * SATS_PER_BTC + Value(frac + Zeros(8 - |frac|)));
  }

  /** An entry of more bitcoins than there are is taken for less than one. */
  lemma WrappedEntryExample()
    ensures Parsed(Dec(184_467_440_738), Btc) == Ok(90_448_384)
  {
    hide Parsed, Value, Dec, Zeros;
    var whole := Dec(184_467_440_738);
    BtcEntry(whole, "", whole);
    ZerosAreNothing(8);
    assert "" + Zeros(8) == Zeros(8);
  }

  /** Another one is taken for a negative amount. */
  lemma NegativeEntryExample()
    ensures Parsed(Dec(92_233_720_369), Btc) == Ok(-9_223_372_036_809_551_616)
  {
    hide Parsed, Value, Dec, Zeros;
    var whole := Dec(92_233_720_369);
    BtcEntry(whole, "", whole);
    ZerosAreNothing(8);
    assert "" + Zeros(8) == Zeros(8);
  }

  lemma {:induction false} ZerosAreNothing(n: nat)
    ensures Value(Zeros(n)) == 0
  {
    if n > 0 {
      ZerosAreNothing(n - 1);
      assert Zeros(n)[..n - 1] == Zeros(n - 1);
    }
  }

  // ------------------------------------------------------- what is an entry

  /** An entry in sats, spaces aside, is nothing, or digits with or without a sign,
      up to the supply and not below zero. */
  lemma SatsEntryIs(text: string)
    ensures var c := Clean(text);
            var digits := if c != "" && (c[0] == '+' || c[0] == '-') then c[1..] else c;
            && (Parsed(text, Sats).Ok? <==>
                c == "" || (digits != "" && AllDigits(digits) && Value(digits) <= MAX_SATS && (c[0] == '-' ==> Value(digits) == 0)))
            && (Parsed(text, Sats).Ok? ==> Parsed(text, Sats).value == if c == "" then 0 else Value(digits))
  {
    hide Clean, Cut, Wrap64, Value;
  }

  lemma {:induction false} CutIs(s: string)
    ensures var (a, b) := Cut(s); '.' !in a && (s == a + "." + b || (s == a && b == ""))
  {
    if s != "" && s[0] != '.' {
      CutIs(s[1..]);
      assert s == [s[0]] + s[1..];
    } else if s != "" {
      assert s == "" + "." + s[1..];
    }
  }

  /** An entry in BTC, spaces aside, has nothing but digits and at most one point,
      with at most eight digits after it. */
  lemma BtcEntryIs(text: string) returns (whole: string, frac: string)
    ensures Parsed(text, Btc).Ok? ==>
              AllDigits(whole) && AllDigits(frac) && |frac| <= 8 && IsEntry(Clean(text), whole, frac)
              && Parsed(text, Btc) == Parsed(Clean(text), Btc)
    ensures Parsed(text, Btc) == Err(TooManyDecimals) <==> Clean(text) != "" && |Cut(Clean(text)).1| > 8
  {
    var c := Clean(text);
    whole, frac := Cut(c).0, Cut(c).1;
    CutIs(c);
    hide Cut, Clean, Wrap64, Value, Zeros;
    if Parsed(text, Btc).Ok? {
      if c == "" {
        EmptyParts(c, whole, frac);
      } else {
        DigitsOnly(c, whole, frac);
      }
      PointText(whole, frac, c);
      ParsedByClean(text, c, Btc);
    }
  }

  lemma EmptyParts(c: string, whole: string, frac: string)
    requires c == "" && (c == whole + "." + frac || (c == whole && frac == ""))
    ensures whole == "" && frac == ""
  {
  }

  lemma DigitsOnly(c: string, whole: string, frac: string)
    requires !HasSign(c) && |frac| <= 8 && (c == whole + "." + frac || (c == whole && frac == ""))
    requires ParseInt(whole + "0").Some? && ParseInt(frac + Zeros(8 - |frac|)).Some?
    ensures AllDigits(whole) && AllDigits(frac)
  {
    hide Zeros, Value;
    var w, f := whole + "0", frac + Zeros(8 - |frac|);
    assert forall i :: 0 <= i < |whole| ==> whole[i] == w[i] && whole[i] == c[i];
    assert forall i :: 0 <= i < |frac| ==> frac[i] == f[i] && frac[i] == c[|whole| + 1 + i];
  }

  lemma {:induction false} NoLeadingZero(n: nat)
    ensures Dec(n)[0] == '0' <==> n == 0
  {
    if n >= 10 {
      NoLeadingZero(n / 10);
    }
  }

  /** What an entry shows for BTC has no zeros to spare: the whole part starts with
      one only if it is zero, and what follows the point never ends in one. */
  lemma NoSpareZeros(sats: nat)
    ensures BtcDecimal(sats) == Dec(sats / SATS_PER_BTC) <==> sats % SATS_PER_BTC == 0
    ensures BtcDecimal(sats)[0] == '0' <==> sats < SATS_PER_BTC
    ensures sats % SATS_PER_BTC != 0 ==> BtcDecimal(sats)[|BtcDecimal(sats)| - 1] != '0'
  {
    hide Dec, TrimZeros, Zeros, Pad, Value;
    Pow10Of8();
    var padded := Pad(sats % SATS_PER_BTC, 8);
    var frac, whole := TrimZeros(padded), Dec(sats / SATS_PER_BTC);
    NoLeadingZero(sats / SATS_PER_BTC);
    ZerosOnly(padded);
    assert frac != "" ==> |whole + "." + frac| > |whole|;
  }

  /** A string of digits is trimmed to nothing exactly when it spells zero. */
  lemma {:induction false} ZerosOnly(s: string)
    requires AllDigits(s)
    ensures TrimZeros(s) == "" <==> Value(s) == 0
  {
    if s != "" {
      ZerosOnly(s[..|s| - 1]);
    }
  }

  /** Amounts are displayed in sats exactly below five million of them, and a
      negative one is its amount with a sign. */
  lemma ShownIn(sats: int)
    ensures Shown(sats).1 == Sats <==> -5_000_000 < sats < 5_000_000
    ensures sats < 0 ==> Shown(sats) == ("-" + Shown(-sats).0, Shown(-sats).1)
  {
    hide Dec, Grouped, TrimZeros, Pad;
    if sats < 0 {
      var whole := Dec(if -sats < BTC_THRESHOLD then -sats else -sats / SATS_PER_BTC);
      assert "" + Grouped(whole, |whole|) == Grouped(whole, |whole|);
      SignFirst(Grouped(whole, |whole|), Shown(-sats).0[|Grouped(whole, |whole|)|..]);
    }
  }

  lemma SignFirst(a: string, b: string)
    ensures "-" + a + b == "-" + (a + b)
  {
  }

  // ------------------------------------------------------------ worth in dollars

  method UsdValue(sats: int, centsPerBTC: int) returns (cents: int)
    requires centsPerBTC >= 0
    ensures 2 * (cents * SATS_PER_BTC - sats * centsPerBTC) <= SATS_PER_BTC
    ensures 2 * (sats * centsPerBTC - cents * SATS_PER_BTC) <= SATS_PER_BTC
  {
    var sign, abs := 1, sats;
    if sats < 0 {
      sign, abs := -1, -sats;
    }
    var q, r := abs / SATS_PER_BTC, abs % SATS_PER_BTC;
    var whole := q * centsPerBTC;
    var frac := (r * centsPerBTC + SATS_PER_BTC / 2) / SATS_PER_BTC;
    Shares(q, r, centsPerBTC);
    cents := sign * (whole + frac);
    assert abs * centsPerBTC == whole * SATS_PER_BTC + r * centsPerBTC;
    assert sats < 0 ==> sats * centsPerBTC == -(abs * centsPerBTC);
  }

  lemma Shares(q: int, r: int, rate: int)
    ensures (q * SATS_PER_BTC + r) * rate == q * rate * SATS_PER_BTC + r * rate
  {
  }
}
