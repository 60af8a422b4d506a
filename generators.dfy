/**
 * Random attribute generators of the fleet tracker: vehicle ids, licence plates,
 * statuses and map positions.
 *
 * Every `Math.random()` call of the program is a parameter of type RandomValue,
 * a real number in [0, 1); each generator then applies the program's own
 * `Math.floor(lo + r * span)` to it (function Draw), so the value ranges below
 * are consequences of that expression rather than assumptions.
 */
module Generators {

  /** A value `Math.random()` can return: a number in [0, 1). */
  type RandomValue = r: real | 0.0 <= r < 1.0

  /** One random draw: the integer `floor(lo + r * span)` for `r` in [0, 1). */
  function Draw(lo: int, span: nat, r: RandomValue): (n: int)
    requires span > 0
    ensures lo <= n < lo + span
  {
    var s := span as real;
    assert 0.0 <= r * s < s by {
      assert 0.0 <= r * s;
      assert s - r * s == (1.0 - r) * s;
      assert (1.0 - r) * s > 0.0;
    }
    (lo as real + r * s).Floor
  }

  /** The draw's range is exact: every integer in [lo, lo + span) is produced by some r. */
  lemma DrawReaches(lo: int, span: nat, n: int)
    requires span > 0
    requires lo <= n < lo + span
    ensures exists r: RandomValue :: Draw(lo, span, r) == n
  {
    var r: RandomValue := (n - lo) as real / span as real;
    assert r * span as real == (n - lo) as real;
    assert Draw(lo, span, r) == n;
  }

  // ---------------------------------------------------------------------------
  // Decimal rendering of integers, as a template literal `${n}` does it

  predicate IsDigit(c: char) {
    '0' <= c <= '9'
  }

  predicate AllDigits(s: string) {
    forall i :: 0 <= i < |s| ==> IsDigit(s[i])
  }

  function DigitChar(d: int): (c: char)
    requires 0 <= d < 10
    ensures IsDigit(c)
  {
    (48 + d) as char
  }

  function DigitValue(c: char): (d: nat)
    requires IsDigit(c)
    ensures d < 10
  {
    c as int - 48
  }

  /** The shortest decimal numeral of n (no leading zero). */
  function Decimal(n: nat): (s: string)
    ensures 1 <= |s|
    ensures AllDigits(s)
    decreases n
  {
    if n < 10 then [DigitChar(n)] else Decimal(n / 10) + [DigitChar(n % 10)]
  }

  /** The value of a numeral, read most significant digit first. */
  function DecimalValue(s: string): nat
    requires AllDigits(s)
  {
    if s == [] then 0 else DecimalValue(s[..|s| - 1]) * 10 + DigitValue(s[|s| - 1])
  }

  /** Reading back a rendered number gives the number. */
  lemma {:induction false} DecimalRoundTrip(n: nat)
    ensures DecimalValue(Decimal(n)) == n
  {
    var s := Decimal(n);
    if n >= 10 {
      DecimalRoundTrip(n / 10);
      assert s[..|s| - 1] == Decimal(n / 10);
    }
  }

  /** Numbers in 1000..9999 render as exactly four digits, the first one not '0'. */
  lemma FourDigits(n: int)
    requires 1000 <= n <= 9999
    ensures |Decimal(n)| == 4
    ensures Decimal(n)[0] != '0'
  {
    var a, b, c := n / 10, n / 10 / 10, n / 10 / 10 / 10;
    assert 100 <= a <= 999 && 10 <= b <= 99 && 1 <= c <= 9;
    assert Decimal(c) == [DigitChar(c)];
    assert Decimal(b) == Decimal(c) + [DigitChar(b % 10)];
    assert Decimal(a) == Decimal(b) + [DigitChar(a % 10)];
    assert Decimal(n) == Decimal(a) + [DigitChar(n % 10)];
  }

  // ---------------------------------------------------------------------------
  // Vehicle ids: "LRY-" followed by a number in 1000..9999

  const IdPrefix: string := "LRY-"

  /** "LRY-" and a four-digit numeral without leading zero, i.e. a number in 1000..9999. */
  predicate IsVehicleId(s: string) {
    && |s| == 8
    && s[..4] == IdPrefix
    && AllDigits(s[4..])
    && s[4] != '0'
  }

  /** generateVehicleId: the suffix reads back as the drawn number. */
  function GenerateVehicleId(r: RandomValue): (id: string)
    ensures IsVehicleId(id)
    ensures DecimalValue(id[4..]) == Draw(1000, 9000, r)
  {
    var n := Draw(1000, 9000, r);
    FourDigits(n);
    DecimalRoundTrip(n);
    var id := IdPrefix + Decimal(n);
    assert id[4..] == Decimal(n);
    id
  }

  // ---------------------------------------------------------------------------
  // Licence plates: three upper-case letters, '-', four digits

  const Letters: string := "ABCDEFGHIJKLMNOPQRSTUVWXYZ"

  predicate IsUpper(c: char) {
    'A' <= c <= 'Z'
  }

  predicate IsLicensePlate(s: string) {
    && |s| == 8
    && IsUpper(s[0]) && IsUpper(s[1]) && IsUpper(s[2])
    && s[3] == '-'
    && AllDigits(s[4..])
    && s[4] != '0'
  }

  /** `letters.charAt(Math.floor(Math.random() * letters.length))` */
  function RandomLetter(r: RandomValue): (c: char)
    ensures IsUpper(c)
  {
    Letters[Draw(0, |Letters|, r)]
  }

  /**
   * generateLicensePlate. The program draws the number first (`rDigits`) and then the
   * three letters in order.
   */
  function GenerateLicensePlate(rDigits: RandomValue, r1: RandomValue, r2: RandomValue, r3: RandomValue): (plate: string)
    ensures IsLicensePlate(plate)
    ensures DecimalValue(plate[4..]) == Draw(1000, 9000, rDigits)
  {
    var n := Draw(1000, 9000, rDigits);
    FourDigits(n);
    DecimalRoundTrip(n);
    var plate := [RandomLetter(r1), RandomLetter(r2), RandomLetter(r3)] + "-" + Decimal(n);
    assert plate[4..] == Decimal(n);
    plate
  }

  // ---------------------------------------------------------------------------
  // Statuses

  const Active: string := "Active"
  const Inactive: string := "Inactive"
  const Maintenance: string := "Maintenance"
  const Statuses: seq<string> := [Active, Inactive, Maintenance]

  predicate IsStatus(s: string) {
    s == Active || s == Inactive || s == Maintenance
  }

  /** getRandomStatus: `statuses[Math.floor(Math.random() * statuses.length)]`. */
  function RandomStatus(r: RandomValue): (s: string)
    ensures IsStatus(s)
  {
    Statuses[Draw(0, |Statuses|, r)]
  }

  /** Each of the three statuses can be drawn. */
  lemma RandomStatusCovers(s: string)
    requires IsStatus(s)
    ensures exists r: RandomValue :: RandomStatus(r) == s
  {
    var k := if s == Active then 0 else if s == Inactive then 1 else 2;
    DrawReaches(0, 3, k);
    var r: RandomValue :| Draw(0, 3, r) == k;
    assert RandomStatus(r) == s;
  }

  // ---------------------------------------------------------------------------
  // Map positions, in whole percent of the map's width and height

  datatype Position = Position(x: int, y: int)

  predicate InMapRange(p: Position) {
    10 <= p.x <= 89 && 10 <= p.y <= 89
  }

  /** getRandomPosition: each coordinate is `Math.floor(10 + Math.random() * 80)` percent. */
  function RandomPosition(rx: RandomValue, ry: RandomValue): (p: Position)
    ensures InMapRange(p)
  {
    Position(Draw(10, 80, rx), Draw(10, 80, ry))
  }

  /** Every position in the 10..89 square can be drawn. */
  lemma RandomPositionCovers(p: Position)
    requires InMapRange(p)
    ensures exists rx: RandomValue, ry: RandomValue :: RandomPosition(rx, ry) == p
  {
    DrawReaches(10, 80, p.x);
    DrawReaches(10, 80, p.y);
    var rx: RandomValue :| Draw(10, 80, rx) == p.x;
    var ry: RandomValue :| Draw(10, 80, ry) == p.y;
    assert RandomPosition(rx, ry) == p;
  }
}
