/** The countdown's text, `m:ss`, as `updateTimer` writes it. */
module Clock {
  import opened Wrappers

  function DigitChar(d: int): char
    requires 0 <= d < 10
  {
    ('0' as int + d) as char
  }

  predicate IsDigit(c: char) {
    '0' <= c <= '9'
  }

  function DigitValue(c: char): int {
    c as int - '0' as int
  }

  /** Decimal text of a natural number, without leading zeros. */
  function NatText(n: nat): (s: string)
    ensures |s| >= 1
    ensures forall i :: 0 <= i < |s| ==> IsDigit(s[i])
    decreases n
  {
    if n < 10 then [DigitChar(n)] else NatText(n / 10) + [DigitChar(n % 10)]
  }

  /** How a template literal writes an integer: a minus sign, then digits. */
  function IntText(i: int): string {
    if i < 0 then "-" + NatText(-i) else NatText(i)
  }

  /** Euclidean division is unique: a quotient and a remainder in [0, b)
      that rebuild `a` are Dafny's `/` and `%`. */
  lemma DivModUnique(a: int, b: int, q: int, r: int)
    requires b > 0 && a == b * q + r && 0 <= r < b
    ensures a % b == r
  {
    var d := q - a / b;
    assert b * d == a % b - r;
  }

  /** JavaScript's `%`: the remainder takes the sign of the dividend. */
  function JsRem(a: int, b: int): (r: int)
    requires b > 0
    ensures a >= 0 ==> r == a % b
    ensures a < 0 ==> -b < r <= 0
    ensures a < 0 ==> r == if a % b == 0 then 0 else a % b - b
  {
    if a >= 0 then a % b
    else
      var k, q := (-a) / b, (-a) % b;
      assert a == b * -k + -q;
      assert q == 0 ==> a % b == 0 by {
        if q == 0 { DivModUnique(a, b, -k, 0); }
      }
      assert q != 0 ==> a % b == b - q by {
        if q != 0 { DivModUnique(a, b, -k - 1, b - q); }
      }
      -q
  }

  /** The seconds field for 0 <= sec < 60: a `0` in front of a single
      digit, so the field is always two digits wide. */
  lemma PaddedSeconds(sec: int)
    requires 0 <= sec < 60
    ensures (if sec < 10 then "0" else "") + IntText(sec) == [DigitChar(sec / 10), DigitChar(sec % 10)]
  {
    if sec >= 10 {
      assert NatText(sec) == NatText(sec / 10) + [DigitChar(sec % 10)];
      assert NatText(sec / 10) == [DigitChar(sec / 10)];
    }
  }

  /** The clock text for `timeLeft` seconds: `Math.floor(t / 60)`, a colon,
      then `t % 60` with a `0` in front when it is below 10. For a negative
      `t` this is what the page would write, minus signs included. */
  function TimerText(t: int): (r: string)
    ensures t >= 0 ==> r == NatText(t / 60) + ":" + [DigitChar(t % 60 / 10), DigitChar(t % 60 % 10)]
    ensures t < 0 ==> |r| >= 1 && r[0] == '-'
  {
    var minutes := t / 60;
    var seconds := JsRem(t, 60);
    assert t >= 0 ==> (if seconds < 10 then "0" else "") + IntText(seconds) ==
                      [DigitChar(t % 60 / 10), DigitChar(t % 60 % 10)] by {
      if t >= 0 { PaddedSeconds(seconds); }
    }
    IntText(minutes) + ":" + (if seconds < 10 then "0" else "") + IntText(seconds)
  }

  /** The number a string of decimal digits denotes. */
  function DigitsValue(s: string): int
    decreases |s|
  {
    if s == [] then 0 else DigitsValue(s[..|s| - 1]) * 10 + DigitValue(s[|s| - 1])
  }

  /** Reads `m:ss` back into seconds; None for anything else. */
  function ParseTimer(s: string): Option<int> {
    if |s| >= 4 && s[|s| - 3] == ':' &&
       (forall i :: 0 <= i < |s| - 3 ==> IsDigit(s[i])) &&
       IsDigit(s[|s| - 2]) && IsDigit(s[|s| - 1])
    then Some(DigitsValue(s[..|s| - 3]) * 60 + DigitsValue(s[|s| - 2..]))
    else None
  }

  lemma {:induction false} NatTextValue(n: nat)
    ensures DigitsValue(NatText(n)) == n
    decreases n
  {
    if n >= 10 {
      NatTextValue(n / 10);
      var s := NatText(n);
      assert s[..|s| - 1] == NatText(n / 10);
    }
  }

  /** The clock text names the time it was made from: reading it back gives
      minutes * 60 + seconds = t. */
  lemma TimerRoundTrip(t: int)
    requires t >= 0
    ensures ParseTimer(TimerText(t)) == Some(t)
  {
    var m := NatText(t / 60);
    var sec := t % 60;
    var s := TimerText(t);
    assert s[..|s| - 3] == m;
    assert s[|s| - 3] == ':';
    assert s[|s| - 2..] == [DigitChar(sec / 10), DigitChar(sec % 10)];
    NatTextValue(t / 60);
    var two := [DigitChar(sec / 10), DigitChar(sec % 10)];
    assert two[..1] == [DigitChar(sec / 10)];
    assert [DigitChar(sec / 10)][..0] == [];
    assert DigitValue(DigitChar(sec / 10)) == sec / 10;
    assert DigitValue(DigitChar(sec % 10)) == sec % 10;
    assert DigitsValue([DigitChar(sec / 10)]) == sec / 10;
    assert DigitsValue(two) == sec;
  }

  /** With 30 seconds on the clock the page shows `0:30`; with 5, `0:05`. */
  lemma TimerExamples()
    ensures TimerText(30) == "0:30"
    ensures TimerText(5) == "0:05"
  {
  }
}
