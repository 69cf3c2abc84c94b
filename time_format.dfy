/** `formatTime` of script.js: milliseconds to `hh:mm:ss`, each field the
    decimal `toString()` of an integer left-padded with '0' to two characters. */
module TimeFormat {
  import opened Options

  predicate IsDigit(c: char) {
    '0' <= c <= '9'
  }

  predicate AllDigits(s: string) {
    forall i :: 0 <= i < |s| ==> IsDigit(s[i])
  }

  function DigitChar(d: nat): (c: char)
    requires d < 10
    ensures IsDigit(c)
  {
    ('0' as int + d) as char
  }

  function DigitValue(c: char): nat
    requires IsDigit(c)
  {
    c as int - '0' as int
  }

  /** `Number.prototype.toString()` on a non-negative integer: its decimal
      digits, most significant first, without leading zeros. */
  function DecimalString(n: nat): (s: string)
    ensures 1 <= |s| && AllDigits(s)
  {
    if n < 10 then [DigitChar(n)] else DecimalString(n / 10) + [DigitChar(n % 10)]
  }

  /** `String.prototype.padStart(2, '0')`: never shortens its argument. */
  function PadStart2(s: string): string {
    if |s| >= 2 then s else seq(2 - |s|, _ => '0') + s
  }

  /** One field of the clock. */
  function Field(n: nat): string {
    PadStart2(DecimalString(n))
  }

  function FormatTime(ms: int): string {
    if ms < 0 then "00:00:00"
    else
      var s := ms / 1000;
      var m := s / 60;
      var h := m / 60;
      Field(h) + ":" + Field(m % 60) + ":" + Field(s % 60)
  }

  /** Reads a string of decimal digits back as a number; leading zeros are
      allowed. */
  function ParseDigits(s: string): nat
    requires AllDigits(s)
  {
    if s == [] then 0 else ParseDigits(s[..|s| - 1]) * 10 + DigitValue(s[|s| - 1])
  }

  datatype Clock = Clock(hours: nat, minutes: nat, seconds: nat)

  function TotalSeconds(c: Clock): nat {
    c.hours * 3600 + c.minutes * 60 + c.seconds
  }

  /** Reads `h:mm:ss` from the right: two digits of seconds, two of minutes,
      and whatever digits remain as hours. */
  function ParseTime(s: string): Option<Clock> {
    if |s| >= 8 && s[|s| - 6] == ':' && s[|s| - 3] == ':'
       && AllDigits(s[..|s| - 6]) && AllDigits(s[|s| - 5..|s| - 3]) && AllDigits(s[|s| - 2..])
    then Some(Clock(ParseDigits(s[..|s| - 6]), ParseDigits(s[|s| - 5..|s| - 3]), ParseDigits(s[|s| - 2..])))
    else None
  }

  lemma {:induction false} DecimalRoundTrip(n: nat)
    ensures ParseDigits(DecimalString(n)) == n
  {
    if n >= 10 {
      var s := DecimalString(n);
      assert s[..|s| - 1] == DecimalString(n / 10);
      DecimalRoundTrip(n / 10);
    }
  }

  /** A field has at least two digits, exactly two below 100, is never
      truncated, and reads back as the number it shows. */
  lemma FieldRoundTrip(n: nat)
    ensures AllDigits(Field(n)) && ParseDigits(Field(n)) == n
    ensures 2 <= |Field(n)|
    ensures n < 100 ==> |Field(n)| == 2
    ensures n >= 10 ==> Field(n) == DecimalString(n)
  {
    DecimalRoundTrip(n);
    var d := DecimalString(n);
    if n < 10 {
      assert Field(n) == ['0'] + d;
      assert (['0'] + d)[..1] == ['0'];
    } else if n < 100 {
      assert |DecimalString(n / 10)| == 1;
    } else {
      assert |DecimalString(n / 10)| >= 2 by {
        assert |DecimalString(n / 100)| >= 1;
      }
    }
  }

  /** Where the separators and fields of an assembled `H:MM:SS` sit. */
  lemma AssembledShape(H: string, M: string, S: string)
    requires |M| == 2 && |S| == 2
    ensures var r := H + ":" + M + ":" + S;
      && |r| == |H| + 6 && r[|r| - 6] == ':' && r[|r| - 3] == ':'
      && r[..|r| - 6] == H && r[|r| - 5..|r| - 3] == M && r[|r| - 2..] == S
  {
    var tail := ":" + M + ":" + S;
    var r := H + tail;
    assert H + ":" + M + ":" + S == r;
    assert |tail| == 6 && tail[0] == ':' && tail[3] == ':';
    assert tail[1..3] == M && tail[4..] == S;
    assert r[..|H|] == H;
    assert r[|H| + 1..|H| + 3] == tail[1..3];
    assert r[|H| + 4..] == tail[4..];
  }

  /** The reader takes apart any `H:MM:SS` assembled from digit fields. */
  lemma ParseAssembled(H: string, M: string, S: string)
    requires AllDigits(H) && AllDigits(M) && AllDigits(S)
    requires 2 <= |H| && |M| == 2 && |S| == 2
    ensures ParseTime(H + ":" + M + ":" + S) == Some(Clock(ParseDigits(H), ParseDigits(M), ParseDigits(S)))
  {
    AssembledShape(H, M, S);
  }

  /** `formatTime` shows a clock whose minutes and seconds are below 60 and
      whose fields add up to the whole seconds in `ms` (a negative `ms` shows
      zero); the clock is read back exactly, hours included. */
  lemma FormatTimeRoundTrip(ms: int)
    ensures ParseTime(FormatTime(ms)).Some?
    ensures var c := ParseTime(FormatTime(ms)).value;
      c.minutes < 60 && c.seconds < 60 && TotalSeconds(c) == (if ms < 0 then 0 else ms / 1000)
  {
    var s := if ms < 0 then 0 else ms / 1000;
    var m := s / 60;
    var h := m / 60;
    FieldRoundTrip(h);
    FieldRoundTrip(m % 60);
    FieldRoundTrip(s % 60);
    var H, M, S := Field(h), Field(m % 60), Field(s % 60);
    assert FormatTime(ms) == H + ":" + M + ":" + S by {
      if ms < 0 {
        assert H == "00" && M == "00" && S == "00";
      }
    }
    ParseAssembled(H, M, S);
    assert h * 3600 + (m % 60) * 60 + s % 60 == s;
  }

  /** Clocks with minutes and seconds below 60 are told apart by their total
      seconds, so the fields `formatTime` shows are the only ones possible. */
  lemma ClockDeterminedBySeconds(c: Clock, d: Clock)
    requires c.minutes < 60 && c.seconds < 60 && d.minutes < 60 && d.seconds < 60
    requires TotalSeconds(c) == TotalSeconds(d)
    ensures c == d
  {
    DivMod60Unique(c.hours * 60 + c.minutes, c.seconds, d.hours * 60 + d.minutes, d.seconds);
    DivMod60Unique(c.hours, c.minutes, d.hours, d.minutes);
  }

  lemma DivMod60Unique(q1: nat, r1: nat, q2: nat, r2: nat)
    requires r1 < 60 && r2 < 60 && q1 * 60 + r1 == q2 * 60 + r2
    ensures q1 == q2 && r1 == r2
  {
  }
}
