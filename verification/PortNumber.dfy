/**
 Decimal port numbers: intToString of internal/config/config.go with its two callers, and the digit loop of
 cmd/client/main.go, which works in a 64-bit int that wraps around.
 */
module PortNumber {
  import opened Common

  const TWO63: int := 0x8000_0000_0000_0000
  const TWO64: int := 0x1_0000_0000_0000_0000

  /** The value of a Go int after wrap-around. */
  function Wrap(x: int): (r: int)
    ensures -TWO63 <= r < TWO63
  {
    (x + TWO63) % TWO64 - TWO63
  }

  predicate IsDigit(c: char) { '0' <= c <= '9' }

  function DigitChar(d: int): char
    requires 0 <= d < 10
  {
    '0' + d as char
  }

  function DigitValue(c: char): (d: int)
    requires IsDigit(c)
    ensures 0 <= d < 10
  {
    c as int - '0' as int
  }

  /** The digits of n, most significant first; nothing for n <= 0. */
  function Digits(n: int): string
    decreases n
  {
    if n <= 0 then "" else Digits(n / 10) + [DigitChar(n % 10)]
  }

  /** The number that the digits of s stand for, other characters being skipped. */
  function Value(s: string): nat {
    if s == "" then 0
    else
      var c := s[|s| - 1];
      if IsDigit(c) then Value(s[..|s| - 1]) * 10 + DigitValue(c) else Value(s[..|s| - 1])
  }

  method IntToString(n: int) returns (s: string)
    ensures s == Digits(n)
  {
    if n == 7700 {
      ShortcutAgrees();
      return "7700";
    }
    s := "";
    var m := n;
    while m > 0
      invariant Digits(n) == Digits(m) + s
    {
      s := [DigitChar(m % 10)] + s;
      m := m / 10;
    }
  }

  /** The early return for the default port is what the loop would compute. */
  lemma ShortcutAgrees()
    ensures Digits(7700) == "7700"
  {
    assert Digits(7) == Digits(0) + ['7'] == "7";
    assert Digits(77) == Digits(7) + ['7'] == "77";
    assert Digits(770) == Digits(77) + ['0'] == "770";
  }

  method ParsePort(port: string) returns (portInt: int)
    ensures portInt == Wrap(Value(port))
  {
    portInt := 0;
    for i := 0 to |port|
      invariant portInt == Wrap(Value(port[..i]))
    {
      assert port[..i + 1][..i] == port[..i];
      var c := port[i];
      if '0' <= c && c <= '9' {
        WrapStep(Value(port[..i]), DigitValue(c));
        portInt := Wrap(portInt * 10 + DigitValue(c));
      }
    }
    assert port[..|port|] == port;
  }

  /** Wrapping at every step is wrapping once at the end. */
  lemma WrapStep(x: int, d: int)
    ensures Wrap(Wrap(x) * 10 + d) == Wrap(x * 10 + d)
  {
    var k := (x + TWO63) / TWO64;
    assert Wrap(x) == x - k * TWO64;
    WrapPeriod(Wrap(x) * 10 + d, k * 10);
  }

  lemma WrapPeriod(y: int, k: int)
    ensures Wrap(y + k * TWO64) == Wrap(y)
  {
    var q := (y + TWO63) / TWO64;
    var r := (y + TWO63) % TWO64;
    assert y + k * TWO64 + TWO63 == (q + k) * TWO64 + r;
    DivModUnique(y + k * TWO64 + TWO63, q + k, r);
  }

  lemma DivModUnique(x: int, q: int, r: int)
    requires x == q * TWO64 + r && 0 <= r < TWO64
    ensures x % TWO64 == r
  {
    var e := x / TWO64 - q;
    assert x % TWO64 - r == -e * TWO64;
  }

  lemma WrapSmall(x: int)
    requires -TWO63 <= x < TWO63
    ensures Wrap(x) == x
  {
  }

  // ---------------------------------------------------------------- round trips

  lemma {:induction false} DigitsRoundTrip(n: int)
    ensures Value(Digits(n)) == Max(0, n)
    decreases n
  {
    if n > 0 {
      DigitsRoundTrip(n / 10);
      assert Digits(n)[..|Digits(n)| - 1] == Digits(n / 10);
    }
  }

  /** The client's loop applied to the printed port returns it, for every int; negative numbers and 0 print as nothing. */
  lemma ParseUndoesPrint(n: int)
    requires -0x8000_0000_0000_0000 <= n < 0x8000_0000_0000_0000
    ensures Wrap(Value(Digits(n))) == Max(0, n)
  {
    DigitsRoundTrip(n);
    WrapSmall(Max(0, n));
  }

  /** Decimal numerals as intToString writes them. */
  predicate Canonical(s: string) {
    (forall i :: 0 <= i < |s| ==> IsDigit(s[i])) && (s != "" ==> s[0] != '0')
  }

  lemma {:induction false} DigitsAreCanonical(n: int)
    ensures Canonical(Digits(n)) && (n > 0 ==> Digits(n) != "")
    decreases n
  {
    if n > 0 {
      DigitsAreCanonical(n / 10);
    }
  }

  lemma {:induction false} CanonicalIsPrinted(s: string)
    requires Canonical(s)
    ensures Digits(Value(s)) == s
    ensures s != "" ==> Value(s) > 0
  {
    if s != "" {
      var t := s[..|s| - 1];
      CanonicalIsPrinted(t);
      var d := DigitValue(s[|s| - 1]);
      assert (Value(t) * 10 + d) / 10 == Value(t) && (Value(t) * 10 + d) % 10 == d;
      assert s == t + [s[|s| - 1]];
    }
  }

  /**
   Printing the parsed port restores the text exactly when the text is a numeral without leading zeros
   that fits a 64-bit int.
   */
  lemma PrintUndoesParseExactly(s: string)
    ensures Digits(Wrap(Value(s))) == s <==> Canonical(s) && Value(s) < 0x8000_0000_0000_0000
  {
    if Canonical(s) && Value(s) < TWO63 {
      WrapSmall(Value(s));
      CanonicalIsPrinted(s);
    }
    if Digits(Wrap(Value(s))) == s {
      DigitsAreCanonical(Wrap(Value(s)));
      DigitsRoundTrip(Wrap(Value(s)));
    }
  }
}
