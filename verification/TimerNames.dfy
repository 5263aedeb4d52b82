/** How timer IDs and timer event types are built, and that they name one state each. */
module TimerNames {
  import opened Charts

  function Digit(d: nat): char
    requires d < 10
  {
    "0123456789"[d]
  }

  predicate IsDigit(ch: char) {
    '0' <= ch <= '9'
  }

  function Decimal(n: nat): string {
    if n < 10 then [Digit(n)] else Decimal(n / 10) + [Digit(n % 10)]
  }

  /** The ID of the `i`-th delayed transition of a state. */
  function TimerName(id: StateID, i: nat): string {
    id + ".after[" + Decimal(i) + "]"
  }

  function AfterEventType(timerID: string): string {
    "statecraft.after." + timerID
  }

  lemma {:induction false} DecimalDigits(n: nat)
    ensures Decimal(n) != [] && forall k :: 0 <= k < |Decimal(n)| ==> IsDigit(Decimal(n)[k])
  {
    if n >= 10 {
      DecimalDigits(n / 10);
    }
  }

  /** The number that a string of digits stands for. */
  function Value(s: string): int {
    if s == [] then 0 else 10 * Value(s[..|s| - 1]) + (s[|s| - 1] as int - '0' as int)
  }

  /** `s` is the decimal numeral of `n`, without leading zeros. */
  ghost predicate Numeral(s: string, n: nat) {
    && s != [] && (forall k :: 0 <= k < |s| ==> '0' <= s[k] <= '9')
    && (|s| > 1 ==> s[0] != '0') && Value(s) == n
  }

  lemma {:induction false} DecimalNumeral(n: nat)
    ensures Numeral(Decimal(n), n)
    ensures n > 0 ==> Decimal(n)[0] != '0'
  {
    DecimalDigits(n);
    DigitValue(n % 10);
    if n >= 10 {
      DecimalNumeral(n / 10);
      assert Decimal(n)[..|Decimal(n)| - 1] == Decimal(n / 10);
    } else {
      assert Decimal(n)[..0] == [] && Value([]) == 0;
    }
  }

  lemma DigitValue(d: nat)
    requires d < 10
    ensures Digit(d) as int - '0' as int == d
  {
    var ds := "0123456789";
    assert ds[0] == '0' && ds[1] == '1' && ds[2] == '2' && ds[3] == '3' && ds[4] == '4';
    assert ds[5] == '5' && ds[6] == '6' && ds[7] == '7' && ds[8] == '8' && ds[9] == '9';
  }

  lemma DigitInjective(a: nat, b: nat)
    requires a < 10 && b < 10 && Digit(a) == Digit(b)
    ensures a == b
  {
  }

  lemma {:induction false} DecimalInjective(a: nat, b: nat)
    requires Decimal(a) == Decimal(b)
    ensures a == b
  {
    DecimalDigits(a / 10);
    DecimalDigits(b / 10);
    var s := Decimal(a);
    if a < 10 && b < 10 {
      assert Decimal(a)[0] == Decimal(b)[0];
      DigitInjective(a, b);
    } else if a >= 10 && b >= 10 {
      assert s[|s| - 1] == Digit(a % 10) && s[|s| - 1] == Digit(b % 10);
      assert s[..|s| - 1] == Decimal(a / 10) && s[..|s| - 1] == Decimal(b / 10);
      DigitInjective(a % 10, b % 10);
      DecimalInjective(a / 10, b / 10);
    }
  }

  lemma LastBracket(p: string, d: string, k: nat)
    requires forall i :: 0 <= i < |d| ==> IsDigit(d[i])
    requires k < |p| + 1 + |d| && (p + "[" + d + "]")[k] == '['
    ensures k <= |p|
  {
    var s := p + "[" + d + "]";
    assert forall i :: |p| < i <= |p| + |d| ==> s[i] == d[i - |p| - 1] && IsDigit(s[i]);
    assert !IsDigit('[');
  }

  /** A number is the longest run of digits before the closing bracket. */
  lemma NumberSuffix(p: string, d: string, q: string, e: string)
    requires p + "[" + d + "]" == q + "[" + e + "]"
    requires (forall k :: 0 <= k < |d| ==> IsDigit(d[k])) && (forall k :: 0 <= k < |e| ==> IsDigit(e[k]))
    ensures p == q && d == e
  {
    var s := p + "[" + d + "]";
    var t := q + "[" + e + "]";
    assert |s| == |p| + 1 + |d| + 1 && |t| == |q| + 1 + |e| + 1;
    assert s[|p|] == '[' && t[|q|] == '[';
    LastBracket(p, d, |q|);
    LastBracket(q, e, |p|);
    assert p == s[..|p|] && q == t[..|q|];
    assert d == s[|p| + 1..|s| - 1] && e == t[|q| + 1..|t| - 1];
  }

  /** Timer IDs name their state and index, whatever characters state IDs contain. */
  lemma TimerNameInjective(s: StateID, i: nat, t: StateID, j: nat)
    requires TimerName(s, i) == TimerName(t, j)
    ensures s == t && i == j
  {
    DecimalDigits(i);
    DecimalDigits(j);
    assert TimerName(s, i) == (s + ".after") + "[" + Decimal(i) + "]";
    assert TimerName(t, j) == (t + ".after") + "[" + Decimal(j) + "]";
    NumberSuffix(s + ".after", Decimal(i), t + ".after", Decimal(j));
    DecimalInjective(i, j);
    assert s == (s + ".after")[..|s|] && t == (t + ".after")[..|t|];
    assert |s + ".after"| == |s| + 6 && |t + ".after"| == |t| + 6;
  }

  lemma AfterEventTypeInjective(a: string, b: string)
    requires AfterEventType(a) == AfterEventType(b)
    ensures a == b
  {
    var p := "statecraft.after.";
    assert a == AfterEventType(a)[|p|..] && b == AfterEventType(b)[|p|..];
  }
}
