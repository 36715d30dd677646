/** Small pieces every part of the model uses. */
module Common {
  datatype Option<+T> = None | Some(value: T)

  datatype FieldChange = FieldChange(field: string, before: string, after: string)

  function Digits(n: nat): string {
    var last := ['0' + (n % 10) as char];
    if n < 10 then last else Digits(n / 10) + last
  }

  function FormatInt(n: int): string {
    if n < 0 then "-" + Digits(-n) else Digits(n)
  }

  /** The number a run of digits is written for. */
  function Value(s: string): int {
    if s == "" then 0 else 10 * Value(s[..|s| - 1]) + (s[|s| - 1] as int - '0' as int)
  }

  function ParseInt(s: string): int { if s != "" && s[0] == '-' then -Value(s[1..]) else Value(s) }

  lemma {:induction false} DigitsRead(n: nat)
    ensures Value(Digits(n)) == n && Digits(n) != "" && '0' <= Digits(n)[0] <= '9'
  {
    var last := ['0' + (n % 10) as char];
    assert last[..0] == "";
    if n >= 10 {
      DigitsRead(n / 10);
      assert Digits(n)[..|Digits(n)| - 1] == Digits(n / 10);
    }
  }

  /** What is written can be read back, so two numbers are never written alike. */
  lemma FormatIntRead(n: int)
    ensures ParseInt(FormatInt(n)) == n
  {
    DigitsRead(if n < 0 then -n else n);
  }

  lemma FormatIntInjective(m: int, n: int)
    ensures FormatInt(m) == FormatInt(n) <==> m == n
  {
    FormatIntRead(m);
    FormatIntRead(n);
  }

  function Min(a: int, b: int): int { if a < b then a else b }

  function UpTo(n: nat): (r: set<int>)
    ensures forall i :: i in r <==> 0 <= i < n
    ensures |r| == n
  {
    if n == 0 then {} else UpTo(n - 1) + {n - 1}
  }

  lemma SubsetCount<T>(a: set<T>, b: set<T>)
    requires a <= b
    ensures |a| <= |b| && (|a| == |b| ==> a == b)
  {
    assert b == a + (b - a);
    if |a| == |b| {
      assert |b - a| == 0;
    }
  }
}
