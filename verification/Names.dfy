/** The names of the auxiliary variables of the noisy-OR decomposition
(sidecar/belief/noisy_or.py:77, 88, 105).

The source claims that two calls for different variables never collide.
`AuxiliaryInjective` proves it: an auxiliary name determines its variable, its
role and its index.  An auxiliary name can still equal a declared variable,
which the callers must rule out. */
module Names {

  function Digit(d: nat): char
    requires d < 10
  {
    "0123456789"[d]
  }

  function Decimal(n: nat): (s: string)
    ensures s != []
    ensures forall i :: 0 <= i < |s| ==> '0' <= s[i] <= '9'
  {
    if n < 10 then [Digit(n)] else Decimal(n / 10) + [Digit(n % 10)]
  }

  lemma {:induction false} DecimalInjective(m: nat, n: nat)
    requires Decimal(m) == Decimal(n)
    ensures m == n
    decreases m
  {
    var s, t := Decimal(m), Decimal(n);
    assert s[|s| - 1] == Digit(m % 10) && t[|t| - 1] == Digit(n % 10);
    assert m % 10 == n % 10;
    if m < 10 {
      assert |t| == 1 && n < 10;
    } else {
      assert n >= 10;
      assert s[..|s| - 1] == Decimal(m / 10) && t[..|t| - 1] == Decimal(n / 10);
      DecimalInjective(m / 10, n / 10);
    }
  }

  datatype Role = Leak | Mechanism(i: nat) | Gate(i: nat)

  /** `<variable>__leak`, `<variable>__z<i>` or `<variable>__or<i>`. */
  function Auxiliary(variable: string, role: Role): string {
    variable + Suffix(role)
  }

  function Suffix(role: Role): string {
    match role
    case Leak => "__leak"
    case Mechanism(i) => "__z" + Decimal(i)
    case Gate(i) => "__or" + Decimal(i)
  }

  lemma TrailingDigits(s: string, c: char, d: string, t: string, e: char, f: string)
    requires s + [c] + d == t + [e] + f
    requires !('0' <= c <= '9') && !('0' <= e <= '9')
    requires forall i :: 0 <= i < |d| ==> '0' <= d[i] <= '9'
    requires forall i :: 0 <= i < |f| ==> '0' <= f[i] <= '9'
    ensures s == t && c == e && d == f
  {
    var whole := s + [c] + d;
    assert whole[|s|] == c && whole[|t|] == e;
    assert forall i :: |s| < i < |whole| ==> whole[i] == d[i - |s| - 1];
    assert forall i :: |t| < i < |whole| ==> whole[i] == f[i - |t| - 1];
    assert |s| == |t|;
    assert whole[..|s|] == s == t;
    assert whole[|s| + 1..] == d == f;
  }

  function Stem(role: Role): string {
    match role
    case Leak => "__lea"
    case Mechanism(i) => "__"
    case Gate(i) => "__o"
  }

  function Mark(role: Role): char {
    match role
    case Leak => 'k'
    case Mechanism(i) => 'z'
    case Gate(i) => 'r'
  }

  function Index(role: Role): string {
    match role
    case Leak => ""
    case Mechanism(i) => Decimal(i)
    case Gate(i) => Decimal(i)
  }

  lemma AuxiliaryParts(v: string, role: Role)
    ensures Auxiliary(v, role) == (v + Stem(role)) + [Mark(role)] + Index(role)
  {
    assert Suffix(role) == Stem(role) + [Mark(role)] + Index(role);
  }

  lemma RoleDetermined(r: Role, q: Role)
    requires Mark(r) == Mark(q) && Index(r) == Index(q)
    ensures r == q
  {
    match r
    case Leak =>
    case Mechanism(i) => DecimalInjective(i, q.i);
    case Gate(i) => DecimalInjective(i, q.i);
  }

  lemma AuxiliaryInjective(v: string, r: Role, w: string, q: Role)
    requires Auxiliary(v, r) == Auxiliary(w, q)
    ensures v == w && r == q
  {
    AuxiliaryParts(v, r);
    AuxiliaryParts(w, q);
    TrailingDigits(v + Stem(r), Mark(r), Index(r), w + Stem(q), Mark(q), Index(q));
    RoleDetermined(r, q);
    SuffixCancel(v, w, Stem(r));
  }

  lemma SuffixCancel(v: string, w: string, s: string)
    requires v + s == w + s
    ensures v == w
  {
    assert v == (v + s)[..|v|] && w == (w + s)[..|w|];
  }
}
