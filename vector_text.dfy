/**
 * LaTeX text of a vector as a signed sum of basis symbols, as the rigid-body
 * question's `vectorInBasis` and `cartesianVector` write it
 * (templateCourses/dynamics/questions/rbmOmega/server.py). For instance the
 * integer vector (2, 0, -1) in the Cartesian basis becomes
 * `2\hat{\imath}-\hat{k}`.
 */
module VectorText {
  import Decimal

  /**
   * One component of the vector as Python sees it after `tolist()`: an int,
   * or a float. For a float that is not integral, `text` is what Python's
   * `str` prints for it; the model does not compute float text itself.
   */
  datatype Component = Int(n: int) | Float(x: real, text: string)

  predicate IsIntegral(x: real) {
    x.Floor as real == x
  }

  /** Python prints a finite non-integral float with a decimal point or an exponent, never with a leading '+'. */
  predicate PythonFloatText(t: string) {
    ('.' in t || 'e' in t) && t[0] != '+'
  }

  predicate WellFormed(c: Component) {
    c.Float? && !IsIntegral(c.x) ==> PythonFloatText(c.text)
  }

  predicate IsZero(c: Component) {
    match c
    case Int(n) => n == 0
    case Float(x, _) => x == 0.0
  }

  /** The in-place rewrite of an integral float to an int (`int` truncates, which is the floor here). */
  function Normalize(c: Component): Component {
    if c.Float? && IsIntegral(c.x) then Int(c.x.Floor) else c
  }

  /** Python's `str` of a component. */
  function Str(c: Component): string {
    match c
    case Int(n) => Decimal.IntToString(n)
    case Float(_, t) => t
  }

  /** The coefficient text `e` the formatter starts each term from. */
  function Text(c: Component): string {
    Str(Normalize(c))
  }

  /** A term before any '+' is put in front: a coefficient of 1 or -1 is elided before a non-empty basis name. */
  function Term(c: Component, b: string): string {
    var e := Text(c);
    if e == "1" && b != "" then b
    else if e == "-1" && b != "" then "-" + b
    else e + b
  }

  /** The terms of the components whose text is not "0", in component order. */
  function Terms(v: seq<Component>, basis: seq<string>): seq<string>
    requires |v| <= |basis|
  {
    if |v| == 0 then []
    else
      var i := |v| - 1;
      Terms(v[..i], basis) + (if Text(v[i]) == "0" then [] else [Term(v[i], basis[i])])
  }

  predicate StartsWith(t: string, c: char) {
    |t| > 0 && t[0] == c
  }

  /** The k-th term as it is appended: every term after the first that does not start with '-' gets a '+'. */
  function Sign(k: nat, t: string): string {
    if k > 0 && !StartsWith(t, '-') then "+" + t else t
  }

  function Signed(ts: seq<string>): seq<string> {
    seq(|ts|, k requires 0 <= k < |ts| => Sign(k, ts[k]))
  }

  /** `"".join(ss)` */
  function Concat(ss: seq<string>): string {
    if |ss| == 0 then "" else ss[0] + Concat(ss[1..])
  }

  /** The text of vector v in the given basis; a vector without terms prints as "0". */
  function Render(v: seq<Component>, basis: seq<string>): string
    requires |v| <= |basis|
  {
    var s := Signed(Terms(v, basis));
    if |s| == 0 then "0" else Concat(s)
  }

  const CartesianBasis: seq<string> := ["\\hat{\\imath}", "\\hat{\\jmath}", "\\hat{k}"]

  /** `vectorInBasis(v, basis1, basis2, basis3)`: the loop over the components, then the join. */
  method VectorInBasis(v: seq<Component>, basis1: string, basis2: string, basis3: string) returns (r: string)
    requires |v| <= 3
    requires forall i :: 0 <= i < |v| ==> WellFormed(v[i])
    ensures r == Render(v, [basis1, basis2, basis3])
  {
    var basisList := [basis1, basis2, basis3];
    var s: seq<string> := [];
    var w := v;
    for i := 0 to |w|
      invariant |w| == |v| && forall j :: i <= j < |v| ==> w[j] == v[j]
      invariant s == Signed(Terms(v[..i], basisList))
    {
      TermsSnoc(v, basisList, i);
      if w[i].Float? && IsIntegral(w[i].x) {
        w := w[i := Int(w[i].x.Floor)];
      }
      var e := Str(w[i]);
      assert e == Text(v[i]);
      if e == "0" {
        continue;
      }
      if e == "1" && basisList[i] != "" {
        e := "";
      }
      if e == "-1" && basisList[i] != "" {
        e := "-";
      }
      e := e + basisList[i];
      assert e == Term(v[i], basisList[i]);
      TermNonEmpty(v[i], basisList[i]);
      if |s| > 0 && e[0] != '-' {
        e := "+" + e;
      }
      SignedSnoc(Terms(v[..i], basisList), Term(v[i], basisList[i]));
      s := s + [e];
    }
    assert v[..|v|] == v;
    if |s| == 0 {
      s := s + ["0"];
      assert Concat(s) == "0" + Concat([]);
    }
    r := Concat(s);
  }

  lemma TermsSnoc(v: seq<Component>, basis: seq<string>, i: nat)
    requires i < |v| <= |basis|
    ensures Terms(v[..i + 1], basis)
         == Terms(v[..i], basis) + (if Text(v[i]) == "0" then [] else [Term(v[i], basis[i])])
  {
    assert v[..i + 1][..i] == v[..i];
  }

  lemma SignedSnoc(ts: seq<string>, t: string)
    ensures Signed(ts + [t]) == Signed(ts) + [Sign(|ts|, t)]
  {
  }

  lemma TermNonEmpty(c: Component, b: string)
    requires WellFormed(c)
    ensures |Term(c, b)| > 0
  {
  }

  /** A component's text is "0" exactly when its value is zero. */
  lemma TextZero(c: Component)
    requires WellFormed(c)
    ensures Text(c) == "0" <==> IsZero(c)
  {
    match c
    case Int(n) =>
      Decimal.SpecialTexts(n);
    case Float(x, t) =>
      if IsIntegral(x) {
        Decimal.SpecialTexts(x.Floor);
      } else {
        assert x != 0.0;
        assert '.' !in "0" && 'e' !in "0";
      }
  }

  /** Positions of the components whose value is non-zero. */
  function NonZeroPositions(v: seq<Component>): set<nat> {
    set i: nat | i < |v| && !IsZero(v[i])
  }

  /** Zero components produce no term: there are exactly as many terms as non-zero components. */
  lemma {:induction false} TermCount(v: seq<Component>, basis: seq<string>)
    requires |v| <= |basis|
    requires forall i :: 0 <= i < |v| ==> WellFormed(v[i])
    ensures |Terms(v, basis)| == |NonZeroPositions(v)|
  {
    if |v| > 0 {
      var i := |v| - 1;
      TermCount(v[..i], basis);
      TextZero(v[i]);
      var before := NonZeroPositions(v[..i]);
      var last: set<nat> := if IsZero(v[i]) then {} else {i};
      assert NonZeroPositions(v) == before + last;
      assert i !in before;
    } else {
      assert NonZeroPositions(v) == {};
    }
  }

  /** A vector whose components are all zero renders as exactly "0". */
  lemma AllZeroRendersZero(v: seq<Component>, basis: seq<string>)
    requires |v| <= |basis|
    requires forall i :: 0 <= i < |v| ==> WellFormed(v[i]) && IsZero(v[i])
    ensures Render(v, basis) == "0"
  {
    TermCount(v, basis);
    assert NonZeroPositions(v) == {};
  }

  /**
   * An int coefficient before a non-empty basis name: 1 leaves the bare name,
   * -1 a minus sign and the name, any other value its decimal text and the
   * name. Before an empty name the decimal text is kept whole.
   */
  lemma IntCoefficientTerm(n: int, b: string)
    ensures b != "" ==> Term(Int(n), b) ==
                        (if n == 1 then b else if n == -1 then "-" + b else Decimal.IntToString(n) + b)
    ensures b == "" ==> Term(Int(n), b) == Decimal.IntToString(n)
  {
    Decimal.SpecialTexts(n);
  }

  /** An integral float prints as the int it equals: 3.0 gives "3". */
  lemma IntegralFloatAsInt(n: int, t: string, b: string)
    ensures Text(Float(n as real, t)) == Decimal.IntToString(n)
    ensures Term(Float(n as real, t), b) == Term(Int(n), b)
  {
  }

  /** Every term is the term of one of the components. */
  lemma {:induction false} TermsSatisfy(v: seq<Component>, basis: seq<string>, P: string -> bool)
    requires |v| <= |basis|
    requires forall j :: 0 <= j < |v| ==> P(Term(v[j], basis[j]))
    ensures forall t :: t in Terms(v, basis) ==> P(t)
  {
    if |v| > 0 {
      var i := |v| - 1;
      assert forall j :: 0 <= j < i ==> v[..i][j] == v[j];
      TermsSatisfy(v[..i], basis, P);
    }
  }

  predicate NoPlusLead(t: string) {
    |t| > 0 && t[0] != '+'
  }

  lemma TermLead(c: Component, b: string)
    requires WellFormed(c)
    requires b == "" || b[0] != '+'
    ensures NoPlusLead(Term(c, b))
  {
    match Normalize(c)
    case Int(n) => Decimal.IntToStringLead(n);
    case Float(_, _) =>
  }

  /**
   * The first term never gets a '+', so when no basis name starts with '+'
   * the text never starts with '+'.
   */
  lemma NoLeadingPlus(v: seq<Component>, basis: seq<string>)
    requires |v| <= |basis|
    requires forall i :: 0 <= i < |v| ==> WellFormed(v[i])
    requires forall i :: 0 <= i < |basis| ==> basis[i] == "" || basis[i][0] != '+'
    ensures NoPlusLead(Render(v, basis))
  {
    var ts := Terms(v, basis);
    if |ts| > 0 {
      forall j | 0 <= j < |v| ensures NoPlusLead(Term(v[j], basis[j])) {
        TermLead(v[j], basis[j]);
      }
      TermsSatisfy(v, basis, NoPlusLead);
      assert ts[0] in ts;
      assert Render(v, basis) == ts[0] + Concat(Signed(ts)[1..]);
    }
  }

  /** Every term after the first begins with an explicit sign, '+' or '-'. */
  lemma LaterTermsSigned(ts: seq<string>, k: nat)
    requires 0 < k < |ts|
    requires |ts[k]| > 0
    ensures Signed(ts)[k][0] == '+' || Signed(ts)[k][0] == '-'
  {
  }

  function StripPlus(t: string): string {
    if StartsWith(t, '+') then t[1..] else t
  }

  function Unsigned(ss: seq<string>): seq<string> {
    seq(|ss|, k requires 0 <= k < |ss| => StripPlus(ss[k]))
  }

  /** Dropping the '+' put in front of the later terms gives the terms back. */
  lemma UnsignedSigned(ts: seq<string>)
    requires forall k :: 0 <= k < |ts| ==> NoPlusLead(ts[k])
    ensures Unsigned(Signed(ts)) == ts
  {
    forall k | 0 <= k < |ts| ensures Unsigned(Signed(ts))[k] == ts[k] {
      if k > 0 && !StartsWith(ts[k], '-') {
        assert Signed(ts)[k] == "+" + ts[k];
        assert ("+" + ts[k])[1..] == ts[k];
      }
    }
  }

  /** `cartesianVector(v)`: the vector in the unit basis i, j, k. */
  method CartesianVector(v: seq<Component>) returns (r: string)
    requires |v| <= 3
    requires forall i :: 0 <= i < |v| ==> WellFormed(v[i])
    ensures r == Render(v, CartesianBasis)
    ensures r == "0" <==> forall i :: 0 <= i < |v| ==> IsZero(v[i])
    ensures NoPlusLead(r)
  {
    r := VectorInBasis(v, "\\hat{\\imath}", "\\hat{\\jmath}", "\\hat{k}");
    CartesianZeroIff(v);
    NoLeadingPlus(v, CartesianBasis);
  }

  predicate LongerThanOne(t: string) {
    |t| > 1
  }

  /** In the Cartesian basis the text is "0" exactly for the zero vector. */
  lemma CartesianZeroIff(v: seq<Component>)
    requires |v| <= 3
    requires forall i :: 0 <= i < |v| ==> WellFormed(v[i])
    ensures Render(v, CartesianBasis) == "0" <==> forall i :: 0 <= i < |v| ==> IsZero(v[i])
  {
    TermCount(v, CartesianBasis);
    if exists i :: 0 <= i < |v| && !IsZero(v[i]) {
      var i :| 0 <= i < |v| && !IsZero(v[i]);
      assert i in NonZeroPositions(v);
      var ts := Terms(v, CartesianBasis);
      assert |ts| > 0;
      forall j | 0 <= j < |v| ensures LongerThanOne(Term(v[j], CartesianBasis[j])) {
        assert |CartesianBasis[j]| > 1;
      }
      TermsSatisfy(v, CartesianBasis, LongerThanOne);
      assert ts[0] in ts;
      assert Render(v, CartesianBasis) == ts[0] + Concat(Signed(ts)[1..]);
    } else {
      assert NonZeroPositions(v) == {};
    }
  }

  /** The example of the module comment: (2, 0, -1) prints as 2 i - k. */
  lemma CartesianExample()
    ensures Render([Int(2), Int(0), Int(-1)], CartesianBasis) == "2\\hat{\\imath}-\\hat{k}"
  {
    var v := [Int(2), Int(0), Int(-1)];
    assert Decimal.IntToString(2) == "2" && Decimal.IntToString(0) == "0" && Decimal.IntToString(-1) == "-1";
    TermsSnoc(v, CartesianBasis, 0);
    TermsSnoc(v, CartesianBasis, 1);
    TermsSnoc(v, CartesianBasis, 2);
    assert v[..0] == [] && v[..3] == v;
    assert Term(Int(2), CartesianBasis[0]) == "2\\hat{\\imath}";
    assert Term(Int(-1), CartesianBasis[2]) == "-\\hat{k}";
    assert Terms(v, CartesianBasis) == ["2\\hat{\\imath}", "-\\hat{k}"];
  }
}
