// Result types, bytes and the C arithmetic that every part of the model uses.
module Common {

  newtype byte = b: int | 0 <= b < 256

  datatype Option<+T> = None | Some(value: T)

  // The result of trying one atomic step: it must wait, it fails an assertion or
  // is undefined behaviour in the source, or it is taken.
  datatype Outcome<+S> = Blocked | Fault | Next(s: S)

  function Min(a: int, b: int): int { if a <= b then a else b }

  function Max(a: int, b: int): int { if a >= b then a else b }

  function Abs(a: int): nat { if a < 0 then -a else a }

  // Quotient and remainder by repeated subtraction.
  function Quotient(a: nat, b: nat): nat
    requires b > 0
  {
    if a < b then 0 else 1 + Quotient(a - b, b)
  }

  function Remainder(a: nat, b: nat): nat
    requires b > 0
  {
    if a < b then a else Remainder(a - b, b)
  }

  // Division and remainder of C: the quotient is truncated toward zero, the remainder
  // has the sign of the dividend.
  function CDiv(a: int, b: int): int
    requires b != 0
  {
    var q: int := Quotient(Abs(a), Abs(b));
    if (a < 0) == (b < 0) then q else -q
  }

  function CMod(a: int, b: int): int
    requires b != 0
  {
    var r: int := Remainder(Abs(a), Abs(b));
    if a < 0 then -r else r
  }

  lemma {:induction false} QuotientRemainder(a: nat, b: nat)
    requires b > 0
    ensures a == Quotient(a, b) * b + Remainder(a, b) && Remainder(a, b) < b
  {
    if a >= b {
      QuotientRemainder(a - b, b);
    }
  }

  lemma {:induction false} QuotientIsDivision(a: nat, b: nat)
    requires b > 0
    ensures Quotient(a, b) == a / b && Remainder(a, b) == a % b
  {
    if a >= b {
      QuotientIsDivision(a - b, b);
      assert (a - b) / b == a / b - 1 && (a - b) % b == a % b by {
        assert a == b * (a / b) + a % b;
        assert a - b == b * (a / b - 1) + a % b;
        DivisionUnique(a - b, b, a / b - 1, a % b);
      }
    }
  }

  lemma DivisionUnique(a: nat, b: nat, q: int, r: nat)
    requires b > 0 && a == b * q + r && r < b
    ensures a / b == q && a % b == r
  {
    var d := a / b - q;
    assert a == b * (a / b) + a % b;
    assert b * d == r - a % b;
    assert d >= 1 ==> b * d >= b;
    assert d <= -1 ==> b * d <= 0 - b;
  }

  lemma CDivModExact(a: int, b: int)
    requires b != 0
    ensures a == CDiv(a, b) * b + CMod(a, b)
    ensures Abs(CMod(a, b)) < Abs(b)
    ensures a >= 0 && b > 0 ==> CDiv(a, b) == a / b && CMod(a, b) == a % b
  {
    QuotientRemainder(Abs(a), Abs(b));
    if a >= 0 && b > 0 { QuotientIsDivision(a, b); }
  }

  // --- Positions in a channel ----------------------------------------------------------

  function Without<T>(s: seq<T>, i: nat): seq<T>
    requires i < |s|
  {
    s[..i] + s[i + 1..]
  }

  function Twice<T>(s: seq<T>, i: nat): seq<T>
    requires i < |s|
  {
    s[..i + 1] + s[i..]
  }
}
