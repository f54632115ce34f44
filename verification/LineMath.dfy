/** Cache-line arithmetic on 64-bit addresses. */
module LineMath {

  const MAX64: nat := 0xFFFF_FFFF_FFFF_FFFF

  /** 64-bit wrap-around. */
  function Wrap(x: int): (r: nat)
    ensures r <= MAX64
    ensures 0 <= x <= MAX64 ==> r == x
  {
    x % (MAX64 + 1)
  }

  predicate Word(x: nat) { x <= MAX64 }

  /** The line that holds address x. */
  function LineOf(x: nat, line: nat): nat
    requires line > 0
  {
    (x / line) * line
  }

  lemma Distribute(a: nat, d: nat, line: nat)
    ensures (a + d) * line == a * line + d * line
  {
  }

  lemma {:induction false} Product(a: nat, line: nat)
    ensures a * line >= 0 && (a > 0 ==> a * line >= line) && (line > 0 ==> a * line >= a)
    decreases a
  {
    if a > 0 { Product(a - 1, line); Distribute(a - 1, 1, line); }
  }

  lemma Multiples(a: nat, b: nat, line: nat)
    requires a < b
    ensures a * line + line <= b * line
  {
    Distribute(a, b - a, line);
    Product(b - a, line);
  }

  lemma DivMod(x: nat, line: nat)
    requires line > 0
    ensures x == (x / line) * line + x % line && 0 <= x % line < line && x / line >= 0
  {
  }

  /** Two ways of writing x as a multiple plus a remainder are the same. */
  lemma SameMultiple(a: nat, r: nat, b: nat, s: nat, line: nat)
    requires r < line && s < line && a * line + r == b * line + s
    ensures a == b && r == s
  {
    if a < b { Multiples(a, b, line); }
    if b < a { Multiples(b, a, line); }
  }

  /** k * line + r with r < line has quotient k. */
  lemma Quotient(k: nat, r: nat, line: nat)
    requires r < line
    ensures (k * line + r) / line == k && (k * line + r) % line == r
  {
    Product(k, line);
    var x: nat := k * line + r;
    DivMod(x, line);
    SameMultiple(k, r, x / line, x % line, line);
  }

  lemma LineOfSum(k: nat, r: nat, line: nat)
    requires r < line
    ensures k * line + r >= 0 && LineOf(k * line + r, line) == k * line
  {
    Product(k, line);
    Quotient(k, r, line);
  }

  lemma LineOfBounds(x: nat, line: nat)
    requires line > 0
    ensures LineOf(x, line) <= x < LineOf(x, line) + line
    ensures LineOf(x, line) % line == 0
  {
    DivMod(x, line);
    Quotient(x / line, 0, line);
  }
}
