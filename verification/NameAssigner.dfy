/** Pre-assignment of unique symbol names. */
module NameAssigners {

  function Digit(d: nat): char
    requires d < 10
  {
    "0123456789"[d]
  }

  function Decimal(n: nat): string {
    if n < 10 then [Digit(n)] else Decimal(n / 10) + [Digit(n % 10)]
  }

  function Numbered(prefix: string, n: nat): string {
    prefix + "." + Decimal(n)
  }

  /** The number that a string of digits stands for. */
  function ValueOf(digits: string): int {
    if digits == [] then 0 else 10 * ValueOf(digits[..|digits| - 1]) + (digits[|digits| - 1] as int - '0' as int)
  }

  /** The usual way to write a number: decimal digits, without leading zeros. */
  ghost predicate IsDecimal(digits: string, n: nat) {
    && digits != [] && (forall k | 0 <= k < |digits| :: '0' <= digits[k] <= '9')
    && ValueOf(digits) == n && (n > 0 ==> digits[0] != '0') && (n == 0 ==> |digits| == 1)
  }

  lemma {:induction false} DecimalIsDecimal(n: nat)
    ensures IsDecimal(Decimal(n), n)
    decreases n
  {
    var digits := Decimal(n);
    if n < 10 {
      assert digits[..0] == [];
    } else {
      DecimalIsDecimal(n / 10);
      assert digits[..|digits| - 1] == Decimal(n / 10);
      assert n == 10 * (n / 10) + n % 10;
    }
  }

  lemma DigitInjective(a: nat, b: nat)
    requires a < 10 && b < 10 && Digit(a) == Digit(b)
    ensures a == b
  {
  }

  lemma {:induction false} DecimalInjective(a: nat, b: nat)
    requires Decimal(a) == Decimal(b)
    ensures a == b
  {
    var da, db := Decimal(a), Decimal(b);
    DecimalNonEmpty(a / 10);
    DecimalNonEmpty(b / 10);
    assert da[|da| - 1] == Digit(a % 10) && db[|db| - 1] == Digit(b % 10);
    DigitInjective(a % 10, b % 10);
    if a >= 10 && b >= 10 {
      assert Decimal(a / 10) == da[..|da| - 1] == db[..|db| - 1] == Decimal(b / 10);
      DecimalInjective(a / 10, b / 10);
    }
  }

  lemma DecimalNonEmpty(n: nat)
    ensures |Decimal(n)| > 0
  {
  }

  /** Different numbers give different names. */
  lemma NumberedInjective(prefix: string, a: nat, b: nat)
    requires Numbered(prefix, a) == Numbered(prefix, b)
    ensures a == b
  {
    assert Decimal(a) == Numbered(prefix, a)[|prefix| + 1..];
    assert Decimal(b) == Numbered(prefix, b)[|prefix| + 1..];
    DecimalInjective(a, b);
  }

  /** The taken names that the search can still run into from number `n` on. */
  ghost function Obstacles(prefix: string, taken: set<string>, n: nat): set<string> {
    set s | s in taken && exists k: nat :: n <= k && s == Numbered(prefix, k)
  }

  lemma ObstaclesShrink(prefix: string, taken: set<string>, n: nat)
    requires Numbered(prefix, n) in taken
    ensures Obstacles(prefix, taken, n + 1) < Obstacles(prefix, taken, n)
  {
    assert Numbered(prefix, n) in Obstacles(prefix, taken, n);
    forall k: nat | n + 1 <= k
      ensures Numbered(prefix, n) != Numbered(prefix, k)
    {
      if Numbered(prefix, n) == Numbered(prefix, k) {
        NumberedInjective(prefix, n, k);
      }
    }
  }

  class NameAssigner {
    /** The symbols that the module already has. */
    const symbols: set<string>
    /** The names assigned so far. */
    var names: set<string>
    var uniqueNumber: nat

    constructor (symbols: set<string>)
      ensures this.symbols == symbols && names == {} && uniqueNumber == 0
    {
      this.symbols := symbols;
      names := {};
      uniqueNumber := 0;
    }

    /** Assigns the first free name for the prefix, counting from the last number used. */
    method AssignName(prefix: string) returns (name: string)
      modifies this
      ensures name !in symbols && name !in old(names)
      ensures names == old(names) + {name}
      ensures old(uniqueNumber) <= uniqueNumber && name == Numbered(prefix, uniqueNumber)
      ensures prefix + "." <= name && IsDecimal(name[|prefix| + 1..], uniqueNumber)
      ensures forall k | old(uniqueNumber) <= k < uniqueNumber ::
                Numbered(prefix, k) in symbols + old(names)
    {
      name := Numbered(prefix, uniqueNumber);
      while name in symbols || name in names
        invariant names == old(names) && old(uniqueNumber) <= uniqueNumber
        invariant name == Numbered(prefix, uniqueNumber)
        invariant forall k | old(uniqueNumber) <= k < uniqueNumber ::
                    Numbered(prefix, k) in symbols + names
        decreases Obstacles(prefix, symbols + names, uniqueNumber)
      {
        ObstaclesShrink(prefix, symbols + names, uniqueNumber);
        uniqueNumber := uniqueNumber + 1;
        name := Numbered(prefix, uniqueNumber);
      }
      names := names + {name};
      DecimalIsDecimal(uniqueNumber);
      assert name[|prefix| + 1..] == Decimal(uniqueNumber);
    }
  }
}
