/**
 * The short-name generator: `number_to_digits` and `variable_name_generator`
 * (pymini/utils.py; the same code is repeated in ugli.py and pyminier.py).
 *
 * A counter is written in base 52 and each digit becomes one letter. The last
 * character (the least significant digit) uses `a`..`z` for 0..25 and `A`..`Z`
 * for 26..51; every other character is shifted down by one, so there digit 0 is
 * the character before `a` (a back-quote) and digit 26 the one before `A` (`@`).
 */
module Names {
  import opened Seqs

  /** The base the generator counts in. */
  const NameBase: nat := 52

  /** Big-endian value of `digits` in `base`. */
  function Value(digits: seq<nat>, base: nat): nat
    decreases |digits|
  {
    if digits == [] then 0
    else Value(digits[..|digits| - 1], base) * base + digits[|digits| - 1]
  }

  /** Big-endian digits of `n` with no leading zero; empty for zero. */
  function Digits(n: nat, base: nat): (ds: seq<nat>)
    requires base >= 2
    ensures forall i :: 0 <= i < |ds| ==> ds[i] < base
    decreases n
  {
    if n == 0 then [] else Digits(n / base, base) + [n % base]
  }

  /** What `number_to_digits(n, base)` returns. */
  function DigitsOf(n: nat, base: nat): (ds: seq<nat>)
    requires base >= 2
    ensures |ds| >= 1 && forall i :: 0 <= i < |ds| ==> ds[i] < base
  {
    if n == 0 then [0] else Digits(n, base)
  }

  /** The digits of `n` evaluate back to `n`. */
  lemma {:induction false} DigitsValue(n: nat, base: nat)
    requires base >= 2
    ensures Value(Digits(n, base), base) == n
    decreases n
  {
    if n > 0 {
      var ds := Digits(n, base);
      DigitsValue(n / base, base);
      assert ds[..|ds| - 1] == Digits(n / base, base);
    }
  }

  /** A positive number has at least one digit and its leading digit is not zero. */
  lemma {:induction false} DigitsLeading(n: nat, base: nat)
    requires base >= 2 && n > 0
    ensures |Digits(n, base)| >= 1 && Digits(n, base)[0] != 0
    decreases n
  {
    if n / base > 0 {
      DigitsLeading(n / base, base);
    } else {
      assert Digits(n, base) == [n % base];
    }
  }

  /**
   * `number_to_digits` is the canonical big-endian numeral: its digits lie in
   * `[0, base)`, evaluate back to `n`, and start with a zero only for `n == 0`.
   */
  lemma DigitsOfCanonical(n: nat, base: nat)
    requires base >= 2
    ensures Value(DigitsOf(n, base), base) == n
    ensures DigitsOf(n, base)[0] == 0 <==> n == 0
    ensures n == 0 ==> DigitsOf(n, base) == [0]
  {
    if n > 0 {
      DigitsValue(n, base);
      DigitsLeading(n, base);
    } else {
      assert Value([0], base) == Value([], base) * base + 0;
    }
  }

  /** Distinct numbers have distinct digit lists. */
  lemma DigitsOfInjective(a: nat, b: nat, base: nat)
    requires base >= 2 && DigitsOf(a, base) == DigitsOf(b, base)
    ensures a == b
  {
    DigitsOfCanonical(a, base);
    DigitsOfCanonical(b, base);
  }

  /**
   * `number_to_digits`: collect the digits least significant first with a
   * `while n > 0` loop, then reverse them.
   */
  method NumberToDigits(n: nat, base: nat) returns (digits: seq<nat>)
    requires base >= 2
    ensures digits == DigitsOf(n, base)
  {
    var little: seq<nat> := [];
    if n == 0 {
      little := [0];
    }
    var m: nat := n;
    while m > 0
      invariant DigitsOf(n, base) == Digits(m, base) + Reversed(little)
    {
      var digit: nat, rest: nat := m % base, m / base;
      DigitsStep(n, m, base, little);
      little := little + [digit];
      m := rest;
    }
    digits := Reversed(little);
  }

  /** One turn of the `number_to_digits` loop keeps its invariant. */
  lemma DigitsStep(n: nat, m: nat, base: nat, little: seq<nat>)
    requires base >= 2 && m > 0
    requires DigitsOf(n, base) == Digits(m, base) + Reversed(little)
    ensures DigitsOf(n, base) == Digits(m / base, base) + Reversed(little + [m % base])
    ensures m / base < m
  {
    ReversedSnoc(little, m % base);
    DivShrinks(m, base);
  }

  /** Dividing a positive number by a base of at least two makes it smaller. */
  lemma DivShrinks(m: nat, base: nat)
    requires base >= 2 && m > 0
    ensures m / base < m
  {
    var q := m / base;
    assert m == q * base + m % base;
    assert q * base >= q * 2 by {
      assert q * base - q * 2 == q * (base - 2);
    }
  }

  /**
   * The character for one base-52 digit: `chr(ord(first) + digit % 26 - shift)`
   * where `first` is `a` below 26 and `A` from 26 on, and `shifted` holds for
   * every position but the last.
   */
  function CharOf(digit: nat, shifted: bool): (c: char)
    requires digit < NameBase
    ensures !shifted ==> ('a' <= c <= 'z' <==> digit < 26)
  {
    var first := if digit < 26 then 'a' else 'A';
    ((first as int) + digit % 26 - (if shifted then 1 else 0)) as char
  }

  /** The candidate name the generator builds from `counter`. */
  function NameOf(counter: nat): (name: string)
  {
    var ds := DigitsOf(counter, NameBase);
    seq(|ds|, i requires 0 <= i < |ds| => CharOf(ds[i], i < |ds| - 1))
  }

  /** Two digits at the same kind of position give the same character only if they are equal. */
  lemma CharOfInjective(d1: nat, d2: nat, shifted: bool)
    requires d1 < NameBase && d2 < NameBase && CharOf(d1, shifted) == CharOf(d2, shifted)
    ensures d1 == d2
  {
    assert CharOf(d1, shifted) as int == CharOf(d2, shifted) as int;
  }

  /** Distinct counters give distinct names, so no name is produced twice. */
  lemma NameOfInjective(a: nat, b: nat)
    requires NameOf(a) == NameOf(b)
    ensures a == b
  {
    var da, db := DigitsOf(a, NameBase), DigitsOf(b, NameBase);
    assert |da| == |NameOf(a)| == |NameOf(b)| == |db|;
    forall i | 0 <= i < |da| ensures da[i] == db[i] {
      assert NameOf(a)[i] == NameOf(b)[i];
      CharOfInjective(da[i], db[i], i < |da| - 1);
    }
    assert da == db;
    DigitsOfInjective(a, b, NameBase);
  }

  /** Counters 0..25 name `a`..`z` and counters 26..51 name `A`..`Z`. */
  lemma NameOfOneLetter(counter: nat)
    requires counter < NameBase
    ensures counter < 26 ==> NameOf(counter) == [('a' as int + counter) as char]
    ensures counter >= 26 ==> NameOf(counter) == [('A' as int + counter - 26) as char]
  {
    if counter > 0 {
      assert Digits(counter, NameBase) == Digits(0, NameBase) + [counter];
    }
  }

  /** Counter 52 is the first two-letter name. */
  lemma NameOfFirstTwoLetters()
    ensures NameOf(52) == "aa"
  {
    assert Digits(1, NameBase) == [1];
    assert DigitsOf(52, NameBase) == [1, 0];
    assert CharOf(1, true) == 'a' && CharOf(0, false) == 'a';
  }

  /** A shifted digit 26 is the character before `A`. */
  lemma NameOfShiftedUpper()
    ensures NameOf(1352) == "@a"
  {
    assert Digits(26, NameBase) == [26];
    assert DigitsOf(1352, NameBase) == [26, 0];
    assert CharOf(26, true) == '@' && CharOf(0, false) == 'a';
  }

  /** Counter 473 gives `if`, a Python keyword, so not every name is an identifier. */
  lemma NameOfKeyword()
    ensures NameOf(473) == "if"
  {
    assert Digits(9, NameBase) == [9];
    assert DigitsOf(473, NameBase) == [9, 5];
    assert CharOf(9, true) == 'i' && CharOf(5, false) == 'f';
  }

  /** A shifted digit 0 is the character before `a`. */
  lemma NameOfShiftedZero()
    ensures NameOf(2704) == "a`a"
  {
    assert Digits(1, NameBase) == [1];
    assert Digits(52, NameBase) == [1, 0];
    assert DigitsOf(2704, NameBase) == [1, 0, 0];
    assert CharOf(1, true) == 'a' && CharOf(0, true) == '`' && CharOf(0, false) == 'a';
  }

  /**
   * The loop of `variable_name_generator` that turns the counter into a name:
   * walk the digits least significant first and prepend one character each.
   */
  method SpellName(counter: nat) returns (name: string)
    ensures name == NameOf(counter)
  {
    var digits := NumberToDigits(counter, NameBase);
    var little := Reversed(digits);
    ghost var full := NameOf(counter);
    name := "";
    for i := 0 to |little|
      invariant name == full[|digits| - i..]
    {
      NameOfAt(counter, |digits| - 1 - i);
      name := [CharOf(little[i], i > 0)] + name;
      assert name == full[|digits| - 1 - i..];
    }
  }

  /** The character at position `j` of a name comes from the digit at `j`. */
  lemma NameOfAt(counter: nat, j: nat)
    requires j < |DigitsOf(counter, NameBase)|
    ensures var ds := DigitsOf(counter, NameBase);
      |NameOf(counter)| == |ds| && NameOf(counter)[j] == CharOf(ds[j], j < |ds| - 1)
  {
  }

  /** `seen` holds exactly the names of the counters in `[lo, hi)`. */
  ghost predicate NamesOfRange(seen: set<string>, lo: nat, hi: nat) {
    && (forall k: nat :: lo <= k < hi ==> NameOf(k) in seen)
    && (forall s :: s in seen ==> exists k: nat :: lo <= k < hi && NameOf(k) == s)
  }

  /** The name of the next counter is new, and adding it extends the range by one. */
  lemma NamesOfRangeStep(seen: set<string>, lo: nat, hi: nat)
    requires lo <= hi && NamesOfRange(seen, lo, hi)
    ensures NameOf(hi) !in seen
    ensures NamesOfRange(seen + {NameOf(hi)}, lo, hi + 1)
  {
    if NameOf(hi) in seen {
      var k: nat :| lo <= k < hi && NameOf(k) == NameOf(hi);
      NameOfInjective(k, hi);
    }
  }

  /** The names of the counters below `c`. */
  ghost function NamesBelow(c: nat): set<string> {
    set k | 0 <= k < c :: NameOf(k)
  }

  /** A counter's name is among the names below `c` exactly when the counter is. */
  lemma NamesBelowHas(c: nat, k: nat)
    ensures NameOf(k) in NamesBelow(c) <==> k < c
  {
    if NameOf(k) in NamesBelow(c) {
      var j :| 0 <= j < c && NameOf(j) == NameOf(k);
      NameOfInjective(j, k);
    }
  }

  /** Raising the counter only adds names. */
  lemma NamesBelowMono(a: nat, b: nat)
    requires a <= b
    ensures NamesBelow(a) <= NamesBelow(b)
  {
    forall s | s in NamesBelow(a) ensures s in NamesBelow(b) {
      var k :| 0 <= k < a && NameOf(k) == s;
      NamesBelowHas(b, k);
    }
  }

  /** Skipping a used candidate leaves fewer used names ahead of the counter. */
  lemma NamesBelowStep(used: set<string>, c: nat)
    requires NameOf(c) in used
    ensures |used - NamesBelow(c + 1)| < |used - NamesBelow(c)|
  {
    NamesBelowHas(c, c);
    forall s | s in NamesBelow(c + 1) ensures s in NamesBelow(c) + {NameOf(c)} {
      var k :| 0 <= k < c + 1 && NameOf(k) == s;
      if k < c {
        NamesBelowHas(c, k);
      }
    }
    forall s | s in NamesBelow(c) ensures s in NamesBelow(c + 1) {
      var k :| 0 <= k < c && NameOf(k) == s;
      NamesBelowHas(c + 1, k);
    }
    NamesBelowHas(c + 1, c);
    assert used - NamesBelow(c + 1) == (used - NamesBelow(c)) - {NameOf(c)};
  }

  /**
   * The counter `next(generator)` settles on when it stands at `c`: the
   * first one from `c` on whose name is not in `used`.
   */
  function NextFree(used: set<string>, c: nat): (k: nat)
    ensures c <= k && NameOf(k) !in used
    ensures forall j: nat :: c <= j < k ==> NameOf(j) in used
    decreases |used - NamesBelow(c)|
  {
    if NameOf(c) !in used then c
    else
      NamesBelowStep(used, c);
      NextFree(used, c + 1)
  }

  /**
   * One `next(generator)` with the counter at `cur`: the name it yields and
   * the counter after it. The name was never yielded from a lower counter.
   */
  function Draw(used: set<string>, cur: nat): (r: (string, nat))
    ensures r.0 !in used && cur < r.1 && r.0 == NameOf(r.1 - 1)
    ensures r.0 in NamesBelow(r.1) && r.0 !in NamesBelow(cur)
  {
    var k := NextFree(used, cur);
    NamesBelowHas(cur, k);
    NamesBelowHas(k + 1, k);
    (NameOf(k), k + 1)
  }

  /**
   * `variable_name_generator(used)`: an infinite generator that walks a
   * counter upwards and yields the name of every counter whose name is not in
   * `used`. `Yielded` records the names handed out so far.
   */
  class NameGenerator {
    var cur: nat
    const used: set<string>
    ghost var Yielded: set<string>
    /** The names of all counters below `cur`. */
    ghost var Candidates: set<string>

    ghost predicate Valid()
      reads this
    {
      && (forall s :: s in Yielded ==> s !in used)
      && NamesOfRange(Candidates, 0, cur) && Yielded <= Candidates
    }

    constructor (used: set<string>)
      ensures Valid() && this.used == used && cur == 0 && Yielded == {}
    {
      this.used := used;
      cur := 0;
      Yielded := {};
      Candidates := {};
    }

    /**
     * `next(generator)`: the first candidate from the counter on that is not
     * in `used`; the counter moves past every candidate it looked at.
     */
    method Next() returns (name: string)
      requires Valid()
      modifies this
      ensures Valid()
      ensures name !in used && name !in old(Yielded) && Yielded == old(Yielded) + {name}
      ensures (name, cur) == Draw(used, old(cur))
    {
      var c;
      ghost var names;
      c, name, names := FirstFree(used, cur, Candidates);
      NamesOfRangeStep(names, 0, c);
      cur := c + 1;
      Candidates := names + {name};
      Yielded := Yielded + {name};
    }
  }

  /**
   * The `while True` loop of the generator: from counter `from` on, the first
   * counter whose name is not in `used`. `names` carries the names of all
   * counters below the current one.
   */
  method FirstFree(used: set<string>, from: nat, ghost names: set<string>)
    returns (c: nat, name: string, ghost names': set<string>)
    requires NamesOfRange(names, 0, from)
    ensures from <= c && name == NameOf(c) && name !in used
    ensures forall k: nat :: from <= k < c ==> NameOf(k) in used
    ensures NamesOfRange(names', 0, c) && names <= names'
  {
    c := from;
    names' := names;
    name := SpellName(c);
    ghost var seen: set<string> := {};
    while name in used
      invariant from <= c && name == NameOf(c)
      invariant seen <= used && NamesOfRange(seen, from, c)
      invariant NamesOfRange(names', 0, c) && names <= names'
      decreases used - seen
    {
      NamesOfRangeStep(seen, from, c);
      NamesOfRangeStep(names', 0, c);
      seen := seen + {name};
      names' := names' + {name};
      c := c + 1;
      name := SpellName(c);
    }
  }

  /**
   * The doctest of `variable_name_generator`: with nothing excluded the names
   * start `a`, after 25 more `A`, and after 25 more `aa`.
   */
  method GeneratorDoctest()
  {
    var gen := new NameGenerator({});
    var first := gen.Next();
    NameOfOneLetter(0);
    assert first == "a";
    for i := 0 to 25
      invariant gen.Valid() && gen.used == {} && gen.cur == i + 1
    {
      ghost var before := gen.cur;
      var _ := gen.Next();
      assert NameOf(before) !in gen.used;
    }
    var upper := gen.Next();
    NameOfOneLetter(26);
    assert upper == "A";
    for i := 0 to 25
      invariant gen.Valid() && gen.used == {} && gen.cur == i + 27
    {
      ghost var before := gen.cur;
      var _ := gen.Next();
      assert NameOf(before) !in gen.used;
    }
    var twoLetters := gen.Next();
    NameOfFirstTwoLetters();
    assert twoLetters == "aa";
  }
}
