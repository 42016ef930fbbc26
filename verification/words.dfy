/** 64-bit words: counters and sums of them wrap around. */
module Words {

  const WORD: nat := 0x1_0000_0000_0000_0000

  type Word = n: nat | n < WORD

  /** `a - b` on words. */
  function Minus(a: Word, b: Word): Word { (a - b) % WORD }

  lemma SmallMod(n: nat)
    requires n < WORD
    ensures n % WORD == n
  {}

  lemma ModOnce(n: nat)
    requires WORD <= n < 2 * WORD
    ensures n % WORD == n - WORD
  {}

  lemma ModNegative(d: int)
    requires 0 < d <= WORD
    ensures (-d) % WORD == WORD - d
  {}

  lemma WrappedBelow(s: nat)
    ensures s % WORD <= s
  {}

  lemma WrapTwice(a: nat, b: nat)
    ensures (a % WORD + b) % WORD == (a + b) % WORD
  {}

  lemma {:induction false} ModShift(a: int, k: nat)
    ensures (a + k * WORD) % WORD == a % WORD
  {
    if k > 0 {
      ModShift(a, k - 1);
      ModStep(a + (k - 1) * WORD);
    }
  }

  lemma ModStep(a: int)
    ensures (a + WORD) % WORD == a % WORD
  {}

  lemma WrapsBelow(a: Word, n: nat)
    ensures (a + n) % WORD == a + n || (a + n) % WORD <= n
  {}

  /** Subtraction undoes addition modulo the word size: a difference is the true growth of a counter even
      across a wrap-around, as long as less than a whole word was added. */
  lemma MinusIsGrowth(before: Word, growth: nat)
    requires growth < WORD
    ensures Minus((before + growth) % WORD, before) == growth
  {
    var sum := before + growth;
    if sum < WORD {
      SmallMod(sum);
      SmallMod(growth);
    } else {
      ModOnce(sum);
      ModNegative(WORD - growth);
    }
  }

  lemma AddMinus(a: Word, b: Word)
    ensures (b + Minus(a, b)) % WORD == a
  {
    if a >= b {
      SmallMod(a - b);
    } else {
      ModNegative(b - a);
      ModOnce(b + Minus(a, b));
    }
    SmallMod(a);
  }
}
