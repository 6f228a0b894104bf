/** The C types the runtime computes with: 32-bit unsigned words that wrap. */
module Words {
  const WORD: int := 0x1_0000_0000

  type U32 = x: int | 0 <= x < 0x1_0000_0000

  /** The word that holds the low 32 bits of x. */
  function Wrap32(x: nat): U32 {
    if x < 0x1_0000_0000 then x else Wrap32(x - 0x1_0000_0000)
  }

  lemma {:induction false} WrapIsMod(x: nat)
    ensures Wrap32(x) == x % 0x1_0000_0000
  {
    if x >= WORD {
      WrapIsMod(x - WORD);
    }
  }

  /** `a + n` on 32-bit unsigned words. */
  function Add32(a: U32, n: U32): U32 {
    if a + n < 0x1_0000_0000 then a + n else a + n - 0x1_0000_0000
  }

  /** `a - b` on 32-bit unsigned words. */
  function Sub32(a: U32, b: U32): U32 {
    if b <= a then a - b else a - b + 0x1_0000_0000
  }

  /** `(int32_t)(a - b) < 0`: the signed reading of the wrapped difference. */
  predicate WrapsLt(a: U32, b: U32) {
    Sub32(a, b) >= 0x8000_0000
  }

  /** Moving one end of a window of counters by one changes its length by one. */
  lemma WindowStep(head: U32, tail: U32)
    ensures Sub32(head, tail) > 0 ==> Sub32(head, Add32(tail, 1)) == Sub32(head, tail) - 1
    ensures Sub32(head, tail) < WORD - 1 ==> Sub32(Add32(head, 1), tail) == Sub32(head, tail) + 1
  {
  }

  /** Counting up and wrapping commute. */
  lemma {:induction false} WrapAdd(x: nat, n: U32)
    ensures Wrap32(x + n) == Add32(Wrap32(x), n)
  {
    if x >= WORD {
      WrapAdd(x - WORD, n);
    }
  }

  /** The distance between two wrapping counters follows the length it stands for. */
  lemma CounterPush(head: U32, tail: U32, len: nat, n: U32)
    requires Sub32(head, tail) == Wrap32(len)
    ensures Sub32(Add32(head, n), tail) == Wrap32(len + n)
  {
    WrapAdd(len, n);
  }

  lemma CounterPop(head: U32, tail: U32, len: nat, n: U32)
    requires Sub32(head, tail) == Wrap32(len) && n <= len
    ensures Sub32(head, Add32(tail, n)) == Wrap32(len - n)
  {
    WrapAdd(len - n, n);
  }

  lemma {:induction false} WrapAtMost(x: nat)
    ensures Wrap32(x) <= x
  {
    if x >= WORD {
      WrapAtMost(x - WORD);
    }
  }

  lemma WrapSmall(x: nat)
    requires x < WORD
    ensures Wrap32(x) == x
  {
  }
}

module Wrappers {
  datatype Option<+T> = None | Some(value: T)
}
