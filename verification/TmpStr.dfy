/** The ring of string buffers of src/tmpstr.c. */
module TmpStr {

  const TMPSTR_NB := 32

  /** The slot of the n-th draw of a thread, counting from 1. */
  function SlotOf(n: nat): (k: nat)
    ensures k < TMPSTR_NB
  {
    n % TMPSTR_NB
  }

  /** Two draws share a slot only when they are a multiple of 32 draws apart. */
  lemma SlotReuse(m: nat, n: nat)
    requires m < n
    ensures n - m < TMPSTR_NB ==> SlotOf(m) != SlotOf(n)
    ensures n - m == TMPSTR_NB ==> SlotOf(m) == SlotOf(n)
  {
  }

  /** The last of the first `n` draws to use slot `k`, or -1. */
  function Holder(n: nat, k: nat): (h: int)
    ensures -1 <= h < n && (h >= 0 ==> SlotOf(h + 1) == k)
  {
    if n == 0 then -1 else if SlotOf(n) == k then n - 1 else Holder(n - 1, k)
  }

  /** What is in slot `k` after the strings of `log` have been drawn. */
  function Latest<T>(log: seq<T>, k: nat, zero: T): T {
    if Holder(|log|, k) < 0 then zero else log[Holder(|log|, k)]
  }

  /** Draw `i` has its slot through the next 31 draws and no longer: from the 32nd on, a later draw
      has it. */
  lemma {:induction false} Lifetime(n: nat, i: nat)
    requires i < n
    ensures n <= i + TMPSTR_NB ==> Holder(n, SlotOf(i + 1)) == i
    ensures n > i + TMPSTR_NB ==> Holder(n, SlotOf(i + 1)) > i
  {
    if i + 1 < n { SlotReuse(i + 1, n); }
    if SlotOf(n) != SlotOf(i + 1) { Lifetime(n - 1, i); }
  }

  /** The buffers of one thread. A buffer holds a T, and static storage starts out as `zero`; `log`
      is everything drawn so far. */
  class Ring<T> {
    const strings: array<T>
    const zero: T
    var current: nat
    ghost var log: seq<T>

    ghost predicate Valid()
      reads this, strings
    {
      && strings.Length == TMPSTR_NB
      && current == SlotOf(|log|)
      && (forall k :: 0 <= k < TMPSTR_NB ==> strings[k] == Latest(log, k, zero))
    }

    constructor (zero: T)
      ensures Valid() && log == [] && this.zero == zero && fresh(strings)
    {
      this.zero := zero;
      strings := new T[TMPSTR_NB](_ => zero);
      current, log := 0, [];
    }

    /** tmpstr_new and the vsnprintf into the slot: src/tmpstr.c:13-33. */
    method Printf(text: T) returns (k: nat)
      requires Valid()
      modifies this, strings
      ensures Valid() && log == old(log) + [text]
      ensures k == SlotOf(|log|)
    {
      current := current + 1;
      if current >= TMPSTR_NB {
        current := 0;
      }
      k := current;
      strings[k] := text;
      log := log + [text];
    }
  }
}
