/// Small shared vocabulary: an optional value (Rust's `Option`) and the
/// `(block index, slot offset)` pair that stands for a raw address handed out
/// by a pool.
module Common {

  datatype Option<T> = None | Some(value: T)

  /** An address inside a pool: the block (its position in the chain) and the
      slot offset inside that block. */
  datatype Address = Address(block: nat, slot: nat)

  /** The values `xs` as written slots. */
  function Somes<T>(xs: seq<T>): (r: seq<Option<T>>)
    ensures |r| == |xs| && forall i :: 0 <= i < |xs| ==> r[i] == Some(xs[i])
  {
    seq(|xs|, i requires 0 <= i < |xs| => Some(xs[i]))
  }

  /** Appending the first value and then the rest is appending them all. */
  lemma AppendSomes<T>(w: seq<Option<T>>, xs: seq<T>)
    requires xs != []
    ensures w + [Some(xs[0])] + Somes(xs[1..]) == w + Somes(xs)
  {
    assert [Some(xs[0])] + Somes(xs[1..]) == Somes(xs);
  }

  /** Appending the first element and then the rest is appending them all. */
  lemma AppendFirst<T>(w: seq<T>, xs: seq<T>)
    requires xs != []
    ensures w + [xs[0]] + xs[1..] == w + xs
  {
    assert [xs[0]] + xs[1..] == xs;
  }

  /** A prefix followed by the next element is the longer prefix. */
  lemma TakeOneMore<T>(xs: seq<T>, i: nat)
    requires i < |xs|
    ensures xs[..i] + [xs[i]] == xs[..i + 1]
  {
  }

  /** The slots of `n` blocks of `cap` slots each. */
  function Blocks(n: nat, cap: nat): nat
  {
    if n == 0 then 0 else Blocks(n - 1, cap) + cap
  }

  /** `a + b` blocks hold the slots of `a` blocks and of `b` more. */
  lemma {:induction false} BlocksAdd(a: nat, b: nat, cap: nat)
    ensures Blocks(a + b, cap) == Blocks(a, cap) + Blocks(b, cap)
    decreases b
  {
    if b > 0 {
      BlocksAdd(a, b - 1, cap);
    }
  }
}
