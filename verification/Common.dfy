/** Types and 32-bit arithmetic shared by every component of the model. */
module Common {

  type byte = x: int | 0 <= x < 256

  datatype Option<+T> = None | Some(value: T)

  /** The millisecond clock and every `uint32_t` counter wrap at this value. */
  const TWO31: int := 0x8000_0000
  const TWO32: int := 0x1_0000_0000

  function Wrap32(t: int): (w: nat)
    ensures w < TWO32
  {
    t % TWO32
  }

  /** Unsigned 32-bit subtraction, as `millis() - startedMs` computes it. */
  function Sub32(a: nat, b: nat): (d: nat)
    ensures d < TWO32
  {
    Wrap32(a - b)
  }

  /** `static_cast<int32_t>(a - b) < 0`: the test the code uses for "a is earlier than b". */
  predicate Earlier32(a: nat, b: nat) {
    Sub32(a, b) >= TWO31
  }

  lemma Sub32IsElapsed(t0: nat, t1: nat)
    requires t0 <= t1 < t0 + TWO32
    ensures Sub32(Wrap32(t1), Wrap32(t0)) == t1 - t0
  {
    var k0, k1 := t0 / TWO32, t1 / TWO32;
    assert t0 == k0 * TWO32 + Wrap32(t0) && t1 == k1 * TWO32 + Wrap32(t1);
  }

  /**
   * The signed wrapped difference orders two true times (less than one wrap apart) correctly,
   * in both directions, exactly when they are less than half a wrap apart.
   */
  lemma Earlier32Exact(t0: nat, t1: nat)
    requires -TWO32 < t0 - t1 < TWO32
    ensures ((Earlier32(Wrap32(t0), Wrap32(t1)) <==> t0 < t1) &&
             (Earlier32(Wrap32(t1), Wrap32(t0)) <==> t1 < t0))
       <==> -TWO31 < t0 - t1 < TWO31
  {
    var k0, k1 := t0 / TWO32, t1 / TWO32;
    assert t0 == k0 * TWO32 + Wrap32(t0) && t1 == k1 * TWO32 + Wrap32(t1);
  }

  /** Beyond that window the test is not even transitive: three times chase each other. */
  lemma Earlier32Cycles()
    ensures exists a: nat, b: nat, c: nat ::
              a < b < c < TWO32 && Earlier32(a, b) && Earlier32(b, c) && Earlier32(c, a)
  {
    var a, b, c := 0, 0x6000_0000, 0xC000_0000;
    assert Earlier32(a, b) && Earlier32(b, c) && Earlier32(c, a);
  }

  function Min(a: int, b: int): (m: int)
  {
    if a < b then a else b
  }

  lemma Associates<T>(a: seq<T>, b: seq<T>, c: seq<T>)
    ensures (a + b) + c == a + (b + c)
  {
  }

  /** Concatenation of a list of chunks. */
  function Flatten<T>(chunks: seq<seq<T>>): seq<T> {
    if chunks == [] then [] else chunks[0] + Flatten(chunks[1..])
  }

  lemma {:induction false} FlattenAppend<T>(chunks: seq<seq<T>>, chunk: seq<T>)
    ensures Flatten(chunks + [chunk]) == Flatten(chunks) + chunk
  {
    if chunks == [] {
      assert [chunk][1..] == [];
    } else {
      assert (chunks + [chunk])[1..] == chunks[1..] + [chunk];
      FlattenAppend(chunks[1..], chunk);
    }
  }
}
