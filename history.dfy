/** The calculation history: a most-recent-first list of entries, capped at
    twenty (script.js:85-92).
 */
module History {

  /** Number of entries the history keeps. */
  const Capacity := 20

  /** One completed calculation, as handed to `addHistoryEntry`: the parsed left
      and right operands, the operator's symbol and the unrounded result. Its
      rendering to display text is not part of this model. */
  datatype Entry<Num> = Entry(left: Num, symbol: string, right: Num, result: Num)

  /** `history.unshift(entry)`, then one `history.pop()` if the list has grown past
      the capacity. */
  function Push<E>(h: seq<E>, e: E): (r: seq<E>)
    ensures |r| == if |h| < Capacity then |h| + 1 else |h|
    ensures r[0] == e
    ensures r[1..] == h[..|r| - 1]
    ensures |h| <= Capacity ==> |r| <= Capacity
  {
    var grown := [e] + h;
    if |grown| > Capacity then grown[..|grown| - 1] else grown
  }

  /** The history after pushing each of `es`, first to last. */
  function PushAll<E>(h: seq<E>, es: seq<E>): seq<E>
  {
    if es == [] then h else Push(PushAll(h, es[..|es| - 1]), es[|es| - 1])
  }

  /** `s` last-to-first. */
  function Reversed<E>(s: seq<E>): (r: seq<E>)
    ensures |r| == |s|
    ensures forall i :: 0 <= i < |s| ==> r[i] == s[|s| - 1 - i]
  {
    if s == [] then [] else [s[|s| - 1]] + Reversed(s[..|s| - 1])
  }

  function Min(a: int, b: int): int
  {
    if a < b then a else b
  }

  /** After any run of calculations the history holds the newest entries first,
      followed by what it held before, cut to the capacity: the oldest entries are
      the ones evicted. */
  lemma {:induction false} PushAllKeepsNewest<E>(h: seq<E>, es: seq<E>)
    requires |h| <= Capacity
    ensures PushAll(h, es) == (Reversed(es) + h)[..Min(|es| + |h|, Capacity)]
  {
    if es != [] {
      var init, e := es[..|es| - 1], es[|es| - 1];
      PushAllKeepsNewest(h, init);
      var p := PushAll(h, init);
      var m := Min(|init| + |h|, Capacity);
      assert p == (Reversed(init) + h)[..m];
      assert Reversed(es) == [e] + Reversed(init);
      var r := PushAll(h, es);
      assert r == Push(p, e);
      assert r == ([e] + Reversed(init) + h)[..|r|] by {
        forall i | 0 <= i < |r|
          ensures r[i] == ([e] + Reversed(init) + h)[i]
        {
          if i > 0 {
            assert r[i] == r[1..][i - 1];
          }
        }
      }
    }
  }

  /** After twenty-one calculations on an empty history, the first one is gone,
      the history is full and its first entry is the twenty-first result. */
  lemma TwentyOneCalculations<E>(es: seq<E>)
    requires |es| == Capacity + 1
    ensures |PushAll([], es)| == Capacity
    ensures PushAll([], es)[0] == es[Capacity]
    ensures PushAll([], es) == Reversed(es[1..])
  {
    PushAllKeepsNewest([], es);
    var r := PushAll([], es);
    assert r == Reversed(es)[..Capacity];
    forall i | 0 <= i < Capacity
      ensures r[i] == Reversed(es[1..])[i]
    {
    }
  }
}
