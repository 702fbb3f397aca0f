/** Text-level behaviour of numeral entry: what `appendNumber` and `delete` do to
    the text of the current operand, and an independent description of the text
    that a run of key presses produces.
 */
module Digits {

  /** Number of decimal points in `s`. */
  function Points(s: string): nat
  {
    multiset(s)['.']
  }

  /** What `appendNumber(token)` makes of a text operand `cur`: a second decimal
      point is refused, a lone "0" is replaced by the token (unless the token is a
      point), and otherwise the token is appended. */
  function AppendToken(cur: string, token: string): (r: string)
    ensures r == cur || r == token || r == cur + token
  {
    if token == "." && '.' in cur then cur
    else if cur == "0" && token != "." then token
    else cur + token
  }

  /** Typing keeps "at most one decimal point", for a token that is a lone point
      or holds none. */
  lemma AppendKeepsOnePoint(cur: string, token: string)
    requires Points(cur) <= 1 && (token == "." || '.' !in token)
    ensures Points(AppendToken(cur, token)) <= 1
  {
    assert multiset(cur + token) == multiset(cur) + multiset(token);
  }

  /** `s.slice(0, -1)`: everything but the last character (empty stays empty). */
  function DropLast(s: string): (r: string)
    ensures |s| > 0 ==> |r| == |s| - 1 && r + [s[|s| - 1]] == s
    ensures |s| == 0 ==> r == ""
  {
    if |s| == 0 then ""
    else
      assert s == s[..|s| - 1] + [s[|s| - 1]];
      s[..|s| - 1]
  }

  /** Erasing adds no decimal point. */
  lemma DropLastAddsNoPoint(s: string)
    ensures Points(DropLast(s)) <= Points(s)
  {
    if |s| > 0 {
      assert multiset(s) == multiset(DropLast(s)) + multiset([s[|s| - 1]]);
    }
  }

  /** The text left after typing the characters `keys` one by one onto `cur`,
      each as its own `appendNumber` token. */
  function Typed(cur: string, keys: seq<char>): string
  {
    if keys == [] then cur
    else AppendToken(Typed(cur, keys[..|keys| - 1]), [keys[|keys| - 1]])
  }

  // ---- An independent description of the typed text ----

  /** `s` with every decimal point after the first one removed. */
  function KeepFirstPoint(s: string): (r: string)
    ensures Points(r) <= 1
    ensures '.' in r <==> '.' in s
    ensures |r| <= |s|
  {
    if s == [] then []
    else
      var init, c := s[..|s| - 1], s[|s| - 1];
      assert s == init + [c];
      if c == '.' && '.' in init then KeepFirstPoint(init)
      else
        var k := KeepFirstPoint(init);
        assert multiset(k + [c]) == multiset(k) + multiset([c]);
        k + [c]
  }

  /** `s` with its redundant leading zeros removed: a leading '0' goes whenever
      another character follows it that is not a decimal point. */
  function StripZeros(s: string): (r: string)
    ensures |r| <= |s|
  {
    if |s| >= 2 && s[0] == '0' && s[1] != '.' then StripZeros(s[1..]) else s
  }

  /** Suppressing zeros removes no decimal point. */
  lemma {:induction false} StripZerosKeepsPoints(s: string)
    ensures Points(StripZeros(s)) == Points(s)
  {
    if |s| >= 2 && s[0] == '0' && s[1] != '.' {
      assert s == [s[0]] + s[1..];
      assert multiset(s) == multiset([s[0]]) + multiset(s[1..]);
      StripZerosKeepsPoints(s[1..]);
    }
  }

  /** The text of a numeral typed key by key: the concatenation of the keys, with
      every point after the first dropped and the leading zeros suppressed. */
  function Numeral(s: string): string
  {
    StripZeros(KeepFirstPoint(s))
  }

  /** Text that typing could have produced: it is its own numeral. */
  predicate IsNumeral(s: string)
  {
    Numeral(s) == s
  }

  lemma {:induction false} StripZerosSnoc(y: string, c: char)
    ensures StripZeros(y + [c]) == if StripZeros(y) == "0" && c != '.' then [c] else StripZeros(y) + [c]
  {
    var yc := y + [c];
    if |y| >= 2 && y[0] == '0' && y[1] != '.' {
      assert yc[1..] == y[1..] + [c];
      assert StripZeros(yc) == StripZeros(y[1..] + [c]);
      assert StripZeros(y) == StripZeros(y[1..]);
      StripZerosSnoc(y[1..], c);
    } else if y == "0" {
      assert yc == ['0', c];
      if c != '.' {
        assert yc[1..] == [c];
        assert StripZeros(yc) == StripZeros([c]);
      }
    } else {
      assert |yc| >= 2 ==> yc[0] == y[0] && yc[1] == (if |y| >= 2 then y[1] else c);
      assert StripZeros(y) == y;
      assert StripZeros(yc) == yc;
    }
  }

  /** Typing keys onto numeral text yields the numeral of all the text typed:
      `Typed` and `Numeral` are two descriptions of one thing. */
  lemma {:induction false} TypedIsNumeral(cur: string, keys: seq<char>)
    requires IsNumeral(cur)
    ensures Typed(cur, keys) == Numeral(cur + keys)
  {
    if keys == [] {
      assert cur + keys == cur;
    } else {
      var init, k := keys[..|keys| - 1], keys[|keys| - 1];
      TypedIsNumeral(cur, init);
      assert cur + keys == (cur + init) + [k];
      TypedStep(Typed(cur, init), cur + init, k);
    }
  }

  /** One key typed onto the numeral of `x` gives the numeral of `x` and that key. */
  lemma TypedStep(t: string, x: string, k: char)
    requires t == Numeral(x)
    ensures AppendToken(t, [k]) == Numeral(x + [k])
  {
    NumeralSnoc(x, k);
    assert '.' in t <==> '.' in x by {
      StripZerosKeepsPoints(KeepFirstPoint(x));
      HasPoint(t);
      HasPoint(KeepFirstPoint(x));
    }
    assert [k] == "." <==> k == '.';
    if k == '.' && '.' in x {
      assert AppendToken(t, [k]) == t;
    } else if t == "0" && k != '.' {
      assert AppendToken(t, [k]) == [k];
    } else {
      assert AppendToken(t, [k]) == t + [k];
    }
  }

  lemma HasPoint(s: string)
    ensures '.' in s <==> Points(s) > 0
  {
  }

  /** One more key on the text `x`: how its numeral changes. */
  lemma NumeralSnoc(x: string, k: char)
    ensures Numeral(x + [k]) ==
      if k == '.' && '.' in x then Numeral(x)
      else if Numeral(x) == "0" && k != '.' then [k]
      else Numeral(x) + [k]
  {
    var xk := x + [k];
    assert xk[..|xk| - 1] == x && xk[|xk| - 1] == k;
    if !(k == '.' && '.' in x) {
      assert KeepFirstPoint(xk) == KeepFirstPoint(x) + [k];
      StripZerosSnoc(KeepFirstPoint(x), k);
    }
  }

  /** A numeral typed from the fresh "0" (or the empty text left by
      choosing an operator) never holds more than one decimal point, whatever keys
      are pressed. */
  lemma TypedHasOnePointAtMost(cur: string, keys: seq<char>)
    requires cur == "0" || cur == ""
    ensures Typed(cur, keys) == Numeral(cur + keys)
    ensures Points(Typed(cur, keys)) <= 1
  {
    assert IsNumeral(cur) by {
      if cur == "0" {
        assert KeepFirstPoint("0") == "0" by { assert "0"[..0] == []; }
      }
    }
    TypedIsNumeral(cur, keys);
    StripZerosKeepsPoints(KeepFirstPoint(cur + keys));
  }
}
