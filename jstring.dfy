/** The parts of java.lang.String the core relies on: the three-way `compareTo`,
    `split(",")`, `hashCode`, and Java's 32-bit `int` wrap-around. */
module JavaString {

  const TwoTo31: int := 0x8000_0000
  const TwoTo32: int := 0x1_0000_0000

  /** Reduces `x` to a 32-bit two's-complement `int`, as Java's `int` arithmetic does. */
  function Wrap32(x: int): (r: int)
    ensures -TwoTo31 <= r < TwoTo31
    ensures (x - r) % TwoTo32 == 0
    ensures -TwoTo31 <= x < TwoTo31 ==> r == x
  {
    (x + TwoTo31) % TwoTo32 - TwoTo31
  }

  // ---------------------------------------------------------------------------
  // compareTo

  /** `a.compareTo(b)`: the difference of the first differing characters, or the
      difference of the lengths when one string is a prefix of the other. */
  function CompareTo(a: string, b: string): int
    decreases |a|
  {
    if |a| == 0 || |b| == 0 then |a| - |b|
    else if a[0] != b[0] then a[0] as int - b[0] as int
    else CompareTo(a[1..], b[1..])
  }

  /** The lexicographic order, defined independently of CompareTo: `a` is a proper
      prefix of `b`, or the two agree up to a position where `a` has the smaller character. */
  ghost predicate LexBefore(a: string, b: string) {
    || (|a| < |b| && a == b[..|a|])
    || exists k :: 0 <= k < |a| && k < |b| && a[..k] == b[..k] && a[k] < b[k]
  }

  lemma {:induction false} CompareToZeroIff(a: string, b: string)
    ensures CompareTo(a, b) == 0 <==> a == b
    decreases |a|
  {
    if |a| == 0 || |b| == 0 {
    } else if a[0] != b[0] {
    } else {
      CompareToZeroIff(a[1..], b[1..]);
      assert a == [a[0]] + a[1..] && b == [b[0]] + b[1..];
    }
  }

  /** Swapping the arguments negates the result, so the signs are opposite. */
  lemma {:induction false} CompareToAntisymmetric(a: string, b: string)
    ensures CompareTo(a, b) == -CompareTo(b, a)
    decreases |a|
  {
    if |a| == 0 || |b| == 0 {
    } else if a[0] != b[0] {
    } else {
      CompareToAntisymmetric(a[1..], b[1..]);
    }
  }

  /** A negative result means exactly that `a` comes first in the lexicographic order. */
  lemma {:induction false} CompareToNegativeIffLexBefore(a: string, b: string)
    ensures CompareTo(a, b) < 0 <==> LexBefore(a, b)
    decreases |a|
  {
    if |a| == 0 {
      if |b| > 0 {
        assert a == b[..0];
      }
    } else if |b| == 0 {
    } else if a[0] != b[0] {
      if a[0] < b[0] {
        assert a[..0] == b[..0];
      } else {
        LexBeforeHeads(a, b);
      }
    } else {
      CompareToNegativeIffLexBefore(a[1..], b[1..]);
      LexBeforeTailUp(a, b);
      LexBeforeTailDown(a, b);
    }
  }

  /** After a common first character, the order of the tails carries over... */
  lemma LexBeforeTailUp(a: string, b: string)
    requires |a| > 0 && |b| > 0 && a[0] == b[0]
    ensures LexBefore(a[1..], b[1..]) ==> LexBefore(a, b)
  {
    var a', b' := a[1..], b[1..];
    if LexBefore(a', b') {
      if |a'| < |b'| && a' == b'[..|a'|] {
        assert a == [a[0]] + a' && b[..|a|] == [b[0]] + b'[..|a'|];
      } else {
        var k :| 0 <= k < |a'| && k < |b'| && a'[..k] == b'[..k] && a'[k] < b'[k];
        assert a[..k + 1] == [a[0]] + a'[..k] && b[..k + 1] == [b[0]] + b'[..k];
        assert a[k + 1] == a'[k] && b[k + 1] == b'[k];
      }
    }
  }

  /** ...and comes back from the whole strings to the tails. */
  lemma LexBeforeTailDown(a: string, b: string)
    requires |a| > 0 && |b| > 0 && a[0] == b[0]
    ensures LexBefore(a, b) ==> LexBefore(a[1..], b[1..])
  {
    var a', b' := a[1..], b[1..];
    if LexBefore(a, b) {
      if |a| < |b| && a == b[..|a|] {
        assert a' == a[1..] == b[..|a|][1..] == b'[..|a'|];
      } else {
        var k :| 0 <= k < |a| && k < |b| && a[..k] == b[..k] && a[k] < b[k];
        assert k != 0;
        assert a'[..k - 1] == a[..k][1..] && b'[..k - 1] == b[..k][1..];
        assert a'[k - 1] == a[k] && b'[k - 1] == b[k];
      }
    }
  }

  /** In the lexicographic order the first character of the earlier string is not
      greater than that of the later one. */
  lemma LexBeforeHeads(a: string, b: string)
    requires |a| > 0 && |b| > 0
    ensures LexBefore(a, b) ==> a[0] <= b[0]
  {
    if |a| < |b| && a == b[..|a|] {
      assert a[0] == b[..|a|][0];
    }
    forall k | 0 <= k < |a| && k < |b| && a[..k] == b[..k] && a[k] < b[k]
      ensures a[0] <= b[0]
    {
      if k > 0 {
        assert a[..k][0] == a[0] && b[..k][0] == b[0];
      }
    }
  }

  /** `compareTo(..) <= 0` is transitive, so a chain of non-positive comparisons is ordered. */
  lemma {:induction false} CompareToTransitive(a: string, b: string, c: string)
    requires CompareTo(a, b) <= 0 && CompareTo(b, c) <= 0
    ensures CompareTo(a, c) <= 0
    decreases |a|
  {
    if |a| == 0 || |b| == 0 || |c| == 0 {
    } else if a[0] != b[0] || b[0] != c[0] {
    } else {
      CompareToTransitive(a[1..], b[1..], c[1..]);
    }
  }

  // ---------------------------------------------------------------------------
  // split(",")

  /** Every comma-separated piece of `s`, empty ones included (a regex split with no
      limit, before Java discards anything). */
  function Pieces(s: string): (r: seq<string>)
    ensures |r| >= 1
    ensures forall i :: 0 <= i < |r| ==> ',' !in r[i]
    ensures ',' !in s ==> r == [s]
  {
    if |s| == 0 then [""]
    else
      var rest := Pieces(s[1..]);
      assert ',' !in s ==> ',' !in s[1..] by {
        if ',' in s[1..] {
          var j :| 0 <= j < |s[1..]| && s[1..][j] == ',';
          assert s[j + 1] == ',';
        }
      }
      assert s == [s[0]] + s[1..];
      if s[0] == ',' then [""] + rest
      else [[s[0]] + rest[0]] + rest[1..]
  }

  /** Joins `ps` with `sep` between consecutive pieces. */
  function Join(ps: seq<string>, sep: string): string {
    if |ps| == 0 then ""
    else if |ps| == 1 then ps[0]
    else ps[0] + sep + Join(ps[1..], sep)
  }

  /** Prepending a character to the first piece prepends it to the joined string. */
  lemma JoinPrependChar(c: char, ps: seq<string>, sep: string)
    requires |ps| >= 1
    ensures Join([[c] + ps[0]] + ps[1..], sep) == [c] + Join(ps, sep)
  {
    var qs := [[c] + ps[0]] + ps[1..];
    assert qs[1..] == ps[1..];
    if |ps| > 1 {
      calc {
        Join(qs, sep);
        qs[0] + sep + Join(qs[1..], sep);
        ([c] + ps[0]) + sep + Join(ps[1..], sep);
        [c] + (ps[0] + sep + Join(ps[1..], sep));
      }
    }
  }

  /** Splitting at the commas loses nothing: joining the pieces back gives the line. */
  lemma {:induction false} JoinPieces(s: string)
    ensures Join(Pieces(s), ",") == s
  {
    if |s| > 0 {
      var rest := Pieces(s[1..]);
      JoinPieces(s[1..]);
      assert s == [s[0]] + s[1..];
      if s[0] == ',' {
        var r := [""] + rest;
        assert r[1..] == rest;
        assert Join(r, ",") == "" + "," + Join(rest, ",");
      } else {
        JoinPrependChar(s[0], rest, ",");
      }
    }
  }

  /** Drops the empty strings at the end of `ps`. */
  function DropTrailingEmpty(ps: seq<string>): (r: seq<string>)
    ensures |r| <= |ps| && r == ps[..|r|]
    ensures r == [] || r[|r| - 1] != ""
    ensures forall i :: |r| <= i < |ps| ==> ps[i] == ""
  {
    if |ps| == 0 then []
    else if ps[|ps| - 1] == "" then DropTrailingEmpty(ps[..|ps| - 1])
    else ps
  }

  /** `s.split(",")`: when `s` holds no comma the result is `[s]` itself (so "" gives
      [""]); otherwise all pieces, with the trailing empty ones removed. */
  function Split(s: string): (r: seq<string>)
    ensures forall i :: 0 <= i < |r| ==> ',' !in r[i]
  {
    if ',' !in s then [s] else DropTrailingEmpty(Pieces(s))
  }

  /** What `split` returns is a prefix of the pieces, and what it leaves out is empty. */
  lemma SplitIsPiecesPrefix(s: string)
    ensures |Split(s)| <= |Pieces(s)| && Split(s) == Pieces(s)[..|Split(s)|]
    ensures forall i :: |Split(s)| <= i < |Pieces(s)| ==> Pieces(s)[i] == ""
    ensures ',' in s ==> Split(s) == [] || Split(s)[|Split(s)| - 1] != ""
  {
  }

  // ---------------------------------------------------------------------------
  // hashCode

  /** `s.hashCode()`: `h = 31 * h + c` over the characters, in 32-bit arithmetic. */
  function StringHash(s: string): (h: int)
    ensures -TwoTo31 <= h < TwoTo31
  {
    if |s| == 0 then 0
    else Wrap32(31 * StringHash(s[..|s| - 1]) + s[|s| - 1] as int)
  }
}
