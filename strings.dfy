/** Python string primitives used by the cleaning helpers: `lower()`, `upper()`,
    `strip()` with and without an argument, `split(sep)` and `sep.join(...)`.
    Case mapping covers the ASCII letters only. */
module PyStr {

  /** `str.lower()` on one character (ASCII letters only). */
  function LowerChar(c: char): (r: char)
    ensures !IsUpperChar(r)
    ensures !IsUpperChar(c) ==> r == c
  {
    if 'A' <= c <= 'Z' then (c as int + 32) as char else c
  }

  /** `str.upper()` on one character (ASCII letters only). */
  function UpperChar(c: char): (r: char)
    ensures !('a' <= r <= 'z')
    ensures !('a' <= c <= 'z') ==> r == c
  {
    if 'a' <= c <= 'z' then (c as int - 32) as char else c
  }

  predicate IsUpperChar(c: char) { 'A' <= c <= 'Z' }

  /** No upper-case ASCII letter occurs in `s`. */
  predicate IsLowerCase(s: string) { forall i :: 0 <= i < |s| ==> !IsUpperChar(s[i]) }

  function Lower(s: string): (r: string)
    ensures |r| == |s|
    ensures forall i :: 0 <= i < |s| ==> r[i] == LowerChar(s[i])
    ensures IsLowerCase(r)
  {
    seq(|s|, i requires 0 <= i < |s| => LowerChar(s[i]))
  }

  function Upper(s: string): (r: string)
    ensures |r| == |s|
    ensures forall i :: 0 <= i < |s| ==> r[i] == UpperChar(s[i])
  {
    seq(|s|, i requires 0 <= i < |s| => UpperChar(s[i]))
  }

  /** The characters Python's argument-less `strip()` removes: those for which
      `str.isspace` holds. */
  predicate IsSpace(c: char)
  {
    || '\U{9}' <= c <= '\U{D}' || '\U{1C}' <= c <= '\U{20}'
    || c == '\U{85}' || c == '\U{A0}' || c == '\U{1680}'
    || '\U{2000}' <= c <= '\U{200A}' || c == '\U{2028}' || c == '\U{2029}'
    || c == '\U{202F}' || c == '\U{205F}' || c == '\U{3000}'
  }

  /** `s.lstrip(chars)`, with the characters to remove given as a predicate. */
  function TrimLeft(s: string, drop: char -> bool): (r: string)
    ensures |r| <= |s| && r == s[|s| - |r|..]
    ensures r == [] || !drop(r[0])
  {
    if |s| > 0 && drop(s[0]) then TrimLeft(s[1..], drop) else s
  }

  /** `s.rstrip(chars)` */
  function TrimRight(s: string, drop: char -> bool): (r: string)
    ensures |r| <= |s| && r == s[..|r|]
    ensures r == [] || !drop(r[|r| - 1])
  {
    if |s| > 0 && drop(s[|s| - 1]) then TrimRight(s[..|s| - 1], drop) else s
  }

  /** `s.strip(chars)`: removes the characters `drop` selects from both ends.
      The result neither starts nor ends with one of them, and is an infix of
      `s`. */
  function Strip(s: string, drop: char -> bool): (r: string)
    ensures r == [] || (!drop(r[0]) && !drop(r[|r| - 1]))
    ensures |r| <= |s|
    ensures forall c :: c in r ==> c in s
  {
    var l := TrimLeft(s, drop);
    var r := TrimRight(l, drop);
    assert forall c :: c in r ==> c in l;
    r
  }

  /** Stripping a string that neither starts nor ends with a character of `cs`
      leaves it as it is. */
  lemma StripUntouched(s: string, drop: char -> bool)
    requires |s| > 0 && !drop(s[0]) && !drop(s[|s| - 1])
    ensures Strip(s, drop) == s
  {
  }

  /** Stripping a string that ends with exactly one character of `cs` (and does
      not start with one) removes that last character only. */
  lemma StripOneTrailing(s: string, drop: char -> bool)
    requires |s| > 1 && !drop(s[0]) && drop(s[|s| - 1]) && !drop(s[|s| - 2])
    ensures Strip(s, drop) == s[..|s| - 1]
  {
    assert TrimLeft(s, drop) == s;
    assert TrimRight(s[..|s| - 1], drop) == s[..|s| - 1];
  }

  /** `s.split(sep)` for a one-character separator: the maximal runs between
      separators, in order; never empty (`"".split(";") == [""]`). */
  function Split(s: string, sep: char): (r: seq<string>)
    ensures |r| >= 1
  {
    if |s| == 0 then [""]
    else
      var rest := Split(s[1..], sep);
      if s[0] == sep then [""] + rest else [[s[0]] + rest[0]] + rest[1..]
  }

  /** `sep.join(xs)` */
  function Join(xs: seq<string>, sep: char): (r: string)
  {
    if |xs| == 0 then ""
    else if |xs| == 1 then xs[0]
    else xs[0] + [sep] + Join(xs[1..], sep)
  }

  /** No piece produced by `Split` contains the separator, and every
      character of a piece comes from the input. */
  lemma {:induction false} SplitPieces(s: string, sep: char)
    ensures forall k :: 0 <= k < |Split(s, sep)| ==> sep !in Split(s, sep)[k]
    ensures forall k, c :: 0 <= k < |Split(s, sep)| && c in Split(s, sep)[k] ==> c in s
  {
    if |s| > 0 {
      SplitPieces(s[1..], sep);
      var rest := Split(s[1..], sep);
      var r := Split(s, sep);
      forall k, c | 0 <= k < |r| && c in r[k] ensures c in s {
        if s[0] == sep {
          assert r[k] == ([""] + rest)[k];
          assert c in rest[k - 1];
          assert c in s[1..];
        } else if k == 0 {
          assert r[0] == [s[0]] + rest[0];
          if c != s[0] { assert c in rest[0]; assert c in s[1..]; }
        } else {
          assert r[k] == rest[k];
          assert c in s[1..];
        }
      }
    }
  }

  /** Joining the pieces of a split gives back the original string. */
  lemma {:induction false} JoinSplit(s: string, sep: char)
    ensures Join(Split(s, sep), sep) == s
  {
    if |s| > 0 {
      JoinSplit(s[1..], sep);
      var rest := Split(s[1..], sep);
      if s[0] == sep {
        assert s == [sep] + s[1..];
      } else {
        var r := Split(s, sep);
        if |rest| == 1 {
          assert r == [[s[0]] + rest[0]];
        } else {
          assert r[1..] == rest[1..];
          assert Join(rest, sep) == rest[0] + [sep] + Join(rest[1..], sep);
        }
      }
    }
  }

  /** A piece with no separator splits into itself. */
  lemma {:induction false} SplitAtom(x: string, sep: char)
    requires sep !in x
    ensures Split(x, sep) == [x]
  {
    if |x| > 0 {
      SplitAtom(x[1..], sep);
      assert [x[0]] + x[1..] == x;
    }
  }

  /** Splitting `x + sep + rest`, where `x` has no separator, puts `x` first. */
  lemma {:induction false} SplitCons(x: string, rest: string, sep: char)
    requires sep !in x
    ensures Split(x + [sep] + rest, sep) == [x] + Split(rest, sep)
  {
    if |x| == 0 {
      assert x + [sep] + rest == [sep] + rest;
      assert ([sep] + rest)[1..] == rest;
    } else {
      SplitCons(x[1..], rest, sep);
      var s := x + [sep] + rest;
      assert s[1..] == x[1..] + [sep] + rest;
      assert [x[0]] + x[1..] == x;
    }
  }

  /** Splitting a join gives back the pieces, provided there is at least one
      piece and no piece contains the separator. */
  lemma {:induction false} SplitJoin(xs: seq<string>, sep: char)
    requires |xs| >= 1
    requires forall k :: 0 <= k < |xs| ==> sep !in xs[k]
    ensures Split(Join(xs, sep), sep) == xs
  {
    if |xs| == 1 {
      SplitAtom(xs[0], sep);
    } else {
      SplitJoin(xs[1..], sep);
      SplitCons(xs[0], Join(xs[1..], sep), sep);
      assert [xs[0]] + xs[1..] == xs;
    }
  }

  /** Every character of a join is the separator or a character of a piece. */
  lemma {:induction false} JoinChars(xs: seq<string>, sep: char, c: char)
    requires c in Join(xs, sep)
    ensures c == sep || exists k :: 0 <= k < |xs| && c in xs[k]
  {
    if |xs| > 1 {
      var j := Join(xs, sep);
      assert j == xs[0] + ([sep] + Join(xs[1..], sep));
      if c !in xs[0] && c != sep {
        assert c in Join(xs[1..], sep);
        JoinChars(xs[1..], sep, c);
        var k :| 0 <= k < |xs[1..]| && c in xs[1..][k];
        assert c in xs[k + 1];
      }
    }
  }

  /** Appending a piece to a non-empty list appends the separator and the piece. */
  lemma {:induction false} JoinSnoc(xs: seq<string>, y: string, sep: char)
    requires |xs| >= 1
    ensures Join(xs + [y], sep) == Join(xs, sep) + [sep] + y
  {
    if |xs| == 1 {
      assert (xs + [y])[1..] == [y];
    } else {
      assert (xs + [y])[1..] == xs[1..] + [y];
      JoinSnoc(xs[1..], y, sep);
    }
  }

  /** A string of three given characters. */
  lemma ThreeChars(t: string, a: char, b: char, c: char)
    requires |t| == 3 && t[0] == a && t[1] == b && t[2] == c
    ensures t == [a, b, c]
  {
  }

  /** Whether the elements of a sequence are pairwise distinct. */
  predicate NoDuplicates<T(==)>(xs: seq<T>)
  {
    forall i, j :: 0 <= i < j < |xs| ==> xs[i] != xs[j]
  }

  /** A sequence without duplicates has as many elements as its set. */
  lemma {:induction false} NoDuplicatesCard<T>(xs: seq<T>)
    requires NoDuplicates(xs)
    ensures |set x | x in xs| == |xs|
  {
    if xs != [] {
      var rest := xs[1..];
      assert NoDuplicates(rest) by {
        forall i, j | 0 <= i < j < |rest| ensures rest[i] != rest[j] {
          assert rest[i] == xs[i + 1] && rest[j] == xs[j + 1];
        }
      }
      NoDuplicatesCard(rest);
      assert xs[0] !in rest by {
        forall k | 0 <= k < |rest| ensures rest[k] != xs[0] {
          assert rest[k] == xs[k + 1];
        }
      }
      assert (set x | x in xs) == {xs[0]} + (set x | x in rest) by {
        assert xs == [xs[0]] + rest;
      }
    }
  }

  /** Lower-casing an upper-cased string is lower-casing it. */
  lemma LowerUpper(s: string)
    ensures Lower(Upper(s)) == Lower(s)
  {
    assert forall i :: 0 <= i < |s| ==> Lower(Upper(s))[i] == Lower(s)[i];
  }

  /** Upper-casing is idempotent. */
  lemma UpperUpper(s: string)
    ensures Upper(Upper(s)) == Upper(s)
  {
    assert forall i :: 0 <= i < |s| ==> Upper(Upper(s))[i] == Upper(s)[i];
  }

  /** `drop` cannot tell a character from its upper-case form. */
  predicate CaseBlind(drop: char -> bool)
  {
    forall c :: drop(UpperChar(c)) == drop(c)
  }

  /** Left-stripping characters that `drop` selects regardless of case
      commutes with upper-casing. */
  lemma {:induction false} TrimLeftUpper(s: string, drop: char -> bool)
    requires CaseBlind(drop)
    ensures TrimLeft(Upper(s), drop) == Upper(TrimLeft(s, drop))
  {
    if |s| > 0 {
      assert Upper(s)[1..] == Upper(s[1..]);
      assert drop(Upper(s)[0]) == drop(s[0]);
      TrimLeftUpper(s[1..], drop);
    }
  }

  /** The same for right-stripping. */
  lemma {:induction false} TrimRightUpper(s: string, drop: char -> bool)
    requires CaseBlind(drop)
    ensures TrimRight(Upper(s), drop) == Upper(TrimRight(s, drop))
  {
    if |s| > 0 {
      assert Upper(s)[..|s| - 1] == Upper(s[..|s| - 1]);
      assert drop(Upper(s)[|s| - 1]) == drop(s[|s| - 1]);
      TrimRightUpper(s[..|s| - 1], drop);
    }
  }

  /** Stripping and upper-casing can be done in either order. */
  lemma StripUpper(s: string, drop: char -> bool)
    requires CaseBlind(drop)
    ensures Strip(Upper(s), drop) == Upper(Strip(s, drop))
  {
    TrimLeftUpper(s, drop);
    TrimRightUpper(TrimLeft(s, drop), drop);
  }
}
