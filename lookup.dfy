/** The table lookup shared by `tidy_licence` and `tidy_file_type`: the input
    and every key are lower-cased and stripped of a set of padding characters,
    and the loop returns the value of the first key whose normal form equals
    that of the input. */
module KeyLookup {
  import opened PyStr

  datatype Option<T> = None | Some(value: T)

  /** `s.lower().strip(pad)` */
  function Normalise(s: string, pad: char -> bool): string
  {
    Strip(Lower(s), pad)
  }

  /** Input `x` matches key `key`: their normal forms are equal. */
  predicate Matches(x: string, key: string, pad: char -> bool)
  {
    Normalise(x, pad) == Normalise(key, pad)
  }

  /** The value of the first key that `x` matches, scanning `table` in order,
      or `None` when `x` matches no key. */
  function FirstMatch(x: string, table: seq<(string, string)>, pad: char -> bool): (r: Option<string>)
    ensures r.None? <==> forall k :: 0 <= k < |table| ==> !Matches(x, table[k].0, pad)
    ensures r.Some? ==> exists k :: 0 <= k < |table| && Matches(x, table[k].0, pad) && r.value == table[k].1
  {
    if |table| == 0 then None
    else if Matches(x, table[0].0, pad) then Some(table[0].1)
    else
      var r := FirstMatch(x, table[1..], pad);
      assert forall k :: 1 <= k < |table| ==> table[k].0 == table[1..][k - 1].0;
      assert r.Some? ==> exists k :: 1 <= k < |table| && Matches(x, table[k].0, pad) && r.value == table[k].1 by {
        if r.Some? {
          var k :| 0 <= k < |table[1..]| && Matches(x, table[1..][k].0, pad) && r.value == table[1..][k].1;
          assert table[1..][k] == table[k + 1];
        }
      }
      r
  }

  /** The first key that `x` matches decides the result, whatever keys
      after it say. */
  lemma {:induction false} FirstMatchAt(x: string, table: seq<(string, string)>, pad: char -> bool, k: int)
    requires 0 <= k < |table| && Matches(x, table[k].0, pad)
    requires forall i :: 0 <= i < k ==> !Matches(x, table[i].0, pad)
    ensures FirstMatch(x, table, pad) == Some(table[k].1)
  {
    if k > 0 {
      var rest := table[1..];
      assert rest[k - 1] == table[k];
      forall i | 0 <= i < k - 1 ensures !Matches(x, rest[i].0, pad) {
        assert rest[i] == table[i + 1];
      }
      FirstMatchAt(x, rest, pad, k - 1);
      assert !Matches(x, table[0].0, pad);
    }
  }

  /** The lookup sees the input only through its normal form: inputs that
      differ only in case and padding get the same result. */
  lemma {:induction false} FirstMatchNormalForm(x: string, y: string, table: seq<(string, string)>, pad: char -> bool)
    requires Normalise(x, pad) == Normalise(y, pad)
    ensures FirstMatch(x, table, pad) == FirstMatch(y, table, pad)
  {
    if |table| > 0 {
      FirstMatchNormalForm(x, y, table[1..], pad);
    }
  }

  /** The loop of `tidy_licence` and `tidy_file_type`: the keys are tried in
      order and the value of the first match is returned at once. */
  method LookUp(x: string, table: seq<(string, string)>, pad: char -> bool) returns (r: Option<string>)
    ensures r == FirstMatch(x, table, pad)
  {
    var nx := Normalise(x, pad);
    for k := 0 to |table|
      invariant FirstMatch(x, table, pad) == FirstMatch(x, table[k..], pad)
    {
      assert table[k..][1..] == table[k + 1..];
      if nx == Normalise(table[k].0, pad) {
        return Some(table[k].1);
      }
    }
    return None;
  }

  /** Lower-casing leaves non-letters alone, so a string whose ends are not
      padding (after lower-casing) normalises to its lower-case form. */
  lemma NormaliseUntouched(s: string, pad: char -> bool)
    requires |s| > 0 && !pad(LowerChar(s[0])) && !pad(LowerChar(s[|s| - 1]))
    ensures Normalise(s, pad) == Lower(s)
  {
    StripUntouched(Lower(s), pad);
  }

  /** A string ending in exactly one padding character normalises to the
      lower-case form of the rest. */
  lemma NormaliseOneTrailing(s: string, pad: char -> bool)
    requires |s| > 1 && !pad(LowerChar(s[0])) && pad(LowerChar(s[|s| - 1]))
    requires !pad(LowerChar(s[|s| - 2]))
    ensures Normalise(s, pad) == Lower(s[..|s| - 1])
  {
    StripOneTrailing(Lower(s), pad);
    assert Lower(s)[..|s| - 1] == Lower(s[..|s| - 1]);
  }

  /** Right-stripping never reaches a first character that is kept. */
  lemma {:induction false} TrimRightKeepsHead(s: string, pad: char -> bool)
    requires |s| > 0 && !pad(s[0])
    ensures |TrimRight(s, pad)| > 0
  {
    if |s| > 1 && pad(s[|s| - 1]) {
      TrimRightKeepsHead(s[..|s| - 1], pad);
    }
  }

  /** A string whose first character is not padding (after lower-casing)
      has a non-empty normal form that starts with that character, lower-cased. */
  lemma NormaliseHead(s: string, pad: char -> bool)
    requires |s| > 0 && !pad(LowerChar(s[0]))
    ensures |Normalise(s, pad)| > 0 && Normalise(s, pad)[0] == LowerChar(s[0])
  {
    var l := Lower(s);
    assert TrimLeft(l, pad) == l;
    TrimRightKeepsHead(l, pad);
  }
}
