/** Tag handling in `clean_data`: `tidy_categories` normalises one tag field,
    `combine_categories` takes the set union of the two tidied tag fields of a
    record. A missing field is the literal string "nan". */
module Tags {
  import opened PyStr

  /** `str(s).replace(",", ";")` */
  function ReplaceCommas(s: string): (r: string)
    ensures |r| == |s|
    ensures ',' !in r
    ensures forall i :: 0 <= i < |s| ==> r[i] == (if s[i] == ',' then ';' else s[i])
  {
    seq(|s|, i requires 0 <= i < |s| => if s[i] == ',' then ';' else s[i])
  }

  /** `cat.lower().strip()` on one piece. */
  function TidyPiece(p: string): string
  {
    Strip(Lower(p), IsSpace)
  }

  /** `[cat.lower().strip() for cat in pieces if cat != ""]`: the filter runs on
      the raw piece, before stripping. */
  function TidyPieces(ps: seq<string>): (r: seq<string>)
    ensures |r| <= |ps|
  {
    if ps == [] then []
    else (if ps[0] != "" then [TidyPiece(ps[0])] else []) + TidyPieces(ps[1..])
  }

  /** `(cat for cat in pieces if cat != "nan")` */
  function DropNan(ps: seq<string>): (r: seq<string>)
    ensures forall k :: 0 <= k < |r| ==> r[k] != "nan"
    ensures forall k :: 0 <= k < |r| ==> r[k] in ps
  {
    if ps == [] then []
    else (if ps[0] != "nan" then [ps[0]] else []) + DropNan(ps[1..])
  }

  /** The pieces `tidy_categories` joins: split on ";" after turning commas into
      ";", drop literally empty pieces, lower-case and strip the rest, then drop
      those equal to "nan". */
  function KeptPieces(s: string): seq<string>
  {
    DropNan(TidyPieces(Split(ReplaceCommas(s), ';')))
  }

  /** Removes one trailing ";" if there is one. */
  function DropTrailingSemicolon(t: string): (r: string)
  {
    if |t| > 0 && t[|t| - 1] == ';' then t[..|t| - 1] else t
  }

  /** `tidy_categories(s)` */
  function TidyCategories(s: string): string
  {
    DropTrailingSemicolon(Join(KeptPieces(s), ';'))
  }

  /** Lower-case, no "," or ";", and no whitespace at either end. */
  predicate IsCleanPiece(x: string)
  {
    && IsLowerCase(x)
    && ',' !in x && ';' !in x
    && (x == [] || (!IsSpace(x[0]) && !IsSpace(x[|x| - 1])))
  }

  /** A piece as `tidy_categories` can emit it: clean, and not "nan". */
  predicate IsTidyPiece(p: string)
  {
    IsCleanPiece(p) && p != "nan"
  }

  /** Lower-casing and stripping a delimiter-free piece yields a clean piece. */
  lemma TidyPieceClean(p: string)
    requires ',' !in p && ';' !in p
    ensures IsCleanPiece(TidyPiece(p))
  {
    var l := Lower(p);
    var x := TidyPiece(p);
    forall c | c in x ensures c != ',' && c != ';' && !IsUpperChar(c) {
      assert c in l;
      var i :| 0 <= i < |l| && l[i] == c;
      assert p[i] in p;
    }
  }

  /** Every piece that `TidyPieces` keeps from a delimiter-free list is clean. */
  lemma {:induction false} TidyPiecesClean(ps: seq<string>)
    requires forall k :: 0 <= k < |ps| ==> ',' !in ps[k] && ';' !in ps[k]
    ensures forall k :: 0 <= k < |TidyPieces(ps)| ==> IsCleanPiece(TidyPieces(ps)[k])
  {
    if ps != [] {
      TidyPiecesClean(ps[1..]);
      if ps[0] != "" {
        TidyPieceClean(ps[0]);
        assert TidyPieces(ps) == [TidyPiece(ps[0])] + TidyPieces(ps[1..]);
      } else {
        assert TidyPieces(ps) == TidyPieces(ps[1..]);
      }
    }
  }

  /** Every kept piece of any input is a tidy piece. */
  lemma KeptPiecesClean(s: string)
    ensures forall k :: 0 <= k < |KeptPieces(s)| ==> IsTidyPiece(KeptPieces(s)[k])
  {
    var ps := Split(ReplaceCommas(s), ';');
    SplitPieces(ReplaceCommas(s), ';');
    forall k, c | 0 <= k < |ps| && c in ps[k] ensures c != ',' {
      assert c in ReplaceCommas(s);
    }
    TidyPiecesClean(ps);
  }

  /** The pieces of the ";"-join of a delimiter-free list, after one trailing
      ";" is removed: the list itself, except that a trailing empty piece is
      dropped when there are at least two pieces; the empty list gives `[""]`. */
  lemma JoinDropTrailingPieces(xs: seq<string>)
    requires forall k :: 0 <= k < |xs| ==> ';' !in xs[k]
    ensures Split(DropTrailingSemicolon(Join(xs, ';')), ';') ==
        if xs == [] then [""]
        else if |xs| >= 2 && xs[|xs| - 1] == "" then xs[..|xs| - 1]
        else xs
  {
    if xs != [] {
      if |xs| >= 2 && xs[|xs| - 1] == "" {
        JoinTrailingEmpty(xs);
        SplitJoin(xs[..|xs| - 1], ';');
      } else {
        JoinNoTrailingSemicolon(xs);
        SplitJoin(xs, ';');
      }
    }
  }

  /** A join whose last piece is empty ends with the separator, and dropping
      it gives the join of the other pieces. */
  lemma JoinTrailingEmpty(xs: seq<string>)
    requires |xs| >= 2 && xs[|xs| - 1] == ""
    ensures DropTrailingSemicolon(Join(xs, ';')) == Join(xs[..|xs| - 1], ';')
  {
    var init := xs[..|xs| - 1];
    assert init + [""] == xs;
    JoinSnoc(init, "", ';');
    assert Join(xs, ';') == Join(init, ';') + [';'];
  }

  /** A join of delimiter-free pieces does not end with the separator unless
      its last piece is empty and there are at least two. */
  lemma JoinNoTrailingSemicolon(xs: seq<string>)
    requires |xs| >= 1 && forall k :: 0 <= k < |xs| ==> ';' !in xs[k]
    requires !(|xs| >= 2 && xs[|xs| - 1] == "")
    ensures DropTrailingSemicolon(Join(xs, ';')) == Join(xs, ';')
  {
    var last := xs[|xs| - 1];
    if last == [] {
      assert Join(xs, ';') == last;
    } else {
      JoinEndsWithLast(xs);
      assert last[|last| - 1] in last;
    }
  }

  /** A join whose last piece is not empty ends with that piece's last
      character. */
  lemma JoinEndsWithLast(xs: seq<string>)
    requires |xs| >= 1 && xs[|xs| - 1] != ""
    ensures var j, last := Join(xs, ';'), xs[|xs| - 1];
      |j| > 0 && j[|j| - 1] == last[|last| - 1]
  {
    var last := xs[|xs| - 1];
    if |xs| > 1 {
      var init := xs[..|xs| - 1];
      assert init + [last] == xs;
      JoinSnoc(init, last, ';');
    }
  }

  /** The `;`-pieces of `tidy_categories(s)` are exactly the kept pieces, except
      that one trailing empty piece (left by a whitespace-only piece) is dropped
      when there are at least two; with nothing kept the result is `""`, whose
      only piece is `""`. */
  lemma TidyCategoriesPieces(s: string)
    ensures var kept := KeptPieces(s);
      Split(TidyCategories(s), ';') ==
        if kept == [] then [""]
        else if |kept| >= 2 && kept[|kept| - 1] == "" then kept[..|kept| - 1]
        else kept
  {
    KeptPiecesClean(s);
    JoinDropTrailingPieces(KeptPieces(s));
  }

  /** Every `;`-piece of `tidy_categories`' output is a tidy piece: in particular
      no piece is "nan", whatever the case or surrounding spaces of the input
      piece were. */
  lemma TidyCategoriesClean(s: string)
    ensures forall k :: 0 <= k < |Split(TidyCategories(s), ';')| ==>
      IsTidyPiece(Split(TidyCategories(s), ';')[k])
  {
    TidyCategoriesPieces(s);
    KeptPiecesClean(s);
    var kept := KeptPieces(s);
    if |kept| >= 2 && kept[|kept| - 1] == "" {
      assert forall k :: 0 <= k < |kept| - 1 ==> kept[..|kept| - 1][k] == kept[k];
    }
  }

  /** The output of `tidy_categories` contains no "," and no upper-case letter. */
  lemma TidyCategoriesChars(s: string)
    ensures ',' !in TidyCategories(s)
    ensures IsLowerCase(TidyCategories(s))
  {
    var t := TidyCategories(s);
    var ps := Split(t, ';');
    TidyCategoriesClean(s);
    JoinSplit(t, ';');
    forall c | c in t ensures c != ',' && !IsUpperChar(c) {
      JoinChars(ps, ';', c);
      if c != ';' {
        var k :| 0 <= k < |ps| && c in ps[k];
        var i :| 0 <= i < |ps[k]| && ps[k][i] == c;
      }
    }
  }

  lemma TidyCategoriesEmpty()
    ensures TidyCategories("") == ""
  {
  }

  /** A non-empty lower-case piece with no whitespace at either end is left
      as it is by `TidyPiece`. */
  lemma TidyPieceFixed(p: string)
    requires p != [] && IsLowerCase(p) && !IsSpace(p[0]) && !IsSpace(p[|p| - 1])
    ensures TidyPiece(p) == p
  {
    assert Lower(p) == p;
    StripUntouched(p, IsSpace);
  }

  /** A piece made only of a space tidies to the empty piece. */
  lemma TidyPieceBlank(p: string)
    requires p == " "
    ensures TidyPiece(p) == ""
  {
    var l := Lower(p);
    assert |l| == 1 && IsSpace(l[0]);
    assert TrimLeft(l, IsSpace) == TrimLeft(l[1..], IsSpace);
  }

  // The worked examples below take their input as a parameter fixed by the
  // precondition and are evaluated one step per helper lemma.

  /** The pieces of "a,b;;c" once commas are replaced. */
  lemma SplitMixedDelimiters(s: string, xs: seq<string>)
    requires s == "a,b;;c" && xs == ["a", "b", "", "c"]
    ensures Split(ReplaceCommas(s), ';') == xs
  {
    var r := ReplaceCommas(s);
    assert r == "a;b;;c";
    assert Join(xs, ';') == r by {
      assert Join(xs[2..], ';') == ";c";
    }
    SplitJoin(xs, ';');
  }

  lemma TidyMixedDelimiters(xs: seq<string>, ys: seq<string>)
    requires xs == ["a", "b", "", "c"] && ys == ["a", "b", "c"]
    ensures TidyPieces(xs) == ys
  {
    TidyPieceFixed(xs[0]);
    TidyPieceFixed(xs[1]);
    TidyPieceFixed(xs[3]);
    assert TidyPieces(xs[3..]) == [xs[3]];
    assert TidyPieces(xs[2..]) == TidyPieces(xs[3..]);
  }

  lemma JoinMixedDelimiters(ys: seq<string>)
    requires ys == ["a", "b", "c"]
    ensures DropTrailingSemicolon(Join(DropNan(ys), ';')) == "a;b;c"
  {
    assert DropNan(ys[2..]) == ys[2..];
    assert DropNan(ys) == ys;
    assert Join(ys[1..], ';') == "b;c";
  }

  /** Pieces none of which is "nan" are all kept. */
  lemma {:induction false} DropNanKeepsAll(ps: seq<string>)
    requires forall k :: 0 <= k < |ps| ==> ps[k] != "nan"
    ensures DropNan(ps) == ps
  {
    if ps != [] {
      DropNanKeepsAll(ps[1..]);
    }
  }

  /** Commas separate like semicolons, and a literally empty piece is dropped. */
  lemma TidyCategoriesMixedDelimiters(s: string)
    requires s == "a,b;;c"
    ensures TidyCategories(s) == "a;b;c"
  {
    var xs, ys := ["a", "b", "", "c"], ["a", "b", "c"];
    SplitMixedDelimiters(s, xs);
    TidyMixedDelimiters(xs, ys);
    JoinMixedDelimiters(ys);
  }

  /** The one piece of " NaN " lower-cases and strips to "nan". */
  lemma TidyNan(s: string)
    requires s == " NaN "
    ensures TidyPieces(Split(ReplaceCommas(s), ';')) == ["nan"]
  {
    assert ReplaceCommas(s) == s;
    SplitAtom(s, ';');
    TidyPieceNan(s);
  }

  lemma TidyPieceNan(s: string)
    requires s == " NaN "
    ensures TidyPiece(s) == "nan"
  {
    var l := Lower(s);
    assert |l| == 5;
    assert l[0] == ' ' && l[1] == 'n' && l[2] == 'a' && l[3] == 'n' && l[4] == ' ';
    StripNan(l);
  }

  /** Stripping " nan ". */
  lemma StripNan(l: string)
    requires |l| == 5 && l[0] == ' ' && l[1] == 'n' && l[2] == 'a' && l[3] == 'n' && l[4] == ' '
    ensures Strip(l, IsSpace) == "nan"
  {
    var m := l[1..];
    assert TrimLeft(l, IsSpace) == m by {
      assert TrimLeft(l, IsSpace) == TrimLeft(m, IsSpace);
    }
    assert TrimRight(m, IsSpace) == m[..3] by {
      assert TrimRight(m, IsSpace) == TrimRight(m[..3], IsSpace);
    }
    NanChars(m[..3]);
  }

  /** The three characters of "nan". */
  lemma NanChars(t: string)
    requires |t| == 3 && t[0] == 'n' && t[1] == 'a' && t[2] == 'n'
    ensures t == "nan"
  {
  }

  /** A missing value, in any case and with surrounding spaces, tidies to "". */
  lemma TidyCategoriesNan(s: string)
    requires s == " NaN "
    ensures TidyCategories(s) == ""
  {
    TidyNan(s);
    assert DropNan(["nan"]) == [];
  }

  /** The missing value itself tidies to "". */
  lemma TidyCategoriesMissing(s: string)
    requires s == "nan"
    ensures TidyCategories(s) == ""
  {
    assert ReplaceCommas(s) == s;
    SplitAtom(s, ';');
    var l := Lower(s);
    assert l[0] == 'n' && l[1] == 'a' && l[2] == 'n';
    assert l == s;
    StripUntouched(s, IsSpace);
    assert TidyPieces([s]) == [s];
    assert DropNan([s]) == [];
  }

  /** A tidied field is never the missing value "nan", so
      `combine_categories` never skips one. */
  lemma TidyCategoriesNotMissing(s: string)
    ensures TidyCategories(s) != "nan"
  {
    var t := TidyCategories(s);
    TidyCategoriesClean(s);
    assert Split(t, ';')[0] != "nan";
    SplitAtom("nan", ';');
    assert Split("nan", ';')[0] == "nan";
  }

  /** The pieces of "a; ;b". */
  lemma SplitBlankPiece(s: string, xs: seq<string>)
    requires s == "a; ;b" && xs == ["a", " ", "b"]
    ensures Split(ReplaceCommas(s), ';') == xs
  {
    assert ReplaceCommas(s) == s;
    assert Join(xs, ';') == s by {
      assert Join(xs[1..], ';') == " ;b";
    }
    SplitJoin(xs, ';');
  }

  lemma TidyBlankPiece(xs: seq<string>, ys: seq<string>)
    requires xs == ["a", " ", "b"] && ys == ["a", "", "b"]
    ensures TidyPieces(xs) == ys
  {
    TidyPieceFixed(xs[0]);
    TidyPieceBlank(xs[1]);
    TidyPieceFixed(xs[2]);
    assert TidyPieces(xs[2..]) == [xs[2]];
    assert TidyPieces(xs[1..]) == [""] + TidyPieces(xs[2..]);
  }

  /** The empty middle piece is kept, so the join has two adjacent ";". */
  lemma JoinBlankPiece(ys: seq<string>)
    requires ys == ["a", "", "b"]
    ensures DropTrailingSemicolon(Join(DropNan(ys), ';')) == "a;;b"
  {
    DropNanKeepsAll(ys);
    assert Join(ys[1..], ';') == ";b";
  }

  /** A whitespace-only piece is not dropped: it survives as an empty piece,
      because the emptiness test runs before stripping. */
  lemma TidyCategoriesBlankPiece(s: string)
    requires s == "a; ;b"
    ensures TidyCategories(s) == "a;;b"
  {
    var xs, ys := ["a", " ", "b"], ["a", "", "b"];
    SplitBlankPiece(s, xs);
    TidyBlankPiece(xs, ys);
    JoinBlankPiece(ys);
  }

  /** The pieces of "Cycling;Bus". */
  lemma SplitCyclingBus(s: string, xs: seq<string>)
    requires s == "Cycling;Bus" && xs == ["Cycling", "Bus"]
    ensures Split(ReplaceCommas(s), ';') == xs
  {
    assert ReplaceCommas(s) == s;
    assert Join(xs, ';') == s;
    SplitJoin(xs, ';');
  }

  lemma TidyCycling(p: string)
    requires p == "Cycling"
    ensures TidyPiece(p) == "cycling"
  {
    var l := Lower(p);
    assert l[0] == 'c' && l[1] == 'y' && l[2] == 'c' && l[3] == 'l';
    assert l[4] == 'i' && l[5] == 'n' && l[6] == 'g';
    assert l == "cycling";
    StripUntouched(l, IsSpace);
  }

  lemma TidyBus(p: string)
    requires p == "Bus"
    ensures TidyPiece(p) == "bus"
  {
    var l := Lower(p);
    assert l[0] == 'b' && l[1] == 'u' && l[2] == 's';
    assert l == "bus";
    StripUntouched(l, IsSpace);
  }

  lemma TidyCyclingBusPieces(xs: seq<string>, ys: seq<string>)
    requires xs == ["Cycling", "Bus"] && ys == ["cycling", "bus"]
    ensures TidyPieces(xs) == ys
  {
    TidyCycling(xs[0]);
    TidyBus(xs[1]);
    assert TidyPieces(xs[1..]) == [ys[1]];
  }

  lemma JoinCyclingBus(ys: seq<string>)
    requires ys == ["cycling", "bus"]
    ensures DropTrailingSemicolon(Join(DropNan(ys), ';')) == "cycling;bus"
  {
    assert DropNan(ys[1..]) == ys[1..];
    assert DropNan(ys) == ys;
  }

  /** Capitalised tags are lower-cased. */
  lemma TidyCategoriesCyclingBus(s: string)
    requires s == "Cycling;Bus"
    ensures TidyCategories(s) == "cycling;bus"
  {
    var xs, ys := ["Cycling", "Bus"], ["cycling", "bus"];
    SplitCyclingBus(s, xs);
    TidyCyclingBusPieces(xs, ys);
    JoinCyclingBus(ys);
  }

  /** The pieces of "cycling;bus". */
  lemma SplitTidyCyclingBus(s: string)
    requires s == "cycling;bus"
    ensures Split(s, ';') == ["cycling", "bus"]
  {
    var xs := ["cycling", "bus"];
    assert Join(xs, ';') == s;
    SplitJoin(xs, ';');
  }

  /** `sep.join(set(xs))`: joins the elements of a set in some order that the
      caller cannot rely on. The pieces of the result are the set's elements,
      each exactly once; the empty set joins to "". */
  method JoinSet(s: set<string>, sep: char) returns (r: string)
    requires forall x :: x in s ==> sep !in x
    ensures s == {} ==> r == ""
    ensures s != {} ==> forall x :: x in Split(r, sep) <==> x in s
    ensures s != {} ==> NoDuplicates(Split(r, sep))
  {
    var order: seq<string> := [];
    var rest := s;
    while rest != {}
      invariant rest <= s
      invariant forall x :: x in order <==> x in s && x !in rest
      invariant NoDuplicates(order)
      decreases rest
    {
      var x :| x in rest;
      order := order + [x];
      rest := rest - {x};
    }
    r := Join(order, sep);
    if order != [] {
      assert order[0] in s;
      SplitJoin(order, sep);
    } else {
      assert forall x :: x !in s;
    }
  }

  /** The tag pieces a field contributes to the combination: its `;`-pieces,
      or none when the field is exactly "nan".  This is the reference
      definition `CombinedFrom` and `CombineCategories` are stated against. */
  function FieldPieces(field: string): seq<string>
  {
    if field == "nan" then [] else Split(field, ';')
  }

  /** `combined` is a join of the union of the pieces of the two fields, each
      piece once; when both fields are missing it is "". */
  ghost predicate CombinedFrom(originalTags: string, manualTags: string, combined: string)
  {
    && (originalTags == "nan" && manualTags == "nan" ==> combined == "")
    && (originalTags != "nan" || manualTags != "nan" ==>
          forall t :: t in Split(combined, ';') <==> t in FieldPieces(originalTags) || t in FieldPieces(manualTags))
    && NoDuplicates(Split(combined, ';'))
  }

  /** `combine_categories`: concatenates the `;`-pieces of the two tag fields,
      skipping a field only when it is exactly "nan", and joins the set of them.
      The pieces of the result are the union of the fields' pieces, without
      repetition; when both fields are missing the result is "". */
  method CombineCategories(originalTags: string, manualTags: string) returns (r: string)
    ensures CombinedFrom(originalTags, manualTags, r)
  {
    var combined: seq<string> := [];
    if originalTags != "nan" {
      combined := combined + Split(originalTags, ';');
    }
    if manualTags != "nan" {
      combined := combined + Split(manualTags, ';');
    }
    SplitPieces(originalTags, ';');
    SplitPieces(manualTags, ';');
    var pool := set t | t in combined;
    assert forall t :: t in pool <==> t in FieldPieces(originalTags) || t in FieldPieces(manualTags);
    r := JoinSet(pool, ';');
    if combined == [] {
      assert Split(r, ';') == [""];
    } else {
      assert combined[0] in pool;
    }
  }
}
