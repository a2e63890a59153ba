/** The Python string primitives the scraper relies on: `strip`, `lower`,
    `title`, `split`, `join`, `replace`, repetition and the code-point order
    used by `<` on strings.  Case mapping is restricted to ASCII letters;
    white space is the full set of characters `str.isspace()` accepts. */
module Text {

  // ---------------------------------------------------------------------
  // Character classes
  // ---------------------------------------------------------------------

  /** The characters Python's `str.isspace()` (and the regex class `\s`)
      accepts. */
  predicate IsSpace(c: char) {
    || c == ' '
    || ('\t' <= c <= '\r')
    || ('\U{1C}' <= c <= '\U{1F}')
    || c == '\U{85}' || c == '\U{A0}' || c == '\U{1680}'
    || ('\U{2000}' <= c <= '\U{200A}')
    || c == '\U{2028}' || c == '\U{2029}' || c == '\U{202F}'
    || c == '\U{205F}' || c == '\U{3000}'
  }

  predicate IsUpper(c: char) { 'A' <= c <= 'Z' }

  predicate IsLower(c: char) { 'a' <= c <= 'z' }

  predicate IsLetter(c: char) { IsUpper(c) || IsLower(c) }

  predicate IsDigit(c: char) { '0' <= c <= '9' }

  function LowerChar(c: char): (r: char)
    ensures !IsUpper(r)
    ensures IsLetter(c) <==> IsLower(r)
    ensures !IsLetter(c) ==> r == c
  {
    if IsUpper(c) then (c as int + 32) as char else c
  }

  function UpperChar(c: char): (r: char)
    ensures !IsLower(r)
    ensures IsLetter(c) <==> IsUpper(r)
    ensures !IsLetter(c) ==> r == c
    ensures LowerChar(r) == LowerChar(c)
  {
    if IsLower(c) then (c as int - 32) as char else c
  }

  /** Two characters are the same letter up to ASCII case. */
  predicate SameLetter(a: char, b: char) {
    LowerChar(a) == LowerChar(b)
  }

  // ---------------------------------------------------------------------
  // strip
  // ---------------------------------------------------------------------

  ghost predicate AllSpace(s: string) {
    forall i :: 0 <= i < |s| ==> IsSpace(s[i])
  }

  /** Neither end of `s` is white space. */
  predicate Trimmed(s: string) {
    s == [] || (!IsSpace(s[0]) && !IsSpace(s[|s| - 1]))
  }

  function StripLeft(s: string): (r: string)
    ensures |r| <= |s| && r == s[|s| - |r|..]
    ensures r == [] || !IsSpace(r[0])
    decreases |s|
  {
    if |s| > 0 && IsSpace(s[0]) then StripLeft(s[1..]) else s
  }

  /** What `StripLeft` drops is white space. */
  lemma {:induction false} StripLeftDropsSpace(s: string)
    ensures AllSpace(s[..|s| - |StripLeft(s)|])
    decreases |s|
  {
    if |s| > 0 && IsSpace(s[0]) {
      StripLeftDropsSpace(s[1..]);
      var k := |s| - |StripLeft(s)|;
      assert forall i :: 1 <= i < k ==> s[..k][i] == s[1..][..k - 1][i - 1];
    }
  }

  function StripRight(s: string): (r: string)
    ensures |r| <= |s| && r == s[..|r|]
    ensures r == [] || !IsSpace(r[|r| - 1])
    decreases |s|
  {
    if |s| > 0 && IsSpace(s[|s| - 1]) then StripRight(s[..|s| - 1]) else s
  }

  /** What `StripRight` drops is white space. */
  lemma {:induction false} StripRightDropsSpace(s: string)
    ensures AllSpace(s[|StripRight(s)|..])
    decreases |s|
  {
    if |s| > 0 && IsSpace(s[|s| - 1]) {
      var t := s[..|s| - 1];
      StripRightDropsSpace(t);
      var k := |StripRight(s)|;
      assert forall i :: 0 <= i < |s| - 1 - k ==> s[k..][i] == t[k..][i];
    }
  }

  /** Python's `s.strip()` (white space at both ends removed); the result
      has no white space at either end. */
  function Strip(s: string): (r: string)
    ensures Trimmed(r) && |r| <= |s|
  {
    var l := StripLeft(s);
    var r := StripRight(l);
    assert Trimmed(r) by {
      if r != [] {
        assert r[0] == l[0];
      }
    }
    r
  }

  /** Stripping removes white space only: the result is a slice of `s`
      with nothing but white space on either side of it. */
  lemma StripRemovesSpace(s: string)
    ensures exists i, j :: 0 <= i <= j <= |s| && Strip(s) == s[i..j] && AllSpace(s[..i]) && AllSpace(s[j..])
  {
    var l := StripLeft(s);
    var r := StripRight(l);
    StripLeftDropsSpace(s);
    StripRightDropsSpace(l);
    var i := |s| - |l|;
    assert r == s[i..i + |r|];
    assert s[i + |r|..] == l[|r|..];
  }

  /** Stripping only removes characters. */
  lemma StripKeepsChars(s: string)
    ensures forall x :: x in Strip(s) ==> x in s
  {
    StripRemovesSpace(s);
    var i, j :| 0 <= i <= j <= |s| && Strip(s) == s[i..j] && AllSpace(s[..i]) && AllSpace(s[j..]);
    assert forall k :: 0 <= k < j - i ==> s[i..j][k] == s[i + k];
  }

  lemma {:induction false} StripLeftOfTrimmed(s: string)
    requires s == [] || !IsSpace(s[0])
    ensures StripLeft(s) == s
  {
  }

  /** Stripping text that is already trimmed changes nothing. */
  lemma StripTrimmed(s: string)
    requires Trimmed(s)
    ensures Strip(s) == s
  {
    StripLeftOfTrimmed(s);
  }

  // ---------------------------------------------------------------------
  // lower, title, replace, repetition
  // ---------------------------------------------------------------------

  /** `s.lower()` restricted to ASCII letters. */
  function Lower(s: string): (r: string)
    ensures |r| == |s|
    ensures forall i :: 0 <= i < |s| ==> r[i] == LowerChar(s[i])
  {
    seq(|s|, i requires 0 <= i < |s| => LowerChar(s[i]))
  }

  /** One character of a title-cased string: `out` is `orig` with its case
      set by whether the previous character was a letter. */
  predicate TitleCharOk(orig: char, out: char, prevIsLetter: bool) {
    && SameLetter(out, orig)
    && (IsLetter(orig) ==> (IsUpper(out) <==> !prevIsLetter))
    && (!IsLetter(orig) ==> out == orig)
  }

  function TitleFrom(s: string, prevIsLetter: bool): (r: string)
    ensures |r| == |s|
    ensures |s| > 0 ==> TitleCharOk(s[0], r[0], prevIsLetter)
    ensures forall i :: 1 <= i < |s| ==> TitleCharOk(s[i], r[i], IsLetter(s[i - 1]))
    decreases |s|
  {
    if |s| == 0 then []
    else
      var c := if prevIsLetter then LowerChar(s[0]) else UpperChar(s[0]);
      var rest := TitleFrom(s[1..], IsLetter(s[0]));
      var r := [c] + rest;
      assert forall j :: 0 <= j < |s| - 1 ==> s[1..][j] == s[j + 1] && r[j + 1] == rest[j];
      r
  }

  /** True when `i` starts a word: the character before it is not a letter. */
  predicate StartsWord(s: string, i: nat)
    requires i < |s|
  {
    i == 0 || !IsLetter(s[i - 1])
  }

  /** `s.title()` on ASCII letters: a letter is upper-cased exactly when it
      starts a word and lower-cased otherwise; every other character is
      kept. */
  function Title(s: string): (r: string)
    ensures |r| == |s|
    ensures forall i :: 0 <= i < |s| ==> SameLetter(r[i], s[i])
    ensures forall i :: 0 <= i < |s| && IsLetter(s[i]) ==> (IsUpper(r[i]) <==> StartsWord(s, i))
    ensures forall i :: 0 <= i < |s| && !IsLetter(s[i]) ==> r[i] == s[i]
  {
    var r := TitleFrom(s, false);
    assert forall i :: 0 <= i < |s| ==> TitleCharOk(s[i], r[i], !StartsWord(s, i));
    r
  }

  /** `s.replace(a, b)` for one-character arguments. */
  function ReplaceChar(s: string, a: char, b: char): (r: string)
    ensures |r| == |s|
    ensures a !in r || a == b
    ensures forall i :: 0 <= i < |s| ==> r[i] == (if s[i] == a then b else s[i])
  {
    var r := seq(|s|, i requires 0 <= i < |s| => if s[i] == a then b else s[i]);
    assert forall i :: 0 <= i < |r| ==> r[i] != a || a == b;
    r
  }

  /** `c * n` for a one-character string `c`. */
  function RepeatChar(c: char, n: nat): (r: string)
    ensures |r| == n
    ensures forall i :: 0 <= i < n ==> r[i] == c
  {
    seq(n, i => c)
  }

  // ---------------------------------------------------------------------
  // split and join
  // ---------------------------------------------------------------------

  /** `sep.join(xs)`. */
  function Join(xs: seq<string>, sep: string): string
    decreases |xs|
  {
    if |xs| == 0 then ""
    else if |xs| == 1 then xs[0]
    else xs[0] + sep + Join(xs[1..], sep)
  }

  /** `s.split(c)`: the pieces between occurrences of `c`; joining them with
      `c` gives `s` back and no piece contains `c`. */
  function Split(s: string, c: char): (r: seq<string>)
    ensures |r| >= 1
    ensures forall k :: 0 <= k < |r| ==> c !in r[k]
    ensures Join(r, [c]) == s
    decreases |s|
  {
    if |s| == 0 then [""]
    else
      var rest := Split(s[1..], c);
      if s[0] == c then
        assert Join([""] + rest, [c]) == [c] + Join(rest, [c]) by {
          assert ([""] + rest)[1..] == rest;
        }
        [""] + rest
      else
        var r := [[s[0]] + rest[0]] + rest[1..];
        assert Join(r, [c]) == s by {
          if |rest| == 1 {
          } else {
            assert r[1..] == rest[1..];
            assert Join(rest, [c]) == rest[0] + [c] + Join(rest[1..], [c]);
            assert s == [s[0]] + s[1..];
          }
        }
        r
  }

  lemma {:induction false} SplitFree(a: string, c: char)
    requires c !in a
    ensures Split(a, c) == [a]
    decreases |a|
  {
    if |a| > 0 {
      SplitFree(a[1..], c);
      assert [a[0]] + a[1..] == a;
    }
  }

  lemma {:induction false} SplitAtFirst(a: string, b: string, c: char)
    requires c !in a
    ensures Split(a + [c] + b, c) == [a] + Split(b, c)
    decreases |a|
  {
    var s := a + [c] + b;
    if |a| == 0 {
      assert s[1..] == b;
    } else {
      assert s[1..] == a[1..] + [c] + b;
      SplitAtFirst(a[1..], b, c);
      assert [a[0]] + a[1..] == a;
    }
  }

  /** Splitting undoes joining when no piece contains the separator. */
  lemma {:induction false} SplitJoin(xs: seq<string>, c: char)
    requires |xs| >= 1
    requires forall k :: 0 <= k < |xs| ==> c !in xs[k]
    ensures Split(Join(xs, [c]), c) == xs
    decreases |xs|
  {
    if |xs| == 1 {
      SplitFree(xs[0], c);
    } else {
      SplitJoin(xs[1..], c);
      SplitAtFirst(xs[0], Join(xs[1..], [c]), c);
      assert [xs[0]] + xs[1..] == xs;
    }
  }

  // ---------------------------------------------------------------------
  // Comma-separated terms
  // ---------------------------------------------------------------------

  /** A term of a comma list as the comprehension keeps it. */
  predicate IsTerm(t: string) {
    t != "" && Trimmed(t) && ',' !in t
  }

  function KeepStripped(pieces: seq<string>): (r: seq<string>)
    decreases |pieces|
  {
    if |pieces| == 0 then []
    else
      var t := Strip(pieces[0]);
      (if t != "" then [t] else []) + KeepStripped(pieces[1..])
  }

  lemma {:induction false} KeepStrippedTerms(pieces: seq<string>)
    requires forall k :: 0 <= k < |pieces| ==> ',' !in pieces[k]
    ensures forall k :: 0 <= k < |KeepStripped(pieces)| ==> IsTerm(KeepStripped(pieces)[k])
    ensures |KeepStripped(pieces)| <= |pieces|
    decreases |pieces|
  {
    if |pieces| > 0 {
      KeepStrippedTerms(pieces[1..]);
      var t := Strip(pieces[0]);
      StrippedPieceIsTerm(pieces[0]);
      var h := if t != "" then [t] else [];
      var rest := KeepStripped(pieces[1..]);
      assert KeepStripped(pieces) == h + rest;
      forall k | 0 <= k < |h + rest| ensures IsTerm((h + rest)[k]) {
        if k < |h| {
          assert (h + rest)[k] == t;
        } else {
          assert (h + rest)[k] == rest[k - |h|];
        }
      }
    }
  }

  lemma StrippedPieceIsTerm(p: string)
    requires ',' !in p
    ensures Strip(p) != "" ==> IsTerm(Strip(p))
  {
    StripKeepsChars(p);
  }

  /** `[p.strip() for p in s.split(",") if p.strip()]`: every term is
      non-empty, trimmed and comma-free. */
  function CommaTerms(s: string): (r: seq<string>)
    ensures forall k :: 0 <= k < |r| ==> IsTerm(r[k])
  {
    KeepStrippedTerms(Split(s, ','));
    KeepStripped(Split(s, ','))
  }

  lemma {:induction false} KeepStrippedTermsId(xs: seq<string>)
    requires forall k :: 0 <= k < |xs| ==> IsTerm(xs[k])
    ensures KeepStripped(xs) == xs
    decreases |xs|
  {
    if |xs| > 0 {
      assert IsTerm(xs[0]);
      StripTrimmed(xs[0]);
      KeepStrippedTermsId(xs[1..]);
      assert KeepStripped(xs) == [xs[0]] + KeepStripped(xs[1..]);
      assert [xs[0]] + xs[1..] == xs;
    }
  }

  /** Joining terms with commas and parsing them back gives the same terms. */
  lemma CommaTermsJoin(terms: seq<string>)
    requires forall k :: 0 <= k < |terms| ==> IsTerm(terms[k])
    ensures CommaTerms(Join(terms, ",")) == terms
  {
    if |terms| == 0 {
      assert Split("", ',') == [""];
      assert Strip("") == "";
    } else {
      SplitJoin(terms, ',');
      KeepStrippedTermsId(terms);
    }
  }

  /** Comma-joined terms have no white space at either end. */
  lemma {:induction false} JoinTermsTrimmed(terms: seq<string>)
    requires forall k :: 0 <= k < |terms| ==> IsTerm(terms[k])
    ensures Trimmed(Join(terms, ","))
    ensures |terms| > 0 ==> |Join(terms, ",")| > 0
    decreases |terms|
  {
    if |terms| >= 2 {
      JoinTermsTrimmed(terms[1..]);
      assert IsTerm(terms[0]) && IsTerm(terms[1..][0]);
      var rest := Join(terms[1..], ",");
      var s := terms[0] + "," + rest;
      assert Join(terms, ",") == s;
      assert s[0] == terms[0][0];
      assert s[|s| - 1] == rest[|rest| - 1];
    } else if |terms| == 1 {
      assert IsTerm(terms[0]);
    }
  }

  /** Comma-joined terms are left alone by stripping, and are empty only
      when there are no terms. */
  lemma JoinTermsStripped(terms: seq<string>)
    requires forall k :: 0 <= k < |terms| ==> IsTerm(terms[k])
    ensures Strip(Join(terms, ",")) == Join(terms, ",")
    ensures |terms| > 0 ==> Join(terms, ",") != ""
  {
    JoinTermsTrimmed(terms);
    StripTrimmed(Join(terms, ","));
  }

  lemma {:induction false} StripLeftAllSpace(s: string)
    requires AllSpace(s)
    ensures StripLeft(s) == "" && Strip(s) == ""
    decreases |s|
  {
    if |s| > 0 {
      StripLeftAllSpace(s[1..]);
    }
  }

  lemma {:induction false} KeepStrippedSpaces(pieces: seq<string>)
    requires forall k :: 0 <= k < |pieces| ==> Strip(pieces[k]) == ""
    ensures KeepStripped(pieces) == []
    decreases |pieces|
  {
    if |pieces| > 0 {
      KeepStrippedSpaces(pieces[1..]);
    }
  }

  /** A lone comma is already stripped and names no term. */
  lemma LoneComma()
    ensures Strip(",") == "," && CommaTerms(",") == []
  {
    var s := ",";
    assert |s| == 1 && s[0] == ',';
    assert !IsSpace(',');
    assert Trimmed(s);
    StripTrimmed(s);
    CommaTermsOnlySeparators(s);
  }

  /** A comma list with no non-blank term (`","`, `" , "`) yields nothing. */
  lemma CommaTermsOnlySeparators(s: string)
    requires forall i :: 0 <= i < |s| ==> s[i] == ',' || IsSpace(s[i])
    ensures CommaTerms(s) == []
  {
    var pieces := Split(s, ',');
    forall k | 0 <= k < |pieces| ensures Strip(pieces[k]) == "" {
      PieceOfSplit(s, ',', k);
      var p := pieces[k];
      assert forall i :: 0 <= i < |p| ==> IsSpace(p[i]) by {
        forall i | 0 <= i < |p| ensures IsSpace(p[i]) {
          assert p[i] in s;
          assert p[i] != ',';
        }
      }
      StripLeftAllSpace(p);
    }
    KeepStrippedSpaces(pieces);
  }

  /** Every character of every piece of `Split(s, c)` occurs in `s`. */
  lemma {:induction false} PieceOfSplit(s: string, c: char, k: nat)
    requires k < |Split(s, c)|
    ensures forall i :: 0 <= i < |Split(s, c)[k]| ==> Split(s, c)[k][i] in s
    decreases |s|
  {
    if |s| > 0 {
      var rest := Split(s[1..], c);
      var r := Split(s, c);
      if s[0] == c {
        if k > 0 {
          PieceOfSplit(s[1..], c, k - 1);
          assert r[k] == rest[k - 1];
          assert forall x :: x in s[1..] ==> x in s;
        }
      } else {
        if k == 0 {
          PieceOfSplit(s[1..], c, 0);
          assert forall x :: x in s[1..] ==> x in s;
          assert r[0] == [s[0]] + rest[0];
          forall i | 0 <= i < |r[0]| ensures r[0][i] in s {
            if i > 0 {
              assert r[0][i] == rest[0][i - 1];
            }
          }
        } else {
          PieceOfSplit(s[1..], c, k);
          assert r[k] == rest[k];
          assert forall x :: x in s[1..] ==> x in s;
        }
      }
    }
  }

  // ---------------------------------------------------------------------
  // Code-point order of strings (Python's `<` on `str`)
  // ---------------------------------------------------------------------

  predicate StrLess(a: string, b: string)
    decreases |a|
  {
    if |a| == 0 then |b| > 0
    else if |b| == 0 then false
    else if a[0] != b[0] then a[0] < b[0]
    else StrLess(a[1..], b[1..])
  }

  lemma {:induction false} StrLessIrreflexive(a: string)
    ensures !StrLess(a, a)
    decreases |a|
  {
    if |a| > 0 {
      StrLessIrreflexive(a[1..]);
    }
  }

  lemma {:induction false} StrLessTransitive(a: string, b: string, c: string)
    requires StrLess(a, b) && StrLess(b, c)
    ensures StrLess(a, c)
    decreases |a|
  {
    if |a| > 0 && |b| > 0 && |c| > 0 && a[0] == b[0] && b[0] == c[0] {
      StrLessTransitive(a[1..], b[1..], c[1..]);
    }
  }

  lemma {:induction false} StrLessTotal(a: string, b: string)
    ensures a == b || StrLess(a, b) || StrLess(b, a)
    decreases |a|
  {
    if |a| > 0 && |b| > 0 && a[0] == b[0] {
      StrLessTotal(a[1..], b[1..]);
      if a[1..] == b[1..] {
        assert a == [a[0]] + a[1..] && b == [b[0]] + b[1..];
      }
    }
  }

  lemma {:induction false} StrLessAsymmetric(a: string, b: string)
    requires StrLess(a, b)
    ensures !StrLess(b, a)
    decreases |a|
  {
    if |a| > 0 && |b| > 0 && a[0] == b[0] {
      StrLessAsymmetric(a[1..], b[1..]);
    }
  }
}
