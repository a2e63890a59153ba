/** The field-normalisation helpers of the scraper: price tier, condensed
    opening hours, the first-photo URL, the phone fallback and `slugify`. */
module Fields {
  import opened Wrappers
  import opened Text

  // ---------------------------------------------------------------------
  // Price tier
  // ---------------------------------------------------------------------

  /** `_price_level_to_string`: no level gives "", a positive level gives
      that many dollar signs, and any other level (zero or below) gives
      "Free". */
  function PriceLevelToString(level: Option<int>): (r: string)
    ensures level.None? <==> r == ""
    ensures (level.Some? && level.value <= 0) <==> r == "Free"
    ensures level.Some? && level.value > 0 ==>
      |r| == level.value && forall i :: 0 <= i < |r| ==> r[i] == '$'
  {
    match level
    case None => ""
    case Some(l) =>
      if l > 0 then
        var r := RepeatChar('$', l);
        assert r[0] != "Free"[0];
        r
      else "Free"
  }

  /** Reading a price tier back: "" is no level, "Free" is level 0, and a
      run of dollar signs is its length. */
  function ParsePriceLevel(s: string): Option<int> {
    if s == "" then None
    else if s == "Free" then Some(0)
    else Some(|s|)
  }

  /** The tier text determines the level, except that every level at or
      below zero reads back as 0. */
  lemma PriceLevelRoundTrip(level: Option<int>)
    ensures ParsePriceLevel(PriceLevelToString(level)) ==
      match level
      case None => None
      case Some(l) => Some(if l > 0 then l else 0)
  {
  }

  // ---------------------------------------------------------------------
  // Opening hours
  // ---------------------------------------------------------------------

  /** The provider's opening-hours object; a missing `weekday_text` is the
      empty list. */
  datatype Hours = Hours(weekdayText: seq<string>)

  const HoursSeparator: string := " | "

  /** `_format_opening_hours`: the weekday lines joined with " | ", or ""
      when there is no hours object or no lines. */
  function FormatOpeningHours(hours: Option<Hours>): (r: string)
    ensures hours.None? || |hours.value.weekdayText| == 0 ==> r == ""
    ensures hours.Some? && |hours.value.weekdayText| > 0 ==>
      var first := hours.value.weekdayText[0];
      |first| <= |r| && r[..|first|] == first
  {
    match hours
    case None => ""
    case Some(h) => if |h.weekdayText| == 0 then "" else Join(h.weekdayText, HoursSeparator)
  }

  /** Position of the first `c` in `s`, or `|s|` when there is none. */
  function IndexOf(s: string, c: char): (k: nat)
    ensures k <= |s|
    ensures k < |s| ==> s[k] == c
    ensures forall i :: 0 <= i < k ==> s[i] != c
    decreases |s|
  {
    if |s| == 0 then 0
    else if s[0] == c then 0
    else 1 + IndexOf(s[1..], c)
  }

  /** Splits condensed opening hours back into weekday lines. */
  function SplitHours(s: string): seq<string>
    decreases |s|
  {
    var k := IndexOf(s, '|');
    if k < |s| && 1 <= k && k + 1 < |s| then [s[..k - 1]] + SplitHours(s[k + 2..])
    else [s]
  }

  /** The condensed text gives the weekday lines back, provided there is at
      least one and none contains a bar. */
  lemma {:induction false} SplitFormattedHours(lines: seq<string>)
    requires |lines| >= 1
    requires forall k :: 0 <= k < |lines| ==> '|' !in lines[k]
    ensures SplitHours(FormatOpeningHours(Some(Hours(lines)))) == lines
    decreases |lines|
  {
    if |lines| == 1 {
      SplitFormattedHoursOne(lines);
    } else {
      var x, tail := lines[0], lines[1..];
      var rest := Join(tail, HoursSeparator);
      assert FormatOpeningHours(Some(Hours(lines))) == x + HoursSeparator + rest;
      assert SplitHours(x + HoursSeparator + rest) == [x] + SplitHours(rest) by {
        SplitHoursStep(x, rest);
      }
      assert SplitHours(rest) == tail by {
        SplitFormattedHours(tail);
      }
      assert [x] + tail == lines;
    }
  }

  /** One separator splits off the line before it. */
  lemma SplitHoursStep(x: string, rest: string)
    requires '|' !in x
    ensures SplitHours(x + HoursSeparator + rest) == [x] + SplitHours(rest)
  {
    var s := x + HoursSeparator + rest;
    assert s[|x| + 1] == '|';
    assert forall i :: 0 <= i < |x| + 1 ==> s[i] != '|' by {
      forall i | 0 <= i < |x| + 1 ensures s[i] != '|' {
        if i < |x| {
          assert s[i] == x[i];
        }
      }
    }
    IndexOfFirst(s, '|', |x| + 1);
    assert s[..|x|] == x;
    assert s[|x| + 3..] == rest;
  }

  lemma SplitFormattedHoursOne(lines: seq<string>)
    requires |lines| == 1 && '|' !in lines[0]
    ensures SplitHours(Join(lines, HoursSeparator)) == lines
  {
    assert IndexOf(lines[0], '|') == |lines[0]|;
  }

  lemma {:induction false} IndexOfFirst(s: string, c: char, k: nat)
    requires k < |s| && s[k] == c
    requires forall i :: 0 <= i < k ==> s[i] != c
    ensures IndexOf(s, c) == k
    decreases k
  {
    if k > 0 {
      IndexOfFirst(s[1..], c, k - 1);
    }
  }

  // ---------------------------------------------------------------------
  // Photo URL and phone
  // ---------------------------------------------------------------------

  /** One entry of the provider's `photos` list. */
  datatype Photo = Photo(reference: Option<string>)

  const PhotoEndpoint: string := "https://maps.googleapis.com/maps/api/place/photo"
  const PhotoMaxWidth: string := "400"

  function PhotoUrlFor(reference: string, apiKey: string): string {
    PhotoEndpoint + "?maxwidth=" + PhotoMaxWidth + "&photo_reference=" + reference + "&key=" + apiKey
  }

  /** The photo URL of a place: built from the first photo's reference
      only, or "" when there is no photo or that reference is empty. */
  function PhotoUrl(photos: seq<Photo>, apiKey: string): (r: string)
    ensures r == "" <==> (|photos| == 0 || photos[0].reference.GetOr("") == "")
    ensures r != "" ==> r == PhotoUrlFor(photos[0].reference.value, apiKey)
  {
    if |photos| > 0 && photos[0].reference.GetOr("") != "" then
      PhotoUrlFor(photos[0].reference.value, apiKey)
    else ""
  }

  /** Photos after the first never influence the URL. */
  lemma PhotoUrlUsesFirstOnly(photos: seq<Photo>, more: seq<Photo>, apiKey: string)
    requires |photos| >= 1
    ensures PhotoUrl(photos + more, apiKey) == PhotoUrl(photos[..1], apiKey)
  {
    assert (photos + more)[0] == photos[..1][0];
  }

  /** The reference can be read back out of the URL at a fixed offset. */
  lemma PhotoReferenceRecoverable(reference: string, apiKey: string)
    ensures var url := PhotoUrlFor(reference, apiKey);
      var at := |PhotoEndpoint + "?maxwidth=" + PhotoMaxWidth + "&photo_reference="|;
      at + |reference| <= |url| && url[at..at + |reference|] == reference
  {
  }

  /** The phone number: the international form when present and non-empty,
      otherwise the local form, otherwise "". */
  function Phone(international: Option<string>, local: Option<string>): (r: string)
    ensures international.GetOr("") != "" ==> r == international.value
    ensures international.GetOr("") == "" ==> r == local.GetOr("")
  {
    var intl := international.GetOr("");
    if intl != "" then intl else local.GetOr("")
  }

  // ---------------------------------------------------------------------
  // slugify
  // ---------------------------------------------------------------------

  /** The regex class `\w`, restricted to ASCII. */
  predicate IsWordChar(c: char) {
    IsLetter(c) || IsDigit(c) || c == '_'
  }

  /** The characters `[\s_]` that a run of is collapsed into one "_". */
  predicate IsRunChar(c: char) {
    IsSpace(c) || c == '_'
  }

  /** The characters a slug may contain. */
  predicate IsSlugChar(c: char) {
    IsLower(c) || IsDigit(c) || c == '_' || c == '-'
  }

  /** `re.sub(r'[^\w\s-]', '', s)`. */
  function KeepSlugInput(s: string): (r: string)
    ensures forall i :: 0 <= i < |r| ==> IsWordChar(r[i]) || IsSpace(r[i]) || r[i] == '-'
    ensures forall i :: 0 <= i < |r| ==> r[i] in s
    decreases |s|
  {
    if |s| == 0 then []
    else
      var rest := KeepSlugInput(s[1..]);
      assert forall x :: x in s[1..] ==> x in s;
      if IsWordChar(s[0]) || IsSpace(s[0]) || s[0] == '-' then [s[0]] + rest else rest
  }

  /** `re.sub(r'[\s_]+', '_', s)`, where `inRun` records that a run has
      already been replaced by its "_". */
  function CollapseRuns(s: string, inRun: bool): (r: string)
    ensures forall i :: 0 <= i < |r| ==> !IsSpace(r[i])
    ensures forall i :: 0 <= i < |r| ==> r[i] == '_' || r[i] in s
    ensures forall i :: 0 <= i && i + 1 < |r| ==> !(r[i] == '_' && r[i + 1] == '_')
    ensures inRun && |r| > 0 ==> r[0] != '_'
    decreases |s|
  {
    if |s| == 0 then []
    else
      var rest := CollapseRuns(s[1..], IsRunChar(s[0]));
      assert forall x :: x in s[1..] ==> x in s;
      if IsRunChar(s[0]) then
        if inRun then rest
        else
          var r := ['_'] + rest;
          assert forall i :: 1 <= i < |r| ==> r[i] == rest[i - 1];
          r
      else
        var r := [s[0]] + rest;
        assert forall i :: 1 <= i < |r| ==> r[i] == rest[i - 1];
        r
  }

  /** `slugify(text)`: lower-case, strip, drop everything that is not a
      word character, white space or "-", and collapse each run of white
      space and underscores into one "_". The result holds only lower-case
      letters, digits, "_" and "-", and never two "_" in a row. */
  function Slugify(text: string): (r: string)
    ensures forall i :: 0 <= i < |r| ==> IsSlugChar(r[i])
    ensures forall i :: 0 <= i && i + 1 < |r| ==> !(r[i] == '_' && r[i + 1] == '_')
  {
    var low := Lower(text);
    var stripped := Strip(low);
    StripKeepsChars(low);
    var kept := KeepSlugInput(stripped);
    var r := CollapseRuns(kept, false);
    assert forall x :: x in low ==> !IsUpper(x);
    assert forall i :: 0 <= i < |r| ==> IsSlugChar(r[i]) by {
      forall i | 0 <= i < |r| ensures IsSlugChar(r[i]) {
        if r[i] != '_' {
          assert r[i] in kept;
          assert r[i] in stripped;
          assert !IsUpper(r[i]);
        }
      }
    }
    r
  }

  lemma {:induction false} KeepSlugInputId(s: string)
    requires forall i :: 0 <= i < |s| ==> IsSlugChar(s[i])
    ensures KeepSlugInput(s) == s
    decreases |s|
  {
    if |s| > 0 {
      KeepSlugInputId(s[1..]);
      assert [s[0]] + s[1..] == s;
    }
  }

  lemma {:induction false} CollapseRunsId(s: string, inRun: bool)
    requires forall i :: 0 <= i < |s| ==> !IsSpace(s[i])
    requires forall i :: 0 <= i && i + 1 < |s| ==> !(s[i] == '_' && s[i + 1] == '_')
    requires inRun ==> |s| == 0 || s[0] != '_'
    ensures CollapseRuns(s, inRun) == s
    decreases |s|
  {
    if |s| > 0 {
      CollapseRunsId(s[1..], IsRunChar(s[0]));
      assert [s[0]] + s[1..] == s;
    }
  }

  /** A slug character is neither upper case nor white space. */
  lemma SlugCharFixed(c: char)
    requires IsSlugChar(c)
    ensures LowerChar(c) == c && !IsSpace(c)
  {
  }

  /** A slug is unchanged by lower-casing ... */
  lemma SlugLower(s: string)
    requires forall i :: 0 <= i < |s| ==> IsSlugChar(s[i])
    ensures Lower(s) == s
  {
    forall i | 0 <= i < |s| ensures Lower(s)[i] == s[i] {
      SlugCharFixed(s[i]);
    }
  }

  /** ... holds no white space ... */
  lemma SlugNoSpace(s: string)
    requires forall i :: 0 <= i < |s| ==> IsSlugChar(s[i])
    ensures forall i :: 0 <= i < |s| ==> !IsSpace(s[i])
  {
    forall i | 0 <= i < |s| ensures !IsSpace(s[i]) {
      SlugCharFixed(s[i]);
    }
  }

  /** ... and so is unchanged by stripping. */
  lemma SlugStripped(s: string)
    requires forall i :: 0 <= i < |s| ==> IsSlugChar(s[i])
    ensures Strip(s) == s
  {
    assert Trimmed(s) by {
      if |s| > 0 {
        SlugCharFixed(s[0]);
        SlugCharFixed(s[|s| - 1]);
      }
    }
    StripTrimmed(s);
  }

  /** ... and collapsing runs leaves a slug alone. */
  lemma SlugCollapsed(s: string)
    requires forall i :: 0 <= i < |s| ==> IsSlugChar(s[i])
    requires forall i :: 0 <= i && i + 1 < |s| ==> !(s[i] == '_' && s[i + 1] == '_')
    ensures CollapseRuns(s, false) == s
  {
    SlugNoSpace(s);
    CollapseRunsId(s, false);
  }

  /** A slug is its own slug. */
  lemma SlugifyIdempotent(text: string)
    ensures Slugify(Slugify(text)) == Slugify(text)
  {
    var s := Slugify(text);
    SlugLower(s);
    SlugStripped(s);
    KeepSlugInputId(s);
    SlugCollapsed(s);
  }

  /** The characters a slug keeps from its text: letters, digits and "-". */
  predicate IsSlugTextChar(c: char) {
    (IsWordChar(c) && c != '_') || c == '-'
  }

  /** The letters, digits and "-" of `s`, in order. */
  function SlugText(s: string): string
    decreases |s|
  {
    if |s| == 0 then []
    else (if IsSlugTextChar(s[0]) then [s[0]] else []) + SlugText(s[1..])
  }

  /** `s` without its white space and underscores. */
  function DropRuns(s: string): string
    decreases |s|
  {
    if |s| == 0 then []
    else (if IsRunChar(s[0]) then [] else [s[0]]) + DropRuns(s[1..])
  }

  /** The number of runs of white space and underscores in `s`, not
      counting one that continues a run before `s` when `inRun`. */
  function Runs(s: string, inRun: bool): nat
    decreases |s|
  {
    if |s| == 0 then 0
    else (if IsRunChar(s[0]) && !inRun then 1 else 0) + Runs(s[1..], IsRunChar(s[0]))
  }

  /** The number of "_" in `s`. */
  function Underscores(s: string): nat
    decreases |s|
  {
    if |s| == 0 then 0
    else (if s[0] == '_' then 1 else 0) + Underscores(s[1..])
  }

  lemma {:induction false} DropRunsAppend(a: string, b: string)
    ensures DropRuns(a + b) == DropRuns(a) + DropRuns(b)
    decreases |a|
  {
    if |a| > 0 {
      assert (a + b)[1..] == a[1..] + b;
      DropRunsAppend(a[1..], b);
    } else {
      assert a + b == b;
    }
  }

  lemma {:induction false} UnderscoresAppend(a: string, b: string)
    ensures Underscores(a + b) == Underscores(a) + Underscores(b)
    decreases |a|
  {
    if |a| > 0 {
      assert (a + b)[1..] == a[1..] + b;
      UnderscoresAppend(a[1..], b);
    } else {
      assert a + b == b;
    }
  }

  /** Collapsing runs neither adds nor loses any other character. */
  lemma {:induction false} CollapseKeepsText(s: string, inRun: bool)
    ensures DropRuns(CollapseRuns(s, inRun)) == DropRuns(s)
    decreases |s|
  {
    if |s| > 0 {
      var rest := CollapseRuns(s[1..], IsRunChar(s[0]));
      CollapseKeepsText(s[1..], IsRunChar(s[0]));
      if IsRunChar(s[0]) {
        if !inRun {
          DropRunsAppend(['_'], rest);
        }
      } else {
        DropRunsAppend([s[0]], rest);
      }
    }
  }

  /** Collapsing runs leaves one "_" per run. */
  lemma {:induction false} CollapseCountsRuns(s: string, inRun: bool)
    ensures Underscores(CollapseRuns(s, inRun)) == Runs(s, inRun)
    decreases |s|
  {
    if |s| > 0 {
      var rest := CollapseRuns(s[1..], IsRunChar(s[0]));
      CollapseCountsRuns(s[1..], IsRunChar(s[0]));
      if IsRunChar(s[0]) {
        if !inRun {
          UnderscoresAppend(['_'], rest);
        }
      } else {
        UnderscoresAppend([s[0]], rest);
      }
    }
  }

  /** Dropping the unwanted characters and then the runs leaves the
      letters, digits and "-". */
  lemma {:induction false} KeepSlugInputText(s: string)
    ensures DropRuns(KeepSlugInput(s)) == SlugText(s)
    decreases |s|
  {
    if |s| > 0 {
      var rest := KeepSlugInput(s[1..]);
      KeepSlugInputText(s[1..]);
      if IsWordChar(s[0]) || IsSpace(s[0]) || s[0] == '-' {
        DropRunsAppend([s[0]], rest);
      }
    }
  }

  /** A slug is its text's letters, digits and "-", in order, with one "_"
      for each run of white space and underscores that the dropped
      characters leave: "Coffee & Tea" becomes "coffee_tea". */
  lemma SlugifyText(text: string)
    ensures DropRuns(Slugify(text)) == SlugText(Strip(Lower(text)))
    ensures Underscores(Slugify(text)) == Runs(KeepSlugInput(Strip(Lower(text))), false)
  {
    var kept := KeepSlugInput(Strip(Lower(text)));
    CollapseKeepsText(kept, false);
    KeepSlugInputText(Strip(Lower(text)));
    CollapseCountsRuns(kept, false);
  }
}
