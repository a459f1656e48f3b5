/** The handful of Python `str` operations the add-ons rely on, restricted to
    ASCII: whitespace stripping, lower-casing, `split`, `join`, substring
    tests, and conversions between naturals and their decimal text. */
module Strings {
  import opened Wrappers

  /** `str.isspace` on ASCII characters: space, tab, line feed, carriage
      return, vertical tab, form feed and the four separators U+001C..U+001F
      (which the regular expression class `\s` also matches). */
  predicate IsSpace(c: char) {
    c == ' ' || c == '\t' || c == '\n' || c == '\r' || c == '\U{000B}' || c == '\U{000C}'
    || c == '\U{001C}' || c == '\U{001D}' || c == '\U{001E}' || c == '\U{001F}'
  }

  predicate IsDigit(c: char) { '0' <= c <= '9' }

  predicate IsAsciiLetter(c: char) { 'a' <= c <= 'z' || 'A' <= c <= 'Z' }

  /** `str.isalnum`, ASCII only. */
  predicate IsAlnum(c: char) { IsDigit(c) || IsAsciiLetter(c) }

  /** `str.isdigit`: non-empty and every character a digit. */
  predicate IsDigits(s: string) { |s| > 0 && forall i :: 0 <= i < |s| ==> IsDigit(s[i]) }

  // ---------------------------------------------------------------- strip

  function TrimLeft(s: string): (r: string)
    ensures |r| <= |s| && r == s[|s| - |r|..]
    ensures r == [] || !IsSpace(r[0])
    ensures forall i :: 0 <= i < |s| - |r| ==> IsSpace(s[i])
  {
    if |s| > 0 && IsSpace(s[0]) then TrimLeft(s[1..]) else s
  }

  /** The index of the first non-whitespace character of `s` at or after
      `i`, or `|s|` when there is none. */
  function SkipSpaces(s: string, i: nat): (k: nat)
    requires i <= |s|
    ensures i <= k <= |s|
    ensures forall j :: i <= j < k ==> IsSpace(s[j])
    ensures k == |s| || !IsSpace(s[k])
    decreases |s| - i
  {
    if i < |s| && IsSpace(s[i]) then SkipSpaces(s, i + 1) else i
  }

  /** The index just past the last non-whitespace character of `s` before
      `j`, or 0 when there is none. */
  function SkipSpacesBack(s: string, j: nat): (e: nat)
    requires j <= |s|
    ensures e <= j
    ensures forall m :: e <= m < j ==> IsSpace(s[m])
    ensures e == 0 || !IsSpace(s[e - 1])
  {
    if j > 0 && IsSpace(s[j - 1]) then SkipSpacesBack(s, j - 1) else j
  }

  /** `str.strip()` with no argument: the slice of `s` left after removing
      leading and trailing whitespace. */
  function Strip(s: string): (r: string)
    ensures |r| <= |s| - StripOffset(s)
    ensures r == s[StripOffset(s)..StripOffset(s) + |r|]
    ensures forall i :: 0 <= i < StripOffset(s) ==> IsSpace(s[i])
    ensures forall i :: StripOffset(s) + |r| <= i < |s| ==> IsSpace(s[i])
    ensures r == [] || (!IsSpace(r[0]) && !IsSpace(r[|r| - 1]))
  {
    var k := SkipSpaces(s, 0);
    if k == |s| then []
    else
      var e := SkipSpacesBack(s, |s|);
      assert k < e;
      s[k..e]
  }

  /** The number of leading whitespace characters `Strip` removes. */
  function StripOffset(s: string): (k: nat)
    ensures k <= |s|
  {
    SkipSpaces(s, 0)
  }

  /** A string that is blank after stripping consists of whitespace only. */
  lemma StripEmptyIffBlank(s: string)
    ensures Strip(s) == [] <==> forall i :: 0 <= i < |s| ==> IsSpace(s[i])
  {
    if Strip(s) == [] {
      forall i | 0 <= i < |s| ensures IsSpace(s[i]) {
        if StripOffset(s) <= i {
          assert StripOffset(s) + |Strip(s)| <= i;
        }
      }
    }
  }

  /** A text that neither starts nor ends with whitespace is its own
      stripped text. */
  lemma StripOfEnds(s: string)
    requires s != [] && !IsSpace(s[0]) && !IsSpace(s[|s| - 1])
    ensures Strip(s) == s
  {
  }

  /** Stripping twice is stripping once. */
  lemma StripIdempotent(s: string)
    ensures Strip(Strip(s)) == Strip(s)
  {
    var r := Strip(s);
    if r != [] {
      StripOfEnds(r);
    }
  }

  // ---------------------------------------------------------------- lower

  function LowerChar(c: char): (d: char)
    ensures 'A' <= c <= 'Z' ==> 'a' <= d <= 'z'
    ensures !('A' <= c <= 'Z') ==> d == c
  {
    if 'A' <= c <= 'Z' then (c as int + 32) as char else c
  }

  /** `str.lower()` on ASCII letters; every other character is kept. */
  function Lower(s: string): (r: string)
    ensures |r| == |s|
    ensures forall i :: 0 <= i < |s| ==> r[i] == LowerChar(s[i])
  {
    if s == [] then [] else [LowerChar(s[0])] + Lower(s[1..])
  }

  lemma LowerIdempotent(s: string)
    ensures Lower(Lower(s)) == Lower(s)
  {
  }

  // ---------------------------------------------------------------- prefixes and substrings

  predicate StartsWith(s: string, p: string) { |p| <= |s| && s[..|p|] == p }

  predicate EndsWith(s: string, p: string) { |p| <= |s| && s[|s| - |p|..] == p }

  /** `p` occurs in `s` starting at index `i`. */
  predicate OccursAt(s: string, p: string, i: nat) { i + |p| <= |s| && s[i..i + |p|] == p }

  /** Python's `p in s` for strings. */
  predicate Contains(s: string, p: string)
  {
    exists i: nat :: i <= |s| && OccursAt(s, p, i)
  }

  /** The leftmost index at which `p` occurs in `s`, as `str.find`. */
  function Find(s: string, p: string): (r: Option<nat>)
    ensures r.Some? ==> OccursAt(s, p, r.value)
    ensures r.Some? ==> forall j: nat :: j < r.value ==> !OccursAt(s, p, j)
    ensures r.None? <==> !Contains(s, p)
    decreases |s|
  {
    if |p| > |s| then None
    else if s[..|p|] == p then Some(0)
    else
      var rest := Find(s[1..], p);
      OccursShift(s, p);
      if rest.None? then None else Some(rest.value + 1)
  }

  /** An occurrence past the first character of `s` is an occurrence in
      `s[1..]`, one place earlier. */
  lemma OccursShift(s: string, p: string)
    requires |s| > 0
    ensures forall i: nat :: 0 < i ==> (OccursAt(s, p, i) <==> OccursAt(s[1..], p, i - 1))
  {
    forall i: nat | 0 < i
      ensures OccursAt(s, p, i) <==> OccursAt(s[1..], p, i - 1)
    {
      if i + |p| <= |s| {
        SliceOfTail(s, i, i + |p|);
      }
    }
  }

  lemma SliceOfTail(s: string, a: nat, b: nat)
    requires 1 <= a <= b <= |s|
    ensures s[1..][a - 1..b - 1] == s[a..b]
  {
    assert |s[1..][a - 1..b - 1]| == b - a;
    forall k | 0 <= k < b - a
      ensures s[1..][a - 1..b - 1][k] == s[a..b][k]
    {
    }
  }

  // ---------------------------------------------------------------- split and join

  /** `s.split(c)` for a single-character separator: the pieces between
      successive occurrences of `c`, always at least one. */
  function Split(s: string, c: char): (r: seq<string>)
    ensures |r| >= 1
    ensures forall k :: 0 <= k < |r| ==> c !in r[k]
    ensures c !in s ==> r == [s]
    ensures c in s ==> |r| >= 2
  {
    if s == [] then [[]]
    else
      var rest := Split(s[1..], c);
      if s[0] == c then [[]] + rest
      else
        assert [s[0]] + s[1..] == s;
        [[s[0]] + rest[0]] + rest[1..]
  }

  /** `sep.join(parts)`. */
  function Join(parts: seq<string>, sep: string): (r: string)
    ensures parts == [] ==> r == []
    ensures |parts| == 1 ==> r == parts[0]
  {
    if parts == [] then []
    else if |parts| == 1 then parts[0]
    else parts[0] + sep + Join(parts[1..], sep)
  }

  /** Joining two lists is joining each and putting the separator between
      them when both are non-empty. */
  lemma {:induction false} JoinAppend(a: seq<string>, b: seq<string>, sep: string)
    ensures Join(a + b, sep) ==
      if a == [] then Join(b, sep)
      else if b == [] then Join(a, sep)
      else Join(a, sep) + sep + Join(b, sep)
  {
    if a == [] {
      assert a + b == b;
    } else if b == [] {
      assert a + b == a;
    } else if |a| == 1 {
      assert (a + b)[1..] == b;
    } else {
      JoinAppend(a[1..], b, sep);
      assert (a + b)[1..] == a[1..] + b;
    }
  }

  /** Splitting at `c` and joining with `c` gives back the original text. */
  lemma {:induction false} JoinSplit(s: string, c: char)
    ensures Join(Split(s, c), [c]) == s
  {
    if s != [] {
      JoinSplit(s[1..], c);
      var rest := Split(s[1..], c);
      if s[0] != c && |rest| > 1 {
        assert Join(rest, [c]) == rest[0] + [c] + Join(rest[1..], [c]);
        assert Join(Split(s, c), [c]) == [s[0]] + rest[0] + [c] + Join(rest[1..], [c]);
      }
    }
  }

  /** Joining pieces that do not contain `c` with `c` and splitting again
      gives back the pieces, when there is at least one. */
  lemma {:induction false} SplitJoin(parts: seq<string>, c: char)
    requires |parts| >= 1
    requires forall k :: 0 <= k < |parts| ==> c !in parts[k]
    ensures Split(Join(parts, [c]), c) == parts
  {
    if |parts| > 1 {
      SplitJoin(parts[1..], c);
      SplitPrefix(parts[0], Join(parts[1..], [c]), c);
      assert Join(parts, [c]) == parts[0] + ([c] + Join(parts[1..], [c]));
    }
  }

  lemma {:induction false} SplitPrefix(a: string, b: string, c: char)
    requires c !in a
    ensures Split(a + [c] + b, c) == [a] + Split(b, c)
  {
    if a == [] {
      assert [c] + b == ([] + [c] + b);
      assert ([c] + b)[1..] == b;
    } else {
      assert (a + [c] + b)[1..] == a[1..] + [c] + b;
      SplitPrefix(a[1..], b, c);
      assert [a[0]] + a[1..] == a;
    }
  }

  /** The text after a suffix's start contains the suffix. */
  lemma ContainsSuffix(a: string, b: string)
    ensures Contains(a + b, b)
  {
    assert OccursAt(a + b, b, |a|);
  }

  /** Text found in `s` is still found once more text follows `s`. */
  lemma ContainsAppend(s: string, b: string, p: string)
    requires Contains(s, p)
    ensures Contains(s + b, p)
  {
    var i: nat :| i <= |s| && OccursAt(s, p, i);
    assert (s + b)[i..i + |p|] == s[i..i + |p|];
    assert OccursAt(s + b, p, i);
  }

  /** Text found in `s` is still found once more text precedes `s`. */
  lemma ContainsPrepend(a: string, s: string, p: string)
    requires Contains(s, p)
    ensures Contains(a + s, p)
  {
    var i: nat :| i <= |s| && OccursAt(s, p, i);
    assert (a + s)[|a| + i..|a| + i + |p|] == s[i..i + |p|];
    assert OccursAt(a + s, p, |a| + i);
  }

  lemma ContainsSelf(s: string)
    ensures Contains(s, s)
  {
    assert OccursAt(s, s, 0);
  }

  lemma ContainsPrefix(s: string, p: string)
    requires StartsWith(s, p)
    ensures Contains(s, p)
  {
    assert OccursAt(s, p, 0);
  }

  // ---------------------------------------------------------------- comma-separated lists

  /** `[p.strip() for p in parts if p.strip()]`. */
  function StrippedNonBlank(parts: seq<string>): (r: seq<string>)
    ensures |r| <= |parts|
    ensures forall k :: 0 <= k < |r| ==> r[k] != [] && Strip(r[k]) == r[k]
  {
    if parts == [] then []
    else
      var rest := StrippedNonBlank(parts[1..]);
      var p := Strip(parts[0]);
      if p == [] then rest else StripIdempotent(parts[0]); [p] + rest
  }

  /** Stripping keeps out a character no part has. */
  lemma {:induction false} StrippedNonBlankAvoids(parts: seq<string>, c: char)
    requires forall j :: 0 <= j < |parts| ==> c !in parts[j]
    ensures forall k :: 0 <= k < |StrippedNonBlank(parts)| ==> c !in StrippedNonBlank(parts)[k]
  {
    if parts != [] {
      StrippedNonBlankAvoids(parts[1..], c);
      StripSubset(parts[0], c);
    }
  }

  /** The characters of a stripped text are characters of the text. */
  lemma StripSubset(s: string, c: char)
    requires c !in s
    ensures c !in Strip(s)
  {
    var k := StripOffset(s);
    assert forall i :: 0 <= i < |Strip(s)| ==> Strip(s)[i] == s[k + i];
  }

  /** `[p.strip() for p in s.split(c) if p.strip()]`: the non-blank pieces of
      a `c`-separated list, stripped. */
  function SplitList(s: string, c: char): (r: seq<string>)
    ensures forall k :: 0 <= k < |r| ==> r[k] != [] && Strip(r[k]) == r[k] && c !in r[k]
  {
    StrippedNonBlankAvoids(Split(s, c), c);
    StrippedNonBlank(Split(s, c))
  }

  /** Parts that are already stripped and non-blank are kept as they are. */
  lemma {:induction false} StrippedNonBlankItems(xs: seq<string>)
    requires forall k :: 0 <= k < |xs| ==> xs[k] != [] && Strip(xs[k]) == xs[k]
    ensures StrippedNonBlank(xs) == xs
  {
    if xs != [] {
      StrippedNonBlankItems(xs[1..]);
      StrippedNonBlankCons(xs[0], xs[1..]);
      HeadTail(xs);
    }
  }

  /** A list of list items joined with a bare comma reads back as itself. */
  lemma SplitListJoinComma(xs: seq<string>)
    requires forall k :: 0 <= k < |xs| ==> ListItem(xs[k])
    ensures SplitList(Join(xs, ","), ',') == xs
  {
    if xs == [] {
      assert Split([], ',') == [[]];
    } else {
      SplitJoin(xs, ',');
      StrippedNonBlankItems(xs);
    }
  }

  /** A blank setting gives the empty list. */
  lemma {:induction false} SplitListBlank(s: string, c: char)
    requires !IsSpace(c)
    requires forall i :: 0 <= i < |s| ==> IsSpace(s[i])
    ensures SplitList(s, c) == []
  {
    assert c !in s;
    assert Split(s, c) == [s];
    StripEmptyIffBlank(s);
  }

  /** A leading space does not change the stripped text. */
  lemma StripLeadingSpace(s: string)
    ensures Strip([' '] + s) == Strip(s)
  {
    ScansShift(s);
    if SkipSpaces(s, 0) < |s| {
      ShiftedStrip(s, SkipSpaces(s, 0), SkipSpacesBack(s, |s|));
    } else {
      StripBlank(s);
      StripBlank([' '] + s);
    }
  }

  /** A text that is not blank strips to the same slice with a space in
      front, once both scans are known to shift by one. */
  lemma ShiftedStrip(s: string, k: nat, e: nat)
    requires k == SkipSpaces(s, 0) && k < |s| && e == SkipSpacesBack(s, |s|)
    requires SkipSpaces([' '] + s, 0) == k + 1 && SkipSpacesBack([' '] + s, |s| + 1) == e + 1
    ensures Strip([' '] + s) == Strip(s)
  {
    StripSlice(s, k, e);
    StripSlice([' '] + s, k + 1, e + 1);
    SliceOfCons(' ', s, k, e);
  }

  /** A space in front shifts both scans of a text by one. */
  lemma ScansShift(s: string)
    ensures SkipSpaces([' '] + s, 0) == 1 + SkipSpaces(s, 0)
    ensures SkipSpaces(s, 0) < |s| ==>
      SkipSpaces(s, 0) < SkipSpacesBack(s, |s|) && SkipSpacesBack([' '] + s, |s| + 1) == 1 + SkipSpacesBack(s, |s|)
  {
    var s' := [' '] + s;
    SkipPrepend(' ', s, 0);
    assert SkipSpaces(s', 0) == SkipSpaces(s', 1);
    if SkipSpaces(s, 0) < |s| {
      BackPrepend(' ', s, |s|);
    }
  }

  /** The stripped text of a text that is not blank, by its two scans. */
  lemma StripSlice(s: string, k: nat, e: nat)
    requires k == SkipSpaces(s, 0) && k < |s| && e == SkipSpacesBack(s, |s|)
    ensures k < e <= |s| && Strip(s) == s[k..e]
  {
  }

  /** A blank text strips to nothing. */
  lemma StripBlank(s: string)
    requires SkipSpaces(s, 0) == |s|
    ensures Strip(s) == []
  {
  }

  /** A character in front shifts every forward scan by one. */
  lemma {:induction false} SkipPrepend(c: char, s: string, i: nat)
    requires i <= |s|
    ensures SkipSpaces([c] + s, i + 1) == 1 + SkipSpaces(s, i)
    decreases |s| - i
  {
    if i < |s| {
      assert ([c] + s)[i + 1] == s[i];
      if IsSpace(s[i]) {
        SkipPrepend(c, s, i + 1);
      }
    }
  }

  /** A character in front shifts a backward scan by one, as long as the
      scan stops before reaching it. */
  lemma {:induction false} BackPrepend(c: char, s: string, j: nat)
    requires j <= |s| && SkipSpacesBack(s, j) > 0
    ensures SkipSpacesBack([c] + s, j + 1) == 1 + SkipSpacesBack(s, j)
  {
    assert ([c] + s)[j] == s[j - 1];
    if IsSpace(s[j - 1]) {
      BackPrepend(c, s, j - 1);
    }
  }

  lemma SliceOfCons(c: char, s: string, a: nat, b: nat)
    requires a <= b <= |s|
    ensures ([c] + s)[a + 1..b + 1] == s[a..b]
  {
  }

  /** One unfolding of `StrippedNonBlank`. */
  lemma StrippedNonBlankHead(parts: seq<string>)
    requires parts != []
    ensures StrippedNonBlank(parts) ==
            if Strip(parts[0]) == [] then StrippedNonBlank(parts[1..])
            else [Strip(parts[0])] + StrippedNonBlank(parts[1..])
  {
  }

  /** A space before a list does not change its stripped pieces. */
  lemma SplitListLeadingSpace(s: string, c: char)
    requires c != ' '
    ensures StrippedNonBlank(Split([' '] + s, c)) == StrippedNonBlank(Split(s, c))
  {
    var parts := Split(s, c);
    var spaced := Split([' '] + s, c);
    assert ([' '] + s)[1..] == s;
    assert spaced[0] == [' '] + parts[0] && spaced[1..] == parts[1..];
    StripLeadingSpace(parts[0]);
    StrippedNonBlankHead(parts);
    StrippedNonBlankHead(spaced);
  }

  /** An item a comma list can hold and give back unchanged. */
  predicate ListItem(x: string)
  {
    x != [] && Strip(x) == x && ',' !in x
  }

  /** Every piece of a comma list is a list item. */
  lemma SplitListItems(s: string)
    ensures forall k :: 0 <= k < |SplitList(s, ',')| ==> ListItem(SplitList(s, ',')[k])
  {
  }

  /** Splitting a `", "`-joined list at its first comma. */
  lemma JoinCommaSplit(xs: seq<string>)
    requires |xs| > 1 && ',' !in xs[0]
    ensures Split(Join(xs, ", "), ',') == [xs[0]] + Split([' '] + Join(xs[1..], ", "), ',')
  {
    var tail := Join(xs[1..], ", ");
    assert Join(xs, ", ") == xs[0] + [','] + ([' '] + tail);
    SplitPrefix(xs[0], [' '] + tail, ',');
  }

  /** One item in front of a list that reads back unchanged also reads
      back unchanged. */
  lemma SplitListJoinCons(x: string, ys: seq<string>)
    requires ys != [] && ',' !in x && x != [] && Strip(x) == x
    requires StrippedNonBlank(Split(Join(ys, ", "), ',')) == ys
    ensures StrippedNonBlank(Split(Join([x] + ys, ", "), ',')) == [x] + ys
  {
    var xs := [x] + ys;
    assert xs[0] == x && xs[1..] == ys;
    JoinCommaSplit(xs);
    SplitListLeadingSpace(Join(ys, ", "), ',');
    StrippedNonBlankCons(x, Split([' '] + Join(ys, ", "), ','));
  }

  lemma HeadTail<T>(s: seq<T>)
    requires s != []
    ensures [s[0]] + s[1..] == s
  {
  }

  /** A stripped non-blank piece is kept as it is. */
  lemma StrippedNonBlankCons(p: string, rest: seq<string>)
    requires p != [] && Strip(p) == p
    ensures StrippedNonBlank([p] + rest) == [p] + StrippedNonBlank(rest)
  {
    StrippedNonBlankHead([p] + rest);
    assert ([p] + rest)[1..] == rest;
  }

  /** Storing a list joined by `", "` and reading it back as a comma list
      gives back the list, when its items are non-empty, stripped and free of
      commas. */
  lemma {:induction false} SplitListJoin(xs: seq<string>)
    requires forall k :: 0 <= k < |xs| ==> ListItem(xs[k])
    ensures SplitList(Join(xs, ", "), ',') == xs
  {
    if xs == [] {
      assert Split([], ',') == [[]];
      StrippedNonBlankHead([[]]);
    } else if |xs| == 1 {
      assert ListItem(xs[0]);
      assert Split(xs[0], ',') == [xs[0]];
      StrippedNonBlankHead([xs[0]]);
    } else {
      assert forall k :: 0 <= k < |xs[1..]| ==> ListItem(xs[1..][k]);
      SplitListJoin(xs[1..]);
      SplitListJoinCons(xs[0], xs[1..]);
      HeadTail(xs);
    }
  }

  /** `s.rstrip(ch)` for a single character. */
  function RStrip(s: string, ch: char): (r: string)
    ensures StartsWith(s, r)
    ensures r == [] || r[|r| - 1] != ch
    ensures forall i :: |r| <= i < |s| ==> s[i] == ch
  {
    if s != [] && s[|s| - 1] == ch then RStrip(s[..|s| - 1], ch) else s
  }

  /** Python's `s.split(c, 1)`: the text before the first `c`, and the text
      after it when there is one. */
  function SplitOnce(s: string, c: char): (r: (string, Option<string>))
    ensures c !in r.0
    ensures r.1.None? <==> c !in s
    ensures r.1.Some? ==> s == r.0 + [c] + r.1.value
    ensures r.1.None? ==> r.0 == s
  {
    if s == [] then ([], None)
    else if s[0] == c then ([], Some(s[1..]))
    else
      var rest := SplitOnce(s[1..], c);
      ([s[0]] + rest.0, rest.1)
  }

  /** `SplitOnce` agrees with the first pieces of a full split. */
  lemma {:induction false} SplitOnceFirst(s: string, c: char)
    ensures SplitOnce(s, c).0 == Split(s, c)[0]
    ensures c in s ==> |Split(s, c)| >= 2
  {
    if s != [] { SplitOnceFirst(s[1..], c); }
  }

  // ---------------------------------------------------------------- words

  predicate NoSpace(w: string) { forall i :: 0 <= i < |w| ==> !IsSpace(w[i]) }

  /** The length of the run of non-whitespace characters `s` starts with. */
  function WordLen(s: string): (n: nat)
    ensures n <= |s|
    ensures NoSpace(s[..n])
    ensures n == |s| || IsSpace(s[n])
  {
    if s == [] || IsSpace(s[0]) then 0 else 1 + WordLen(s[1..])
  }

  /** `s.split()` with no argument: the runs of non-whitespace characters,
      in order; whitespace of any length separates them and none is kept. */
  function Words(s: string): (r: seq<string>)
    ensures forall k :: 0 <= k < |r| ==> r[k] != [] && NoSpace(r[k])
    decreases |s|
  {
    var t := TrimLeft(s);
    if t == [] then []
    else
      var n := WordLen(t);
      [t[..n]] + Words(t[n..])
  }

  lemma WordLenOfWord(w: string, rest: string)
    requires NoSpace(w)
    requires rest == [] || IsSpace(rest[0])
    ensures WordLen(w + rest) == |w|
  {
    if w != [] {
      assert (w + rest)[1..] == w[1..] + rest;
      WordLenOfWord(w[1..], rest);
    } else {
      assert w + rest == rest;
    }
  }

  /** A word followed by whitespace or nothing is the first word. */
  lemma WordsOfWordThen(w: string, rest: string)
    requires w != [] && NoSpace(w)
    requires rest == [] || IsSpace(rest[0])
    ensures Words(w + rest) == [w] + Words(rest)
  {
    assert TrimLeft(w + rest) == w + rest by {
      assert (w + rest)[0] == w[0];
    }
    WordLenOfWord(w, rest);
    assert (w + rest)[..|w|] == w;
    assert (w + rest)[|w|..] == rest;
  }

  /** Leading whitespace does not change the words. */
  lemma WordsAfterSpace(c: char, s: string)
    requires IsSpace(c)
    ensures Words([c] + s) == Words(s)
  {
    assert ([c] + s)[1..] == s;
    assert TrimLeft([c] + s) == TrimLeft(s);
  }

  /** Joining non-empty words with single spaces and splitting the result
      on whitespace gives the words back. */
  lemma {:induction false} WordsJoin(ws: seq<string>)
    requires forall k :: 0 <= k < |ws| ==> ws[k] != [] && NoSpace(ws[k])
    ensures Words(Join(ws, " ")) == ws
  {
    if ws == [] {
      assert TrimLeft([]) == [];
    } else if |ws| == 1 {
      WordsOfWord(ws[0]);
    } else {
      assert ws == [ws[0]] + ws[1..];
      WordsJoinCons(ws[0], ws[1..]);
      WordsJoin(ws[1..]);
    }
  }

  /** An independent reading of `s.split()`: the text with its
      whitespace normalised, dropped at both ends and every inner run
      replaced by one space. `started` says a word has been seen,
      `pending` that whitespace followed it. */
  function Squeeze(s: string, started: bool, pending: bool): (r: string)
    decreases |s|
  {
    if s == [] then []
    else if IsSpace(s[0]) then Squeeze(s[1..], started, started)
    else (if pending then " " else "") + [s[0]] + Squeeze(s[1..], true, false)
  }

  function Collapse(s: string): string
  {
    Squeeze(s, false, false)
  }

  /** The words are the text's runs of non-whitespace, in order: joined
      with single spaces they give the normalised text. */
  lemma {:induction false} WordsAreRuns(s: string)
    ensures Join(Words(s), " ") == Collapse(s)
  {
    WordsSqueeze(s, false);
  }

  lemma {:induction false} WordsSqueeze(s: string, started: bool)
    ensures Squeeze(s, started, started) ==
            (if started && Words(s) != [] then " " else "") + Join(Words(s), " ")
    decreases |s|
  {
    SqueezeTrim(s, started);
    var t := TrimLeft(s);
    if t != [] {
      var n := WordLen(t);
      var w, rest := t[..n], t[n..];
      assert t == w + rest;
      assert Words(s) == [w] + Words(rest);
      var ws := Words(rest);
      var pre := if started then " " else "";
      var tail := (if ws != [] then " " else "") + Join(ws, " ");
      assert Squeeze(s, started, started) == pre + w + Squeeze(rest, true, false) by {
        assert Squeeze(s, started, started) == Squeeze(w + rest, started, started);
        SqueezeWord(w, rest, started);
      }
      assert Squeeze(rest, true, false) == tail by {
        SqueezeAfterWord(rest);
        WordsSqueeze(rest, true);
      }
      assert w + tail == Join(Words(s), " ") by {
        JoinCons(w, ws);
      }
      assert Words(s) != [];
      Assoc(pre, w, tail);
    }
  }

  lemma Assoc(a: string, b: string, c: string)
    ensures a + b + c == a + (b + c)
  {
  }

  /** Right after a word, whitespace or the end: the pending flag is set
      by the next character anyway. */
  lemma SqueezeAfterWord(rest: string)
    requires rest == [] || IsSpace(rest[0])
    ensures Squeeze(rest, true, false) == Squeeze(rest, true, true)
  {
  }

  /** Joining a word in front of a list. */
  lemma JoinCons(w: string, ws: seq<string>)
    ensures Join([w] + ws, " ") == w + ((if ws != [] then " " else "") + Join(ws, " "))
  {
    assert ([w] + ws)[1..] == ws;
  }

  /** Leading whitespace changes nothing while the flags agree. */
  lemma {:induction false} SqueezeTrim(s: string, started: bool)
    ensures Squeeze(s, started, started) == Squeeze(TrimLeft(s), started, started)
    decreases |s|
  {
    if s != [] && IsSpace(s[0]) {
      SqueezeTrim(s[1..], started);
    }
  }

  /** A word is copied whole, after one space if one is pending. */
  lemma {:induction false} SqueezeWord(w: string, rest: string, pending: bool)
    requires w != [] && NoSpace(w)
    ensures Squeeze(w + rest, pending, pending) == (if pending then " " else "") + w + Squeeze(rest, true, false)
    decreases |w|
  {
    assert (w + rest)[0] == w[0];
    assert (w + rest)[1..] == w[1..] + rest;
    if |w| > 1 {
      SqueezeWordTail(w[1..], rest);
    } else {
      assert w[1..] + rest == rest;
    }
    assert w == [w[0]] + w[1..];
  }

  lemma {:induction false} SqueezeWordTail(w: string, rest: string)
    requires w != [] && NoSpace(w)
    ensures Squeeze(w + rest, true, false) == w + Squeeze(rest, true, false)
    decreases |w|
  {
    assert (w + rest)[0] == w[0];
    assert (w + rest)[1..] == w[1..] + rest;
    if |w| > 1 {
      SqueezeWordTail(w[1..], rest);
    } else {
      assert w[1..] + rest == rest;
    }
    assert w == [w[0]] + w[1..];
  }

  /** A single word splits into itself. */
  lemma WordsOfWord(w: string)
    requires w != [] && NoSpace(w)
    ensures Words(w) == [w]
  {
    WordsOfWordThen(w, []);
    assert w + [] == w;
    assert TrimLeft([]) == [];
  }

  /** The first word, a space, and the rest. */
  lemma WordsJoinCons(w: string, rest: seq<string>)
    requires w != [] && NoSpace(w) && rest != []
    ensures Words(Join([w] + rest, " ")) == [w] + Words(Join(rest, " "))
  {
    var j := Join(rest, " ");
    assert ([w] + rest)[1..] == rest;
    assert Join([w] + rest, " ") == w + ([' '] + j);
    WordsOfWordThen(w, [' '] + j);
    WordsAfterSpace(' ', j);
  }

  // ---------------------------------------------------------------- numbers

  function DigitChar(d: nat): (c: char)
    requires d < 10
    ensures IsDigit(c)
  {
    ('0' as int + d) as char
  }

  function DigitValue(c: char): (d: nat)
    requires IsDigit(c)
    ensures d < 10 && DigitChar(d) == c
  {
    c as int - '0' as int
  }

  /** `str(n)` for a natural number: its decimal text without leading zeros. */
  function NatToStr(n: nat): (r: string)
    ensures IsDigits(r)
    ensures r[0] == '0' ==> n == 0
    decreases n
  {
    if n < 10 then [DigitChar(n)] else NatToStr(n / 10) + [DigitChar(n % 10)]
  }

  /** `str(i)` for any integer. */
  function IntToStr(i: int): (r: string)
    ensures |r| > 0
  {
    if i < 0 then "-" + NatToStr(-i) else NatToStr(i)
  }

  /** Distinct integers have distinct texts. */
  lemma IntToStrInjective(a: int, b: int)
    requires IntToStr(a) == IntToStr(b)
    ensures a == b
  {
    if a < 0 && b < 0 {
      assert NatToStr(-a) == IntToStr(a)[1..] == IntToStr(b)[1..] == NatToStr(-b);
      NatToStrInjective(-a, -b);
    } else if a >= 0 && b >= 0 {
      NatToStrInjective(a, b);
    }
  }

  /** The value of a string of decimal digits. */
  function DigitsValue(s: string): (n: nat)
    requires forall i :: 0 <= i < |s| ==> IsDigit(s[i])
    decreases |s|
  {
    if s == [] then 0 else DigitsValue(s[..|s| - 1]) * 10 + DigitValue(s[|s| - 1])
  }

  /** Reading back the text of a natural gives the natural. */
  lemma {:induction false} NatToStrRoundTrip(n: nat)
    ensures DigitsValue(NatToStr(n)) == n
    decreases n
  {
    if n >= 10 {
      NatToStrRoundTrip(n / 10);
      var s := NatToStr(n);
      assert s[..|s| - 1] == NatToStr(n / 10);
    }
  }

  /** Distinct naturals have distinct texts. */
  lemma NatToStrInjective(m: nat, n: nat)
    requires NatToStr(m) == NatToStr(n)
    ensures m == n
  {
    NatToStrRoundTrip(m);
    NatToStrRoundTrip(n);
  }

  /** Python's `int(s)` on text: surrounding whitespace, an optional sign and
      at least one digit. Digit-group underscores are not accepted. */
  function ParseInt(s: string): (r: Option<int>)
    ensures IsDigits(s) ==> r == Some(DigitsValue(s))
  {
    var t := Strip(s);
    if IsDigits(t) then
      (if IsDigits(s) then assert t == s by { StripOfDigits(s); } Some(DigitsValue(s)) else Some(DigitsValue(t)))
    else if |t| > 1 && (t[0] == '+' || t[0] == '-') && IsDigits(t[1..]) then
      var v: int := DigitsValue(t[1..]);
      Some(if t[0] == '-' then -v else v)
    else None
  }

  lemma StripOfDigits(s: string)
    requires IsDigits(s)
    ensures Strip(s) == s
  {
    StripOfEnds(s);
  }

  /** `int(str(n)) == n`. */
  lemma ParseIntOfNatToStr(n: nat)
    ensures ParseInt(NatToStr(n)) == Some(n)
  {
    NatToStrRoundTrip(n);
  }

  /** `f"{n:02d}"` for a natural: at least two digits, zero-padded. */
  function Pad2(n: nat): (r: string)
    ensures |r| >= 2 && IsDigits(r)
    ensures n < 10 ==> r == "0" + NatToStr(n)
    ensures n >= 10 ==> r == NatToStr(n)
    ensures DigitsValue(r) == n
  {
    NatToStrRoundTrip(n);
    if n < 10 then
      var r := "0" + NatToStr(n);
      assert r[..|r| - 1] == "0" && r[..|r| - 1][..0] == [];
      r
    else NatToStr(n)
  }
}
