/**
 * The scanner behind AdvancedEntryLookUp.extract_fields_values: the pattern
 * `\s*([a-zA-Z]+)\s*=\s*\{(.*?)\},?\s*` applied with repeated Matcher.find(),
 * written out as a left-to-right scanner. Java's semantics are kept: find()
 * takes the earliest start, the letter run and the whitespace runs are greedy,
 * the value is lazy up to the first '}', and `.` does not match a line
 * terminator.
 */
module BibtexScanner {
  import opened Wrappers

  /** `\s`: space, tab, line feed, vertical tab, form feed, carriage return. */
  predicate IsSpace(c: char) {
    c == ' ' || c == '\t' || c == '\n' || c == '\U{0B}' || c == '\U{0C}' || c == '\r'
  }

  /** `[a-zA-Z]`. */
  predicate IsLetter(c: char) {
    ('a' <= c <= 'z') || ('A' <= c <= 'Z')
  }

  /** The characters `.` does not match without DOTALL. */
  predicate IsLineTerminator(c: char) {
    c == '\n' || c == '\r' || c == '\U{85}' || c == '\U{2028}' || c == '\U{2029}'
  }

  /**
   * The positions of one match: the match starts at `start`, the name is
   * s[nameStart..nameEnd], '=' is at `eq`, '{' at `open`, the value is
   * s[open + 1..close], '}' is at `close` and the match ends at `end`.
   */
  datatype Hit = Hit(start: nat, nameStart: nat, nameEnd: nat, eq: nat, open: nat, close: nat, end: nat)

  /** Where `,?\s*` stops after the closing brace at `close`. */
  function AfterComma(s: string, close: nat): nat {
    if close + 1 < |s| && s[close + 1] == ',' then close + 2 else close + 1
  }

  /** The positions of `h` are in order and inside `s`. */
  ghost predicate Ordered(s: string, h: Hit) {
    h.start <= h.nameStart < h.nameEnd <= h.eq < h.open < h.close < h.end <= |s|
  }

  /** `\s*([a-zA-Z]+)`: whitespace from h.start, then the letters of the name. */
  ghost predicate NamePart(s: string, h: Hit)
    requires Ordered(s, h)
  {
    && (forall k :: h.start <= k < h.nameStart ==> IsSpace(s[k]))
    && (forall k :: h.nameStart <= k < h.nameEnd ==> IsLetter(s[k]))
  }

  /** `\s*=\s*\{`: whitespace, '=', whitespace, '{'. */
  ghost predicate AssignPart(s: string, h: Hit)
    requires Ordered(s, h)
  {
    && (forall k :: h.nameEnd <= k < h.eq ==> IsSpace(s[k]))
    && s[h.eq] == '='
    && (forall k :: h.eq < k < h.open ==> IsSpace(s[k]))
    && s[h.open] == '{'
  }

  /** `(.*?)\}`: the value holds no '}' and no line terminator, and '}' follows it. */
  ghost predicate ValuePart(s: string, h: Hit)
    requires Ordered(s, h)
  {
    && (forall k :: h.open < k < h.close ==> s[k] != '}' && !IsLineTerminator(s[k]))
    && s[h.close] == '}'
  }

  /** `,?\s*`: an optional comma, then all the whitespace that follows. */
  ghost predicate TailPart(s: string, h: Hit)
    requires Ordered(s, h)
  {
    && AfterComma(s, h.close) <= h.end
    && (forall k :: AfterComma(s, h.close) <= k < h.end ==> IsSpace(s[k]))
    && (h.end == |s| || !IsSpace(s[h.end]))
  }

  /** `h` is the match the pattern makes when it is tried at h.start. */
  ghost predicate IsHit(s: string, h: Hit) {
    Ordered(s, h) && NamePart(s, h) && AssignPart(s, h) && ValuePart(s, h) && TailPart(s, h)
  }

  /** The name group of a match. */
  function Name(s: string, h: Hit): string
    requires h.nameStart <= h.nameEnd <= |s|
  {
    s[h.nameStart..h.nameEnd]
  }

  /** The value group of a match. */
  function Value(s: string, h: Hit): string
    requires h.open < h.close <= |s|
  {
    s[h.open + 1..h.close]
  }

  /** The end of the run of whitespace that starts at `i`. */
  function SpacesEnd(s: string, i: nat): (j: nat)
    requires i <= |s|
    ensures i <= j <= |s|
    ensures j == |s| || !IsSpace(s[j])
    decreases |s| - i
  {
    if i < |s| && IsSpace(s[i]) then SpacesEnd(s, i + 1) else i
  }

  /** Everything SpacesEnd skips is whitespace. */
  lemma {:induction false} SpacesEndRun(s: string, i: nat)
    requires i <= |s|
    ensures forall k :: i <= k < SpacesEnd(s, i) ==> IsSpace(s[k])
    decreases |s| - i
  {
    if i < |s| && IsSpace(s[i]) {
      SpacesEndRun(s, i + 1);
    }
  }

  /** The end of the run of letters that starts at `i`. */
  function LettersEnd(s: string, i: nat): (j: nat)
    requires i <= |s|
    ensures i <= j <= |s|
    ensures j == |s| || !IsLetter(s[j])
    decreases |s| - i
  {
    if i < |s| && IsLetter(s[i]) then LettersEnd(s, i + 1) else i
  }

  /** Everything LettersEnd skips is a letter. */
  lemma {:induction false} LettersEndRun(s: string, i: nat)
    requires i <= |s|
    ensures forall k :: i <= k < LettersEnd(s, i) ==> IsLetter(s[k])
    decreases |s| - i
  {
    if i < |s| && IsLetter(s[i]) {
      LettersEndRun(s, i + 1);
    }
  }

  /** `(.*?)\}` from `i`: the first '}', provided no line terminator comes before it. */
  function CloseBrace(s: string, i: nat): (r: Option<nat>)
    requires i <= |s|
    ensures r.Some? ==> i <= r.value < |s| && s[r.value] == '}'
    decreases |s| - i
  {
    if i == |s| then None
    else if s[i] == '}' then Some(i)
    else if IsLineTerminator(s[i]) then None
    else CloseBrace(s, i + 1)
  }

  /** What CloseBrace skips is neither '}' nor a line terminator. */
  lemma {:induction false} CloseBraceRun(s: string, i: nat)
    requires i <= |s|
    ensures CloseBrace(s, i).Some? ==>
      forall k :: i <= k < CloseBrace(s, i).value ==> s[k] != '}' && !IsLineTerminator(s[k])
    decreases |s| - i
  {
    if i < |s| && s[i] != '}' && !IsLineTerminator(s[i]) {
      CloseBraceRun(s, i + 1);
    }
  }

  /** The pattern tried at position `i`: the match it makes there, if any. */
  function MatchAt(s: string, i: nat): (r: Option<Hit>)
    requires i <= |s|
    ensures r.Some? ==> r.value.start == i && Ordered(s, r.value)
  {
    var nameStart := SpacesEnd(s, i);
    var nameEnd := LettersEnd(s, nameStart);
    var eq := SpacesEnd(s, nameEnd);
    if nameEnd == nameStart || eq == |s| || s[eq] != '=' then None
    else
      var open := SpacesEnd(s, eq + 1);
      if open == |s| || s[open] != '{' then None
      else
        match CloseBrace(s, open + 1)
        case None => None
        case Some(close) => Some(Hit(i, nameStart, nameEnd, eq, open, close, SpacesEnd(s, AfterComma(s, close))))
  }

  lemma {:induction false} SpacesEndAt(s: string, i: nat, j: nat)
    requires i <= j <= |s|
    requires forall k :: i <= k < j ==> IsSpace(s[k])
    requires j == |s| || !IsSpace(s[j])
    ensures SpacesEnd(s, i) == j
    decreases j - i
  {
    if i < j {
      SpacesEndAt(s, i + 1, j);
    }
  }

  lemma {:induction false} LettersEndAt(s: string, i: nat, j: nat)
    requires i <= j <= |s|
    requires forall k :: i <= k < j ==> IsLetter(s[k])
    requires j == |s| || !IsLetter(s[j])
    ensures LettersEnd(s, i) == j
    decreases j - i
  {
    if i < j {
      LettersEndAt(s, i + 1, j);
    }
  }

  lemma {:induction false} CloseBraceAt(s: string, i: nat, j: nat)
    requires i <= j < |s| && s[j] == '}'
    requires forall k :: i <= k < j ==> s[k] != '}' && !IsLineTerminator(s[k])
    ensures CloseBrace(s, i) == Some(j)
    decreases j - i
  {
    if i < j {
      CloseBraceAt(s, i + 1, j);
    }
  }

  /** The positions MatchAt reports are those the runs and the brace search compute. */
  lemma MatchAtPositions(s: string, i: nat)
    requires i <= |s| && MatchAt(s, i).Some?
    ensures var h := MatchAt(s, i).value;
      && h.nameStart == SpacesEnd(s, i) && h.nameEnd == LettersEnd(s, h.nameStart)
      && h.eq == SpacesEnd(s, h.nameEnd) && s[h.eq] == '=' && h.open == SpacesEnd(s, h.eq + 1) && s[h.open] == '{'
      && CloseBrace(s, h.open + 1) == Some(h.close) && h.end == SpacesEnd(s, AfterComma(s, h.close))
  {
  }

  /** What the scanner reports at `i` is a match of the pattern. */
  lemma MatchAtSound(s: string, i: nat)
    requires i <= |s|
    ensures MatchAt(s, i).Some? ==> IsHit(s, MatchAt(s, i).value)
  {
    if MatchAt(s, i).Some? {
      var h := MatchAt(s, i).value;
      MatchAtPositions(s, i);
      assert NamePart(s, h) by {
        SpacesEndRun(s, i);
        LettersEndRun(s, h.nameStart);
      }
      assert AssignPart(s, h) by {
        SpacesEndRun(s, h.nameEnd);
        SpacesEndRun(s, h.eq + 1);
      }
      assert ValuePart(s, h) by {
        CloseBraceRun(s, h.open + 1);
      }
      assert TailPart(s, h) by {
        SpacesEndRun(s, AfterComma(s, h.close));
      }
    }
  }

  lemma NamePartEnds(s: string, h: Hit)
    requires Ordered(s, h) && NamePart(s, h) && AssignPart(s, h)
    ensures SpacesEnd(s, h.start) == h.nameStart && LettersEnd(s, h.nameStart) == h.nameEnd
  {
    SpacesEndAt(s, h.start, h.nameStart);
    LettersEndAt(s, h.nameStart, h.nameEnd);
  }

  lemma AssignPartEnds(s: string, h: Hit)
    requires Ordered(s, h) && AssignPart(s, h)
    ensures SpacesEnd(s, h.nameEnd) == h.eq && SpacesEnd(s, h.eq + 1) == h.open
  {
    SpacesEndAt(s, h.nameEnd, h.eq);
    SpacesEndAt(s, h.eq + 1, h.open);
  }

  lemma ValuePartEnds(s: string, h: Hit)
    requires Ordered(s, h) && ValuePart(s, h)
    ensures CloseBrace(s, h.open + 1) == Some(h.close)
  {
    CloseBraceAt(s, h.open + 1, h.close);
  }

  lemma TailPartEnds(s: string, h: Hit)
    requires Ordered(s, h) && TailPart(s, h)
    ensures SpacesEnd(s, AfterComma(s, h.close)) == h.end
  {
    SpacesEndAt(s, AfterComma(s, h.close), h.end);
  }

  /** The positions of a match are those the runs and the brace search compute. */
  lemma HitParts(s: string, h: Hit)
    requires IsHit(s, h)
    ensures SpacesEnd(s, h.start) == h.nameStart && LettersEnd(s, h.nameStart) == h.nameEnd
    ensures SpacesEnd(s, h.nameEnd) == h.eq && s[h.eq] == '='
    ensures SpacesEnd(s, h.eq + 1) == h.open && s[h.open] == '{'
    ensures CloseBrace(s, h.open + 1) == Some(h.close)
    ensures SpacesEnd(s, AfterComma(s, h.close)) == h.end
  {
    NamePartEnds(s, h);
    AssignPartEnds(s, h);
    ValuePartEnds(s, h);
    TailPartEnds(s, h);
  }

  /** The scanner finds every match of the pattern: a match at h.start is exactly `h`. */
  lemma MatchAtComplete(s: string, h: Hit)
    requires IsHit(s, h)
    ensures MatchAt(s, h.start) == Some(h)
  {
    HitParts(s, h);
  }

  /** Matcher.find() from `from`: a match of the pattern that starts at or after `from`. */
  function FindFrom(s: string, from: nat): (r: Option<Hit>)
    requires from <= |s|
    ensures r.Some? ==> from <= r.value.start && Ordered(s, r.value)
    decreases |s| - from, 1
  {
    TryAt(s, from)
  }

  /** One attempt of find(): the match at `i`, or else the search moves one position on. */
  function TryAt(s: string, i: nat): (r: Option<Hit>)
    requires i <= |s|
    ensures r.Some? ==> i <= r.value.start && Ordered(s, r.value)
    decreases |s| - i, 0
  {
    var m := MatchAt(s, i);
    if m.Some? || i == |s| then m else FindFrom(s, i + 1)
  }

  /** What find() reports is a match of the pattern. */
  lemma {:induction false} FindFromSound(s: string, from: nat)
    requires from <= |s|
    ensures FindFrom(s, from).Some? ==> IsHit(s, FindFrom(s, from).value)
    decreases |s| - from
  {
    assert FindFrom(s, from) == TryAt(s, from);
    MatchAtSound(s, from);
    if MatchAt(s, from).None? && from < |s| {
      FindFromSound(s, from + 1);
    }
  }

  /**
   * find() reports the leftmost match: none starts earlier than the one it
   * reports, and it reports nothing only when no match starts at or after `from`.
   */
  lemma {:induction false} FindFromLeftmost(s: string, from: nat, h: Hit)
    requires from <= |s| && IsHit(s, h) && from <= h.start
    ensures FindFrom(s, from).Some? && FindFrom(s, from).value.start <= h.start
    decreases |s| - from
  {
    assert FindFrom(s, from) == TryAt(s, from);
    if MatchAt(s, from).None? {
      if from == h.start {
        MatchAtComplete(s, h);
      } else {
        FindFromLeftmost(s, from + 1, h);
      }
    }
  }

  /** The matches of the `while (matcher.find())` loop started at `from`, left to right. */
  function AllHits(s: string, from: nat): (r: seq<Hit>)
    requires from <= |s|
    ensures forall k :: 0 <= k < |r| ==> from <= r[k].start && Ordered(s, r[k])
    ensures forall i, j :: 0 <= i < j < |r| ==> r[i].end <= r[j].start
    decreases |s| - from
  {
    var found := FindFrom(s, from);
    if found.None? then []
    else
      var h := found.value;
      var rest := AllHits(s, h.end);
      var r := [h] + rest;
      assert r[0] == h;
      assert forall k :: 1 <= k < |r| ==> r[k] == rest[k - 1];
      r
  }

  /** One turn of the find() loop: a match found at or after `from` heads the rest. */
  lemma AllHitsStep(s: string, from: nat)
    requires from <= |s| && FindFrom(s, from).Some?
    ensures AllHits(s, from) == [FindFrom(s, from).value] + AllHits(s, FindFrom(s, from).value.end)
  {
  }

  /** The loop ends when find() fails. */
  lemma AllHitsEnd(s: string, from: nat)
    requires from <= |s| && FindFrom(s, from).None?
    ensures AllHits(s, from) == []
  {
  }

  /** Every reported match is a match of the pattern. */
  lemma {:induction false} AllHitsAreHits(s: string, from: nat)
    requires from <= |s|
    ensures forall k :: 0 <= k < |AllHits(s, from)| ==> IsHit(s, AllHits(s, from)[k])
    decreases |s| - from
  {
    var found := FindFrom(s, from);
    FindFromSound(s, from);
    if found.Some? {
      AllHitsAreHits(s, found.value.end);
      var r := AllHits(s, from);
      assert r == [found.value] + AllHits(s, found.value.end);
      forall k | 0 <= k < |r| ensures IsHit(s, r[k]) {
        if k > 0 {
          assert r[k] == AllHits(s, found.value.end)[k - 1];
        }
      }
    }
  }

  /**
   * The loop skips no match: every match of the pattern that starts at or
   * after `from` starts inside one of the reported matches (it is either
   * reported itself or overlapped by an earlier one).
   */
  lemma {:induction false} AllHitsCover(s: string, from: nat, h: Hit)
    requires from <= |s| && IsHit(s, h) && from <= h.start
    ensures exists k :: 0 <= k < |AllHits(s, from)| && AllHits(s, from)[k].start <= h.start < AllHits(s, from)[k].end
    decreases |s| - from
  {
    FindFromLeftmost(s, from, h);
    var first := FindFrom(s, from).value;
    var r := AllHits(s, from);
    assert r == [first] + AllHits(s, first.end);
    if h.start < first.end {
      assert r[0].start <= h.start < r[0].end;
    } else {
      AllHitsCover(s, first.end, h);
      var k :| 0 <= k < |AllHits(s, first.end)| && AllHits(s, first.end)[k].start <= h.start < AllHits(s, first.end)[k].end;
      assert r[k + 1] == AllHits(s, first.end)[k];
    }
  }

  /** The name group and the value group of a match are well formed. */
  lemma HitGroups(s: string, h: Hit)
    requires IsHit(s, h)
    ensures |Name(s, h)| > 0
    ensures forall j :: 0 <= j < |Name(s, h)| ==> IsLetter(Name(s, h)[j])
    ensures forall j :: 0 <= j < |Value(s, h)| ==> Value(s, h)[j] != '}' && !IsLineTerminator(Value(s, h)[j])
  {
    assert NamePart(s, h) && ValuePart(s, h);
    forall j | 0 <= j < |Name(s, h)| ensures IsLetter(Name(s, h)[j]) {
      assert Name(s, h)[j] == s[h.nameStart + j];
    }
    forall j | 0 <= j < |Value(s, h)|
      ensures Value(s, h)[j] != '}' && !IsLineTerminator(Value(s, h)[j])
    {
      assert Value(s, h)[j] == s[h.open + 1 + j];
    }
  }

  /** The name groups the find() loop started at `from` reports, in order. */
  function NamesFrom(s: string, from: nat): (r: seq<string>)
    requires from <= |s|
    decreases |s| - from
  {
    match FindFrom(s, from)
    case None => []
    case Some(h) => [Name(s, h)] + NamesFrom(s, h.end)
  }

  /** The value groups the find() loop started at `from` reports, in order. */
  function ValuesFrom(s: string, from: nat): (r: seq<string>)
    requires from <= |s|
    decreases |s| - from
  {
    match FindFrom(s, from)
    case None => []
    case Some(h) => [Value(s, h)] + ValuesFrom(s, h.end)
  }

  /** The k-th scanned name is the name group of the k-th reported match. */
  lemma {:induction false} NamesOfHits(s: string, from: nat)
    requires from <= |s|
    ensures |NamesFrom(s, from)| == |AllHits(s, from)|
    ensures forall k :: 0 <= k < |AllHits(s, from)| ==> NamesFrom(s, from)[k] == Name(s, AllHits(s, from)[k])
    decreases |s| - from
  {
    var found := FindFrom(s, from);
    if found.Some? {
      var h := found.value;
      NamesOfHits(s, h.end);
      AllHitsStep(s, from);
      var hits, rest := AllHits(s, from), AllHits(s, h.end);
      var names, restNames := NamesFrom(s, from), NamesFrom(s, h.end);
      assert names == [Name(s, h)] + restNames;
      forall k | 0 <= k < |hits| ensures names[k] == Name(s, hits[k]) {
        if k > 0 {
          assert hits[k] == rest[k - 1];
          assert names[k] == restNames[k - 1];
        }
      }
    } else {
      AllHitsEnd(s, from);
    }
  }

  /** The k-th scanned value is the value group of the k-th reported match. */
  lemma {:induction false} ValuesOfHits(s: string, from: nat)
    requires from <= |s|
    ensures |ValuesFrom(s, from)| == |AllHits(s, from)|
    ensures forall k :: 0 <= k < |AllHits(s, from)| ==> ValuesFrom(s, from)[k] == Value(s, AllHits(s, from)[k])
    decreases |s| - from
  {
    var found := FindFrom(s, from);
    if found.Some? {
      var h := found.value;
      ValuesOfHits(s, h.end);
      AllHitsStep(s, from);
      var hits, rest := AllHits(s, from), AllHits(s, h.end);
      var values, restValues := ValuesFrom(s, from), ValuesFrom(s, h.end);
      assert values == [Value(s, h)] + restValues;
      forall k | 0 <= k < |hits| ensures values[k] == Value(s, hits[k]) {
        if k > 0 {
          assert hits[k] == rest[k - 1];
          assert values[k] == restValues[k - 1];
        }
      }
    } else {
      AllHitsEnd(s, from);
    }
  }

  /** The names extract_fields_values appends for `input`. */
  function ScannedNames(input: string): (r: seq<string>)
    ensures |r| == |AllHits(input, 0)|
  {
    NamesOfHits(input, 0);
    NamesFrom(input, 0)
  }

  /** The values extract_fields_values appends for `input`. */
  function ScannedValues(input: string): (r: seq<string>)
    ensures |r| == |ScannedNames(input)|
  {
    NamesOfHits(input, 0);
    ValuesOfHits(input, 0);
    ValuesFrom(input, 0)
  }

  /**
   * Every scanned name is a non-empty run of ASCII letters, and every scanned
   * value holds neither '}' nor a line terminator.
   */
  lemma ScannedGroupsWellFormed(input: string, k: nat)
    requires k < |ScannedNames(input)|
    ensures |ScannedNames(input)[k]| > 0
    ensures forall j :: 0 <= j < |ScannedNames(input)[k]| ==> IsLetter(ScannedNames(input)[k][j])
    ensures forall j :: 0 <= j < |ScannedValues(input)[k]| ==>
      ScannedValues(input)[k][j] != '}' && !IsLineTerminator(ScannedValues(input)[k][j])
  {
    var hits := AllHits(input, 0);
    NamesOfHits(input, 0);
    ValuesOfHits(input, 0);
    AllHitsAreHits(input, 0);
    HitGroups(input, hits[k]);
  }
}
