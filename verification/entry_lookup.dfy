/**
 * The "Smart Entry Search" handler of AdvancedEntryLookUp: the routing of the
 * typed text, the entry-type name taken from `@type{...}` input, and the
 * static `text_1`, `fields` and `values` state that extract_fields_values
 * fills. The windows, the background threads and the actions the routes
 * start are not modelled; a route is reported as a value.
 */
module EntryLookup {
  import opened Wrappers
  import opened BibtexScanner

  /** String.toLowerCase on one character, for the ASCII letters. */
  function LowerChar(c: char): (r: char)
    ensures 'A' <= c <= 'Z' ==> 'a' <= r <= 'z' && r as int - c as int == 32
    ensures !('A' <= c <= 'Z') ==> r == c
  {
    if 'A' <= c <= 'Z' then (c as int + 32) as char else c
  }

  /** String.toUpperCase on one character, for the ASCII letters. */
  function UpperChar(c: char): (r: char)
    ensures 'a' <= c <= 'z' ==> 'A' <= r <= 'Z' && c as int - r as int == 32
    ensures !('a' <= c <= 'z') ==> r == c
  {
    if 'a' <= c <= 'z' then (c as int - 32) as char else c
  }

  /** String.toLowerCase. */
  function ToLower(s: string): (r: string)
    ensures |r| == |s|
    ensures forall k :: 0 <= k < |s| ==> r[k] == LowerChar(s[k])
  {
    seq(|s|, k requires 0 <= k < |s| => LowerChar(s[k]))
  }

  /** String.contains: `t` occurs in `s`, checked position by position. */
  function Contains(s: string, t: string): bool
    decreases |s|
  {
    |t| <= |s| && (s[..|t|] == t || (|s| > 0 && Contains(s[1..], t)))
  }

  /** `t` occurs in `s` at position `i`. */
  predicate OccursAt(s: string, t: string, i: nat) {
    i + |t| <= |s| && s[i..i + |t|] == t
  }

  /** `t` occurs somewhere in `s`. */
  ghost predicate Occurs(s: string, t: string) {
    exists i: nat :: OccursAt(s, t, i)
  }

  /** Contains answers exactly whether `t` occurs in `s`. */
  lemma {:induction false} ContainsOccurs(s: string, t: string)
    ensures Contains(s, t) <==> Occurs(s, t)
    decreases |s|
  {
    if |t| <= |s| && s[..|t|] == t {
      assert OccursAt(s, t, 0);
    } else if |t| <= |s| && |s| > 0 {
      ContainsOccurs(s[1..], t);
      if Occurs(s[1..], t) {
        var i: nat :| OccursAt(s[1..], t, i);
        assert s[i + 1..i + 1 + |t|] == s[1..][i..i + |t|];
        assert OccursAt(s, t, i + 1);
      }
      if Occurs(s, t) {
        var i: nat :| OccursAt(s, t, i);
        assert i != 0;
        assert s[1..][i - 1..i - 1 + |t|] == s[i..i + |t|];
        assert OccursAt(s[1..], t, i - 1);
      }
    }
  }

  /** `text.toLowerCase().contains(word)`. */
  predicate HasWord(text: string, word: string) {
    Contains(ToLower(text), word)
  }

  /** The conditions the handler tests, each in the form it is written. */
  predicate LooksLikeId(text: string) {
    HasWord(text, "doi") || HasWord(text, "http") || HasWord(text, "www.")
  }

  predicate LooksLikeFile(text: string) {
    HasWord(text, "pdf") || HasWord(text, "txt")
  }

  /** Where the typed text is sent. */
  datatype Route =
    | IdLookup        // the "new entry from identifier" dialog
    | AttachFile      // "attach file from URL"
    | PlainText       // the plain-text BibTeX extractor
    | Bibtex          // parsed here as `@type{name = {value}, ...}`
    | IndexFailure    // `toCharArray()[0]` on the empty text throws

  /** The handler's chain of tests, in the order the source makes them. */
  function Classify(text: string): (r: Route)
    ensures r == IdLookup <==> '@' !in text && LooksLikeId(text) && !LooksLikeFile(text)
    ensures r == AttachFile <==> LooksLikeFile(text)
    ensures r == IndexFailure <==> text == ""
    ensures r == PlainText <==>
      text != "" && text[0] != '@' && !LooksLikeFile(text) && !('@' !in text && LooksLikeId(text))
    ensures r == Bibtex <==> text != "" && text[0] == '@' && !LooksLikeFile(text)
  {
    if '@' !in text && LooksLikeId(text) && !LooksLikeFile(text) then IdLookup
    else if LooksLikeFile(text) then AttachFile
    else if text == [] then IndexFailure
    else if text[0] != '@' then PlainText
    else Bibtex
  }

  lemma LowerCharIdempotent(c: char)
    ensures LowerChar(LowerChar(c)) == LowerChar(c)
  {
  }

  /** Lower-casing the text first does not change where it is sent. */
  lemma ClassifyIgnoresCase(text: string)
    ensures Classify(ToLower(text)) == Classify(text)
  {
    var low := ToLower(text);
    assert ToLower(low) == ToLower(text) by {
      forall k | 0 <= k < |text| ensures ToLower(low)[k] == ToLower(text)[k] {
        LowerCharIdempotent(text[k]);
      }
    }
    assert '@' in low <==> '@' in text by {
      if '@' in text {
        var k :| 0 <= k < |text| && text[k] == '@';
        assert low[k] == '@';
      }
      if '@' in low {
        var k :| 0 <= k < |low| && low[k] == '@';
        assert text[k] == '@';
      }
    }
  }

  /** The first index of `c` in `s` (String.indexOf), or None for -1. */
  function IndexOf(s: string, c: char): (r: Option<nat>)
    ensures r.None? <==> c !in s
    ensures r.Some? ==> r.value < |s| && s[r.value] == c && c !in s[..r.value]
  {
    if |s| == 0 then None
    else if s[0] == c then Some(0)
    else
      match IndexOf(s[1..], c)
      case None => None
      case Some(i) =>
        assert s[1..][..i] == s[1..i + 1];
        Some(i + 1)
  }

  /** String.replace of the one-character string `c` by "": every `c` is dropped. */
  function RemoveAll(s: string, c: char): (r: string)
    ensures c !in r
    ensures |r| == |s| - multiset(s)[c]
    ensures forall x :: x in r <==> x in s && x != c
  {
    if |s| == 0 then []
    else
      assert s == [s[0]] + s[1..];
      (if s[0] == c then [] else [s[0]]) + RemoveAll(s[1..], c)
  }

  /** The first character upper-cased, the rest lower-cased. */
  function Capitalise(n: string): (r: string)
    requires |n| > 0
    ensures |r| == |n|
    ensures r[0] == UpperChar(n[0])
    ensures forall k :: 1 <= k < |n| ==> r[k] == LowerChar(n[k])
  {
    [UpperChar(n[0])] + ToLower(n[1..])
  }

  /** Why the entry-type name cannot be derived. */
  datatype NameError =
    | NoOpeningBrace   // indexOf("{") is -1 and substring(0, -1) throws
    | EmptyTypeName    // nothing is left once '@' is dropped; substring(0, 1) throws

  /**
   * The entry-type name of the BibTeX branch: the text before the first '{',
   * every '@' dropped, then capitalised.
   */
  function EntryTypeName(text: string): (r: Result<string, NameError>)
    ensures r == Err(NoOpeningBrace) <==> '{' !in text
    ensures r.Ok? ==> |r.value| > 0 && '@' !in r.value && '{' !in r.value
  {
    match IndexOf(text, '{')
    case None => Err(NoOpeningBrace)
    case Some(brace) =>
      var name := RemoveAll(text[..brace], '@');
      if |name| == 0 then Err(EmptyTypeName)
      else
        var r := Capitalise(name);
        assert '@' !in r && '{' !in r by {
          forall k | 0 <= k < |r| ensures r[k] != '@' && r[k] != '{' {
            if k == 0 {
              assert r[0] == UpperChar(name[0]);
            } else {
              assert r[k] == LowerChar(name[k]);
            }
          }
        }
        Ok(r)
  }

  /** The name is empty exactly when only '@'s come before the first '{'. */
  lemma EntryTypeNameEmpty(text: string, brace: nat)
    requires brace < |text| && text[brace] == '{' && '{' !in text[..brace]
    ensures EntryTypeName(text) == Err(EmptyTypeName) <==> forall k :: 0 <= k < brace ==> text[k] == '@'
  {
    assert IndexOf(text, '{') == Some(brace);
    var pre := text[..brace];
    if forall k :: 0 <= k < brace ==> text[k] == '@' {
      var name := RemoveAll(pre, '@');
      if |name| > 0 {
        assert name[0] in name;
      }
    } else {
      var k :| 0 <= k < brace && text[k] != '@';
      assert pre[k] in RemoveAll(pre, '@');
    }
  }

  /** Capitalising a capitalised name changes nothing. */
  lemma CapitaliseIdempotent(n: string)
    requires |n| > 0
    ensures Capitalise(Capitalise(n)) == Capitalise(n)
  {
    var c := Capitalise(n);
    forall k | 1 <= k < |n| ensures LowerChar(c[k]) == c[k] {
      LowerCharIdempotent(n[k]);
    }
    assert ToLower(c[1..]) == c[1..];
  }

  /**
   * A derived name round-trips: typing `@` + name + `{` + anything gives back
   * the same name.
   */
  lemma EntryTypeNameRoundTrip(text: string, rest: string)
    requires EntryTypeName(text).Ok?
    ensures EntryTypeName("@" + EntryTypeName(text).value + "{" + rest) == EntryTypeName(text)
  {
    var n := EntryTypeName(text).value;
    var t := "@" + n + "{" + rest;
    var brace := |n| + 1;
    assert t[brace] == '{' && t[..brace] == "@" + n;
    assert IndexOf(t, '{') == Some(brace);
    assert RemoveAll("@" + n, '@') == n by {
      assert ("@" + n)[1..] == n;
      RemoveAllAbsent(n, '@');
    }
    var brace0 := IndexOf(text, '{').value;
    CapitaliseIdempotent(RemoveAll(text[..brace0], '@'));
  }

  /** Dropping `c` from a single character keeps it exactly when it is not `c`. */
  lemma RemoveAllOne(x: char, c: char)
    ensures RemoveAll([x], c) == if x == c then [] else [x]
  {
    assert [x][1..] == [];
  }

  /**
   * Dropping `c` works piece by piece, so together with RemoveAllOne it keeps
   * the other characters in their order.
   */
  lemma {:induction false} RemoveAllAppend(a: string, b: string, c: char)
    ensures RemoveAll(a + b, c) == RemoveAll(a, c) + RemoveAll(b, c)
    decreases |a|
  {
    if |a| == 0 {
      assert a + b == b;
    } else {
      assert (a + b)[0] == a[0];
      assert (a + b)[1..] == a[1..] + b;
      RemoveAllAppend(a[1..], b, c);
    }
  }

  /** indexOf finds `c` at `i` when `c` is there and nowhere before. */
  lemma IndexOfAt(s: string, c: char, i: nat)
    requires i < |s| && s[i] == c && c !in s[..i]
    ensures IndexOf(s, c) == Some(i)
  {
  }

  /**
   * The name derived from `pre` + "{" + `rest`, where `pre` holds no '{': the
   * text before the brace with every '@' dropped, capitalised; nothing after
   * the first brace matters.
   */
  lemma EntryTypeNameOf(pre: string, rest: string)
    requires '{' !in pre
    ensures var name := RemoveAll(pre, '@');
      EntryTypeName(pre + "{" + rest) == if name == [] then Err(EmptyTypeName) else Ok(Capitalise(name))
  {
    var text := pre + "{" + rest;
    assert text[..|pre|] == pre;
    IndexOfAt(text, '{', |pre|);
  }

  /** "@" + t + "{" + rest names the entry type after `t`, capitalised. */
  lemma EntryTypeNameOfType(t: string, rest: string)
    requires |t| > 0 && '@' !in t && '{' !in t
    ensures EntryTypeName("@" + t + "{" + rest) == Ok(Capitalise(t))
  {
    assert "@" + t + "{" + rest == ("@" + t) + "{" + rest;
    assert '{' !in "@" + t;
    RemoveAllAppend("@", t, '@');
    RemoveAllOne('@', '@');
    RemoveAllAbsent(t, '@');
    assert RemoveAll("@", '@') + RemoveAll(t, '@') == t;
    EntryTypeNameOf("@" + t, rest);
  }

  /** "@ARTICLE{key," gives the name "Article". */
  lemma EntryTypeNameArticle()
    ensures EntryTypeName("@ARTICLE{key,") == Ok("Article")
  {
    assert "@ARTICLE{key," == "@" + "ARTICLE" + "{" + "key,";
    EntryTypeNameOfType("ARTICLE", "key,");
    CapitaliseArticle();
  }

  lemma CapitaliseArticle()
    ensures Capitalise("ARTICLE") == "Article"
  {
    var r := Capitalise("ARTICLE");
    assert r[0] == 'A' && r[1] == 'r' && r[2] == 't' && r[3] == 'i';
    assert r[4] == 'c' && r[5] == 'l' && r[6] == 'e';
  }

  lemma {:induction false} RemoveAllAbsent(s: string, c: char)
    requires c !in s
    ensures RemoveAll(s, c) == s
  {
    if |s| > 0 {
      RemoveAllAbsent(s[1..], c);
      assert s == [s[0]] + s[1..];
    }
  }

  lemma {:induction false} IndexOfLower(s: string)
    ensures IndexOf(ToLower(s), '{') == IndexOf(s, '{')
  {
    if |s| > 0 {
      assert ToLower(s)[1..] == ToLower(s[1..]);
      IndexOfLower(s[1..]);
    }
  }

  lemma {:induction false} RemoveAllLower(s: string)
    ensures RemoveAll(ToLower(s), '@') == ToLower(RemoveAll(s, '@'))
  {
    if |s| > 0 {
      assert ToLower(s)[1..] == ToLower(s[1..]);
      RemoveAllLower(s[1..]);
      var rest := RemoveAll(s[1..], '@');
      if s[0] != '@' {
        assert ToLower([s[0]] + rest) == [LowerChar(s[0])] + ToLower(rest);
      }
    }
  }

  /** Capitalising ignores the case the name was typed in. */
  lemma CapitaliseLower(name: string)
    requires |name| > 0
    ensures Capitalise(ToLower(name)) == Capitalise(name)
  {
    var low := ToLower(name);
    assert UpperChar(low[0]) == UpperChar(name[0]);
    assert ToLower(low[1..]) == ToLower(name[1..]) by {
      forall k | 0 <= k < |name| - 1 ensures ToLower(low[1..])[k] == ToLower(name[1..])[k] {
        LowerCharIdempotent(name[k + 1]);
      }
    }
  }

  /** The entry-type name does not depend on the case of the typed text. */
  lemma EntryTypeNameIgnoresCase(text: string)
    ensures EntryTypeName(ToLower(text)) == EntryTypeName(text)
  {
    IndexOfLower(text);
    if '{' in text {
      var brace := IndexOf(text, '{').value;
      assert ToLower(text)[..brace] == ToLower(text[..brace]);
      RemoveAllLower(text[..brace]);
      var name := RemoveAll(text[..brace], '@');
      if |name| > 0 {
        CapitaliseLower(name);
      }
    }
  }

  /** What the button handler ends with (the route, and the type name it derived). */
  datatype Outcome =
    | SentToIdLookup
    | SentToAttachFile
    | SentToPlainText
    | NewEntry(typeName: string)
    | Failed(reason: Option<NameError>)   // None: the empty text's index failure

  /**
   * The static state of AdvancedEntryLookUp: the last text typed and the two
   * parallel lists of scanned field names and values.
   */
  class EntryLookUp {
    var text: string
    var fields: seq<string>
    var values: seq<string>

    /** The static initialisers. */
    constructor ()
      ensures text == "" && fields == [] && values == []
    {
      text := "";
      fields := [];
      values := [];
    }

    /**
     * extract_fields_values: one name and one value appended per match of
     * the pattern, left to right; the lists keep their old contents in front.
     */
    method ExtractFieldsValues(input: string)
      modifies this
      ensures fields == old(fields) + ScannedNames(input)
      ensures values == old(values) + ScannedValues(input)
      ensures |old(fields)| == |old(values)| ==> |fields| == |values|
      ensures text == old(text)
    {
      var pos := 0;
      var found := FindFrom(input, 0);
      ghost var goalFields := old(fields) + ScannedNames(input);
      ghost var goalValues := old(values) + ScannedValues(input);
      while found.Some?
        invariant pos <= |input|
        invariant found == FindFrom(input, pos)
        invariant fields + NamesFrom(input, pos) == goalFields
        invariant values + ValuesFrom(input, pos) == goalValues
        invariant text == old(text)
        decreases |input| - pos
      {
        var h := found.value;
        var name, value := Name(input, h), Value(input, h);
        ghost var restNames, restValues := NamesFrom(input, h.end), ValuesFrom(input, h.end);
        assert NamesFrom(input, pos) == [name] + restNames;
        assert ValuesFrom(input, pos) == [value] + restValues;
        assert (fields + [name]) + restNames == fields + ([name] + restNames);
        assert (values + [value]) + restValues == values + ([value] + restValues);
        fields := fields + [name];
        values := values + [value];
        pos := h.end;
        found := FindFrom(input, pos);
      }
    }

    /** clear_fields. */
    method ClearFields()
      modifies this
      ensures fields == [] && values == old(values) && text == old(text)
    {
      fields := [];
    }

    /** clear_values. */
    method ClearValues()
      modifies this
      ensures values == [] && fields == old(fields) && text == old(text)
    {
      values := [];
    }

    /** getFieldsList: a copy of the current names. */
    method GetFieldsList() returns (r: seq<string>)
      ensures r == fields
    {
      r := fields;
    }

    /** getValuesList: a copy of the current values. */
    method GetValuesList() returns (r: seq<string>)
      ensures r == values
    {
      r := values;
    }

    /** entry_from_plain_text: the stored text. */
    method EntryFromPlainText() returns (r: string)
      ensures r == text
    {
      r := text;
    }

    /** set_text_null: the stored text becomes empty. */
    method SetTextNull()
      modifies this
      ensures text == "" && fields == old(fields) && values == old(values)
    {
      text := "";
    }

    /**
     * The "Smart Entry Search" button: store the typed text, route it, and in
     * the BibTeX branch clear both lists, derive the type name and scan the
     * fields. A failed derivation leaves the lists cleared and unscanned.
     */
    method SmartEntrySearch(typed: string) returns (out: Outcome)
      modifies this
      ensures text == typed
      ensures Classify(typed) == IdLookup ==> out == SentToIdLookup
      ensures Classify(typed) == AttachFile ==> out == SentToAttachFile
      ensures Classify(typed) == PlainText ==> out == SentToPlainText
      ensures Classify(typed) == IndexFailure ==> out == Failed(None)
      ensures Classify(typed) != Bibtex ==> fields == old(fields) && values == old(values)
      ensures Classify(typed) == Bibtex ==>
        match EntryTypeName(typed)
        case Ok(name) =>
          out == NewEntry(name) && fields == ScannedNames(typed) && values == ScannedValues(typed)
        case Err(e) =>
          out == Failed(Some(e)) && fields == [] && values == []
    {
      text := typed;
      match Classify(text)
      case IdLookup => out := SentToIdLookup;
      case AttachFile => out := SentToAttachFile;
      case IndexFailure => out := Failed(None);
      case PlainText => out := SentToPlainText;
      case Bibtex =>
        ClearFields();
        ClearValues();
        match EntryTypeName(text)
        case Err(e) =>
          out := Failed(Some(e));
        case Ok(name) =>
          ExtractFieldsValues(text);
          out := NewEntry(name);
    }
  }
}
