// The identifier caser of the introspection filter: `to_camel_case` turns a
// C type name such as "graphene_point3d_t" into "GraphenePoint3D".

module Identfilter {

  predicate IsUpper(c: char) { 'A' <= c <= 'Z' }
  predicate IsLower(c: char) { 'a' <= c <= 'z' }
  predicate IsLetter(c: char) { IsUpper(c) || IsLower(c) }
  predicate IsDigit(c: char) { '0' <= c <= '9' }

  function Upper(c: char): (r: char)
    ensures IsLetter(c) ==> IsUpper(r)
    ensures !IsLetter(c) ==> r == c
    ensures IsLetter(c) ==> Lower(r) == Lower(c)
  {
    if IsLower(c) then (c as int - 32) as char else c
  }

  function Lower(c: char): (r: char)
    ensures IsLetter(c) ==> IsLower(r)
    ensures !IsLetter(c) ==> r == c
  {
    if IsUpper(c) then (c as int + 32) as char else c
  }

  /** str.title() on ASCII, as CPython computes it: one pass that remembers
    * whether the previous character was cased; a letter after a cased
    * character is lower-cased, any other letter is upper-cased, and every
    * other character is kept. */
  function TitleFrom(s: string, prevCased: bool): (r: string)
    ensures |r| == |s|
  {
    if s == [] then []
    else
      var c := s[0];
      var t := if !IsLetter(c) then c else if prevCased then Lower(c) else Upper(c);
      [t] + TitleFrom(s[1..], IsLetter(c))
  }

  function Title(s: string): (r: string)
    ensures |r| == |s|
  {
    TitleFrom(s, false)
  }

  /** The title rule stated per position: a letter is upper-cased exactly
    * when the character before it is not a letter. */
  function TitleChar(s: string, i: nat): char
    requires i < |s|
  {
    if !IsLetter(s[i]) then s[i]
    else if i > 0 && IsLetter(s[i - 1]) then Lower(s[i])
    else Upper(s[i])
  }

  lemma {:induction false} TitleFromAt(s: string, p: bool, i: nat)
    requires i < |s|
    ensures TitleFrom(s, p)[i] ==
      if !IsLetter(s[i]) then s[i]
      else if (i == 0 && p) || (i > 0 && IsLetter(s[i - 1])) then Lower(s[i])
      else Upper(s[i])
  {
    if i > 0 {
      TitleFromAt(s[1..], IsLetter(s[0]), i - 1);
      assert s[1..][i - 1] == s[i];
      if i > 1 {
        assert s[1..][i - 2] == s[i - 1];
      }
    }
  }

  lemma TitleAt(s: string, i: nat)
    requires i < |s|
    ensures Title(s)[i] == TitleChar(s, i)
  {
    TitleFromAt(s, false, i);
  }

  /** After title() a digit is never followed by a lower-case letter. */
  lemma TitleNoDigitThenLower(s: string, i: nat)
    requires i + 1 < |s|
    ensures !(IsDigit(Title(s)[i]) && IsLower(Title(s)[i + 1]))
  {
    TitleAt(s, i);
    TitleAt(s, i + 1);
  }

  /** Characters that are not letters pass through title() unchanged, so
    * title() never introduces an underscore. */
  lemma TitleKeepsUnderscores(s: string)
    ensures '_' in Title(s) <==> '_' in s
  {
    forall i | 0 <= i < |s|
      ensures (Title(s)[i] == '_') <==> (s[i] == '_')
    {
      TitleAt(s, i);
    }
  }

  lemma TitleEmpty()
    ensures Title("") == ""
  {
  }

  // ----- str.split('_') and its inverse -----

  /** Python's `s.split('_')`: the maximal '_'-free runs, with an empty
    * segment for each leading, trailing or doubled separator. */
  function Split(s: string): (r: seq<string>)
    ensures |r| >= 1
  {
    if s == [] then [""]
    else
      var rest := Split(s[1..]);
      if s[0] == '_' then [""] + rest
      else [[s[0]] + rest[0]] + rest[1..]
  }

  /** `'_'.join(parts)` */
  function Join(parts: seq<string>): string
    requires |parts| >= 1
  {
    if |parts| == 1 then parts[0] else parts[0] + "_" + Join(parts[1..])
  }

  function Count(s: string, c: char): nat
  {
    if s == [] then 0 else (if s[0] == c then 1 else 0) + Count(s[1..], c)
  }

  lemma SplitJoin(s: string)
    ensures Join(Split(s)) == s
    ensures |Split(s)| == Count(s, '_') + 1
    ensures forall k :: 0 <= k < |Split(s)| ==> '_' !in Split(s)[k]
  {
    JoinSplit(s);
    SplitCount(s);
    SplitTokens(s);
  }

  /** The round trip of SplitJoin. */
  lemma {:induction false} JoinSplit(s: string)
    ensures Join(Split(s)) == s
  {
    if s != [] {
      JoinSplit(s[1..]);
      var rest := Split(s[1..]);
      if s[0] == '_' {
        assert Split(s) == [""] + rest;
        assert Split(s)[1..] == rest;
        assert Join(Split(s)) == "" + "_" + Join(rest);
      } else {
        assert Split(s) == [[s[0]] + rest[0]] + rest[1..];
        JoinPrepend([s[0]], rest);
      }
      assert [s[0]] + s[1..] == s;
    }
  }

  /** Prefixing the first part prefixes the joined string. */
  lemma {:induction false} JoinPrepend(c: string, parts: seq<string>)
    requires |parts| >= 1
    ensures Join([c + parts[0]] + parts[1..]) == c + Join(parts)
  {
    var q := [c + parts[0]] + parts[1..];
    if |parts| == 1 {
      assert q == [c + parts[0]];
    } else {
      assert q[1..] == parts[1..];
      assert Join(q) == (c + parts[0]) + "_" + Join(parts[1..]);
    }
  }

  /** The token count of SplitJoin. */
  lemma {:induction false} SplitCount(s: string)
    ensures |Split(s)| == Count(s, '_') + 1
  {
    if s != [] {
      SplitCount(s[1..]);
    }
  }

  /** The separator-free tokens of SplitJoin. */
  lemma {:induction false} SplitTokens(s: string)
    ensures forall k :: 0 <= k < |Split(s)| ==> '_' !in Split(s)[k]
  {
    if s != [] {
      SplitTokens(s[1..]);
      var rest := Split(s[1..]);
      if s[0] == '_' {
        assert Split(s) == [""] + rest;
      } else {
        assert Split(s) == [[s[0]] + rest[0]] + rest[1..];
        assert '_' !in [s[0]] + rest[0];
      }
    }
  }

  lemma {:induction false} SplitTrailingSeparator(p: string)
    ensures Split(p + "_") == Split(p) + [""]
  {
    if p == [] {
      assert Split("_") == [""] + Split("");
    } else {
      assert (p + "_")[1..] == p[1..] + "_";
      SplitTrailingSeparator(p[1..]);
    }
  }

  // ----- to_camel_case -----

  predicate StartsWith(s: string, prefix: string)
  {
    |prefix| <= |s| && s[..|prefix|] == prefix
  }

  predicate EndsWith(s: string, suffix: string)
  {
    |suffix| <= |s| && s[|s| - |suffix|..] == suffix
  }

  /** The guard of to_camel_case: a name is converted when it starts with
    * "graphene_" OR ends with "_t"; any other text is returned as is. */
  predicate Eligible(text: string)
  {
    StartsWith(text, "graphene_") || EndsWith(text, "_t")
  }

  /** Python's `text[:-2]`. */
  function DropLastTwo(s: string): (r: string)
    ensures |s| >= 2 ==> r == s[..|s| - 2]
    ensures |s| < 2 ==> r == ""
  {
    if |s| >= 2 then s[..|s| - 2] else ""
  }

  /** NUMBER_REGEX.match: `([0-9])([a-z])` anchored at the start. */
  predicate NumberMatch(s: string)
  {
    |s| >= 2 && IsDigit(s[0]) && IsLower(s[1])
  }

  /** The outcome of a Python call: a string, or the TypeError that the
    * special case would raise by joining the unbound `title` method. */
  datatype Outcome = Ok(value: string) | TypeError

  /** The loop over the tokens: each token is title-cased, the special case
    * is tried, and the results are concatenated in order. */
  function CamelTokens(tokens: seq<string>): Outcome
  {
    if tokens == [] then Ok("")
    else
      var uc := Title(tokens[0]);
      if NumberMatch(uc) then TypeError
      else match CamelTokens(tokens[1..])
        case TypeError => TypeError
        case Ok(rest) => Ok(uc + rest)
  }

  function ToCamelCase(text: string): Outcome
  {
    if !Eligible(text) then Ok(text)
    else CamelTokens(Split(DropLastTwo(text)))
  }

  /** The concatenation of the title-cased tokens. */
  function TitleConcat(tokens: seq<string>): string
  {
    if tokens == [] then "" else Title(tokens[0]) + TitleConcat(tokens[1..])
  }

  /** The special case never fires, so the loop is a plain map-and-concat. */
  lemma {:induction false} CamelTokensNeverFails(tokens: seq<string>)
    ensures CamelTokens(tokens) == Ok(TitleConcat(tokens))
  {
    if tokens != [] {
      var uc := Title(tokens[0]);
      if |uc| >= 2 {
        TitleNoDigitThenLower(tokens[0], 0);
      }
      CamelTokensNeverFails(tokens[1..]);
    }
  }

  /** Every eligible text is at least two characters long. */
  lemma EligibleLength(text: string)
    requires Eligible(text)
    ensures |text| >= 2
  {
  }

  /** to_camel_case is total: ineligible text comes back unchanged, and
    * eligible text gives the title-cased segments of `text[:-2]` joined. */
  lemma ToCamelCaseResult(text: string)
    ensures !Eligible(text) ==> ToCamelCase(text) == Ok(text)
    ensures Eligible(text) ==>
      ToCamelCase(text) == Ok(TitleConcat(Split(text[..|text| - 2])))
  {
    if Eligible(text) {
      CamelTokensNeverFails(Split(DropLastTwo(text)));
    }
  }

  lemma {:induction false} TitleConcatNoUnderscore(tokens: seq<string>)
    requires forall k :: 0 <= k < |tokens| ==> '_' !in tokens[k]
    ensures '_' !in TitleConcat(tokens)
  {
    if tokens != [] {
      TitleKeepsUnderscores(tokens[0]);
      TitleConcatNoUnderscore(tokens[1..]);
    }
  }

  lemma {:induction false} TitleConcatSplitLength(s: string)
    ensures |TitleConcat(Split(s))| == |s| - Count(s, '_')
  {
    if s != [] {
      TitleConcatSplitLength(s[1..]);
      var rest := Split(s[1..]);
      if s[0] != '_' {
        assert Split(s) == [[s[0]] + rest[0]] + rest[1..];
        assert Split(s)[1..] == rest[1..];
        assert TitleConcat(rest) == Title(rest[0]) + TitleConcat(rest[1..]);
      } else {
        assert Split(s)[1..] == rest;
      }
    }
  }

  /** An eligible name loses its last two characters and its separators:
    * the result has no '_' and is len(text) - 2 - (underscores in text[:-2])
    * characters long. */
  lemma CamelCaseShape(text: string)
    requires Eligible(text)
    ensures ToCamelCase(text).Ok?
    ensures '_' !in ToCamelCase(text).value
    ensures |ToCamelCase(text).value| == |text| - 2 - Count(text[..|text| - 2], '_')
  {
    var s := text[..|text| - 2];
    ToCamelCaseResult(text);
    SplitJoin(s);
    TitleConcatNoUnderscore(Split(s));
    TitleConcatSplitLength(s);
  }

  lemma {:induction false} TitleConcatAppendEmpty(tokens: seq<string>)
    ensures TitleConcat(tokens + [""]) == TitleConcat(tokens)
  {
    if tokens == [] {
      assert TitleConcat([""]) == Title("") + TitleConcat([]);
    } else {
      assert (tokens + [""])[1..] == tokens[1..] + [""];
      TitleConcatAppendEmpty(tokens[1..]);
    }
  }

  /** A name read from standard input keeps its newline: "graphene_box_t\n"
    * drops "t\n" instead of "_t", which leaves a trailing '_' and hence an
    * empty last segment that contributes nothing. */
  lemma TrailingNewlineIgnored(text: string)
    requires StartsWith(text, "graphene_") && EndsWith(text, "_t")
    ensures ToCamelCase(text + "\n") == ToCamelCase(text)
  {
    var withNl := text + "\n";
    assert withNl[..9] == text[..9];
    assert Eligible(withNl);
    var p := text[..|text| - 2];
    assert withNl[..|withNl| - 2] == p + "_";
    ToCamelCaseResult(text);
    ToCamelCaseResult(withNl);
    SplitTrailingSeparator(p);
    TitleConcatAppendEmpty(Split(p));
  }

  lemma {:induction false} SplitNoSeparator(s: string)
    requires '_' !in s
    ensures Split(s) == [s]
  {
    if s != [] {
      SplitNoSeparator(s[1..]);
      assert [s[0]] + s[1..] == s;
    }
  }

  lemma {:induction false} SplitAtSeparator(a: string, b: string)
    requires '_' !in a
    ensures Split(a + "_" + b) == [a] + Split(b)
  {
    if a == [] {
      assert ("" + "_" + b)[1..] == b;
    } else {
      assert (a + "_" + b)[1..] == a[1..] + "_" + b;
      SplitAtSeparator(a[1..], b);
      assert [a[0]] + a[1..] == a;
    }
  }

  lemma TitleIs(s: string, t: string)
    requires |s| == |t|
    requires forall i :: 0 <= i < |s| ==> TitleChar(s, i) == t[i]
    ensures Title(s) == t
  {
    forall i | 0 <= i < |s|
      ensures Title(s)[i] == t[i]
    {
      TitleAt(s, i);
    }
  }

  /** Two segments, each title-cased on its own. */
  lemma TwoSegments(text: string, a: string, b: string, ta: string, tb: string)
    requires Eligible(text) && text[..|text| - 2] == a + "_" + b
    requires '_' !in a && '_' !in b
    requires Title(a) == ta && Title(b) == tb
    ensures ToCamelCase(text) == Ok(ta + tb)
  {
    ToCamelCaseResult(text);
    SplitAtSeparator(a, b);
    SplitNoSeparator(b);
    assert Split(text[..|text| - 2]) == [a, b];
    TitleConcatPair(a, b);
  }

  /** Two tokens title-case to the two titles in order. */
  lemma TitleConcatPair(a: string, b: string)
    ensures TitleConcat([a, b]) == Title(a) + Title(b)
  {
    assert [a, b][1..] == [b];
    assert [b][1..] == [];
    assert TitleConcat([b]) == Title(b) + "";
  }

  lemma TitleGraphene()
    ensures Title("graphene") == "Graphene"
  {
    TitleIs("graphene", "Graphene");
  }

  lemma TitlePoint3D()
    ensures Title("point3d") == "Point3D"
  {
    TitleIs("point3d", "Point3D");
  }

  lemma TitleBox()
    ensures Title("box") == "Box"
  {
    TitleIs("box", "Box");
  }

  /** Only the prefix matched: a name graphene_<b> with no underscore in b
    * still loses the last two characters of b. */
  lemma PrefixOnly(b: string, tb: string)
    requires '_' !in b && |b| >= 2 && Title(b[..|b| - 2]) == tb
    ensures ToCamelCase("graphene_" + b) == Ok("Graphene" + tb)
  {
    var text := "graphene_" + b;
    assert text[..9] == "graphene_";
    assert text[..|text| - 2] == "graphene" + "_" + b[..|b| - 2];
    var c := b[..|b| - 2];
    assert '_' !in c by {
      forall i | 0 <= i < |c| ensures c[i] != '_' {
        assert c[i] == b[i];
      }
    }
    TitleGraphene();
    TwoSegments(text, "graphene", c, "Graphene", tb);
  }

  lemma PrefixOnlyExample()
    ensures ToCamelCase("graphene_foo") == Ok("GrapheneF")
  {
    TitleIs("f", "F");
    assert "foo"[..1] == "f";
    PrefixOnly("foo", "F");
    assert "graphene_" + "foo" == "graphene_foo";
    assert "Graphene" + "F" == "GrapheneF";
  }

  /** A type name graphene_<b>_t, with no underscore in b, becomes
    * "Graphene" followed by the title-cased b. */
  lemma TypeName(b: string, tb: string)
    requires '_' !in b && Title(b) == tb
    ensures ToCamelCase("graphene_" + b + "_t") == Ok("Graphene" + tb)
  {
    var text := "graphene_" + b + "_t";
    assert text[..9] == "graphene_";
    assert text[..|text| - 2] == "graphene" + "_" + b;
    TitleGraphene();
    TwoSegments(text, "graphene", b, "Graphene", tb);
  }

  /** The digit makes the following letter start a new word. */
  lemma Point3DExample()
    ensures ToCamelCase("graphene_point3d_t") == Ok("GraphenePoint3D")
  {
    assert "graphene_" + "point3d" + "_t" == "graphene_point3d_t";
    assert "Graphene" + "Point3D" == "GraphenePoint3D";
    TitlePoint3D();
    TypeName("point3d", "Point3D");
  }

  lemma BoxExample()
    ensures ToCamelCase("graphene_box_t") == Ok("GrapheneBox")
  {
    assert "graphene_" + "box" + "_t" == "graphene_box_t";
    assert "Graphene" + "Box" == "GrapheneBox";
    TitleBox();
    TypeName("box", "Box");
  }

  /** Text that neither starts with "graphene_" nor ends with "_t" is kept. */
  lemma IneligibleExample()
    ensures ToCamelCase("gboolean") == Ok("gboolean")
  {
    assert !StartsWith("gboolean", "graphene_");
    assert "gboolean"[6..] == "an";
  }
}
