// DatabaseCatalog::EscapePatternValueArguments, and what an ODBC catalog pattern matches.
module PatternEscape {

  /** boost::algorithm::replace_all for a search string of one character. */
  function ReplaceAll(s: string, c: char, with': string): string {
    if s == "" then ""
    else (if s[0] == c then with' else [s[0]]) + ReplaceAll(s[1..], c, with')
  }

  /** The two passes over a local copy: first '%', then '_' in what the first pass left. */
  function EscapePatternValueArguments(input: string, esc: string): string {
    var escaped := ReplaceAll(input, '%', esc + "%");
    ReplaceAll(escaped, '_', esc + "_")
  }

  predicate IsMeta(c: char) { c == '%' || c == '_' }

  /** Reference: every metacharacter of the input gets esc in front, nothing else changes. */
  function EscapeEach(input: string, esc: string): string {
    if input == "" then ""
    else (if IsMeta(input[0]) then esc else "") + [input[0]] + EscapeEach(input[1..], esc)
  }

  lemma {:induction false} ReplaceAllConcat(a: string, b: string, c: char, with': string)
    ensures ReplaceAll(a + b, c, with') == ReplaceAll(a, c, with') + ReplaceAll(b, c, with')
  {
    if a == "" {
      assert a + b == b;
    } else {
      assert (a + b)[1..] == a[1..] + b;
      ReplaceAllConcat(a[1..], b, c, with');
    }
  }

  lemma {:induction false} ReplaceAllGrows(s: string, c: char, with': string)
    requires |with'| >= 1
    ensures c !in s ==> ReplaceAll(s, c, with') == s
    ensures |ReplaceAll(s, c, with')| >= |s|
    ensures c in s && |with'| > 1 ==> |ReplaceAll(s, c, with')| > |s|
  {
    if s != "" {
      ReplaceAllGrows(s[1..], c, with');
    }
  }

  /** One step of both passes on the text of a single input character. */
  lemma TwoPassStep(input: string, esc: string)
    requires input != ""
    ensures EscapePatternValueArguments(input, esc) ==
            (if input[0] == '%' then ReplaceAll(esc, '_', esc + "_") + "%"
             else if input[0] == '_' then esc + "_" else [input[0]])
            + EscapePatternValueArguments(input[1..], esc)
  {
    var head := if input[0] == '%' then esc + "%" else [input[0]];
    ReplaceAllConcat(head, ReplaceAll(input[1..], '%', esc + "%"), '_', esc + "_");
    if input[0] == '%' {
      ReplaceAllConcat(esc, "%", '_', esc + "_");
    }
    assert "%"[1..] == "" && [input[0]][1..] == "";
  }

  lemma {:induction false} TwoPassLength(input: string, esc: string)
    ensures '_' !in esc || '%' !in input ==> EscapePatternValueArguments(input, esc) == EscapeEach(input, esc)
    ensures |EscapePatternValueArguments(input, esc)| >= |EscapeEach(input, esc)|
    ensures '_' in esc && '%' in input ==> |EscapePatternValueArguments(input, esc)| > |EscapeEach(input, esc)|
  {
    if input != "" {
      TwoPassStep(input, esc);
      TwoPassLength(input[1..], esc);
      ReplaceAllGrows(esc, '_', esc + "_");
    }
  }

  /** The second pass leaves the first one's escapes alone exactly when the escape text holds no
      '_' or there was no '%' to escape. */
  lemma TwoPassesAreOne(input: string, esc: string)
    ensures EscapePatternValueArguments(input, esc) == EscapeEach(input, esc)
       <==> '_' !in esc || '%' !in input
  {
    TwoPassLength(input, esc);
  }

  // ---- matching

  /** Does the ODBC pattern match s? '%' stands for any run of characters, '_' for any one, and the
      escape character makes the next character literal. An escape character at the very end
      escapes nothing: such a pattern is malformed and matches no string. */
  predicate Matches(pattern: string, esc: char, s: string)
    decreases |pattern|, |s|
  {
    if pattern == "" then s == ""
    else if pattern[0] == esc then
      |pattern| > 1 && s != "" && s[0] == pattern[1] && Matches(pattern[2..], esc, s[1..])
    else if pattern[0] == '%' then
      Matches(pattern[1..], esc, s) || (s != "" && Matches(pattern, esc, s[1..]))
    else
      s != "" && (pattern[0] == '_' || pattern[0] == s[0]) && Matches(pattern[1..], esc, s[1..])
  }

  /** For an escape character that is no metacharacter, and an input without it, the escaped
      pattern matches the input and nothing else. */
  lemma {:induction false} EscapedMatchesOnlyInput(input: string, esc: char, s: string)
    requires !IsMeta(esc) && esc !in input
    ensures Matches(EscapePatternValueArguments(input, [esc]), esc, s) <==> s == input
  {
    TwoPassesAreOne(input, [esc]);
    EscapeEachMatches(input, esc, s);
  }

  lemma {:induction false} EscapeEachMatches(input: string, esc: char, s: string)
    requires !IsMeta(esc) && esc !in input
    ensures Matches(EscapeEach(input, [esc]), esc, s) <==> s == input
  {
    if input != "" {
      EachStep(input, esc);
      assert esc !in input[1..];
      if s != "" {
        EscapeEachMatches(input[1..], esc, s[1..]);
        assert s == input <==> s[0] == input[0] && s[1..] == input[1..];
      }
    }
  }

  /** How the escaped text of a non-empty input begins, and what is left of it. */
  lemma EachStep(input: string, esc: char)
    requires input != ""
    ensures var p := EscapeEach(input, [esc]);
            if IsMeta(input[0]) then |p| > 1 && p[0] == esc && p[1] == input[0] && p[2..] == EscapeEach(input[1..], [esc])
            else p != "" && p[0] == input[0] && p[1..] == EscapeEach(input[1..], [esc])
  {
    EscapeEachStep(input, esc);
    hide EscapeEach, IsMeta;
  }

  lemma EscapeEachStep(input: string, esc: char)
    requires input != ""
    ensures EscapeEach(input, [esc]) == (if IsMeta(input[0]) then [esc, input[0]] else [input[0]]) + EscapeEach(input[1..], [esc])
  {
    hide IsMeta;
    assert [esc] + [input[0]] == [esc, input[0]] && "" + [input[0]] == [input[0]];
  }

  /** A well-formed escaped text matches some string that is no longer than the input. */
  lemma {:induction false} ShortMatch(input: string, esc: char) returns (ok: bool, t: string)
    requires !IsMeta(esc)
    ensures ok ==> Matches(EscapeEach(input, [esc]), esc, t) && |t| <= |input|
    ensures !ok ==> forall s :: !Matches(EscapeEach(input, [esc]), esc, s)
    decreases |input|, 0
  {
    if input == "" {
      return true, "";
    }
    EachStep(input, esc);
    if input[0] != esc {
      ok, t := ShortMatch(input[1..], esc);
      var u := t;
      t := [input[0]] + u;
      assert t[1..] == u;
    } else if |input| == 1 {
      ok, t := false, "";
    } else {
      ok, t := EscapedPairMatch(input, esc, input[2..]);
    }
  }

  /** The same for an input that starts with the escape character and one more: the pattern is then
      the escape character twice before a metacharacter, or the pair itself. A bare '_' is
      met with an 'x'. */
  lemma {:induction false} EscapedPairMatch(input: string, esc: char, rest: string) returns (ok: bool, t: string)
    requires !IsMeta(esc) && |input| >= 2 && input[0] == esc && rest == input[2..]
    ensures ok ==> Matches(EscapeEach(input, [esc]), esc, t) && |t| <= |input|
    ensures ok && input[1] != '_' ==> |t| < |input|
    ensures ok && input[1] == '_' ==> |t| > 1 && t[1] == 'x'
    ensures !ok ==> forall s :: !Matches(EscapeEach(input, [esc]), esc, s)
    decreases |rest|, 1
  {
    var p := EscapeEach(input, [esc]);
    EachStep(input, esc);
    EachStep(input[1..], esc);
    assert input[1..][1..] == rest;
    var tail := EscapeEach(rest, [esc]);
    var u: string;
    ok, u := ShortMatch(rest, esc);
    if !IsMeta(input[1]) {
      assert p == [esc, input[1]] + tail;
      t := [input[1]] + u;
      assert t[1..] == u && p[2..] == tail;
    } else {
      assert p == [esc, esc, input[1]] + tail;
      var q := p[2..];
      assert q[1..] == tail && q[0] == input[1];
      if input[1] == '_' {
        t := [esc, 'x'] + u;
        assert t[1..] == ['x'] + u && t[1..][1..] == u;
      } else {
        t := [esc] + u;
        assert t[1..] == u;
      }
      if !ok {
        forall s ensures !Matches(p, esc, s) {
          if s != "" && input[1] == '%' {
            NoTailNoMatch(q, esc, s[1..]);
          } else if |s| > 1 {
            assert !Matches(tail, esc, s[1..][1..]);
          }
        }
      }
    }
  }

  lemma {:induction false} NoTailNoMatch(q: string, esc: char, s: string)
    requires q != "" && q[0] == '%' && esc != '%'
    requires forall t :: !Matches(q[1..], esc, t)
    ensures !Matches(q, esc, s)
  {
    if s != "" {
      NoTailNoMatch(q, esc, s[1..]);
    }
  }

  /** An input that holds the escape character is never matched alone: either the pattern misses it
      or it matches another string as well. */
  lemma {:induction false} EscapeInInputBreaks(input: string, esc: char) returns (s: string)
    requires !IsMeta(esc) && esc in input
    ensures Matches(EscapeEach(input, [esc]), esc, s) <==> s != input
    decreases |input|
  {
    EachStep(input, esc);
    if input[0] != esc {
      var r := EscapeInInputBreaks(input[1..], esc);
      s := [input[0]] + r;
      assert s[1..] == r && input == [input[0]] + input[1..];
    } else if |input| == 1 {
      s := input;
    } else {
      var ok, t := EscapedPairMatch(input, esc, input[2..]);
      s := if ok then t else input;
    }
  }

  /** Exactly the inputs without the escape character are escaped faithfully. */
  lemma EscapeFaithfulIff(input: string, esc: char)
    requires !IsMeta(esc)
    ensures (forall s :: Matches(EscapePatternValueArguments(input, [esc]), esc, s) <==> s == input)
       <==> esc !in input
  {
    TwoPassesAreOne(input, [esc]);
    if esc in input {
      var s := EscapeInInputBreaks(input, esc);
    } else {
      forall s ensures Matches(EscapePatternValueArguments(input, [esc]), esc, s) <==> s == input {
        EscapedMatchesOnlyInput(input, esc, s);
      }
    }
  }
}
