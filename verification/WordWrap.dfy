// Help::Split of the ExodbcExec sample: greedy word wrap with an indent.
module WordWrap {
  import opened Text

  /** boost::split on a single blank: always at least one word, empty words are kept. */
  function Words(str: string): (words: seq<string>)
    ensures words != []
    ensures forall w <- words :: ' ' !in w
  {
    if str == "" then [""]
    else
      var rest := Words(str[1..]);
      if str[0] == ' ' then [""] + rest else [[str[0]] + rest[0]] + rest[1..]
  }

  /** Splitting loses nothing: the words joined with blanks are the text. */
  lemma {:induction false} WordsJoin(str: string)
    ensures Join(Words(str), " ") == str
  {
    if str != "" {
      WordsJoin(str[1..]);
      var rest := Words(str[1..]);
      if str[0] == ' ' {
        assert ([""] + rest)[1..] == rest;
      } else {
        JoinLonger(str[0], rest);
      }
    }
  }

  lemma JoinLonger(c: char, words: seq<string>)
    requires words != []
    ensures Join([[c] + words[0]] + words[1..], " ") == [c] + Join(words, " ")
  {
    var longer := [[c] + words[0]] + words[1..];
    assert longer[1..] == words[1..];
    if |words| > 1 {
      assert [c] + words[0] + " " + Join(words[1..], " ") == [c] + (words[0] + " " + Join(words[1..], " "));
    }
  }

  function Blanks(n: nat): (s: string)
    ensures |s| == n
  {
    seq(n, _ => ' ')
  }

  /** The lines still to come when `tmp` is the line being filled. `first` is the source's firstWord:
      it is cleared only by a word that is appended, not by one that starts a new line. */
  function Remaining(words: seq<string>, tmp: string, first: bool, maxChars: nat, indent: nat): seq<string>
    decreases |words|
  {
    if words == [] then (if tmp == "" then [] else [tmp])
    else if |tmp| + (if first then 0 else 1) + |words[0]| <= maxChars then
      Remaining(words[1..], tmp + (if first then "" else " ") + words[0], false, maxChars, indent)
    else
      [tmp] + Remaining(words[1..], Blanks(indent) + words[0], first, maxChars, indent)
  }

  method Split(str: string, maxChars: nat, indent: nat) returns (lines: seq<string>)
    ensures lines == Remaining(Words(str), Blanks(indent), true, maxChars, indent)
  {
    lines := [];
    var tmp := Blanks(indent);
    var words := Words(str);
    var firstWord := true;
    for i := 0 to |words|
      invariant lines + Remaining(words[i..], tmp, firstWord, maxChars, indent)
             == Remaining(words, Blanks(indent), true, maxChars, indent)
    {
      var word := words[i];
      assert words[i..][1..] == words[i + 1..];
      if |tmp| + (if firstWord then 0 else 1) + |word| <= maxChars {
        if firstWord {
          firstWord := false;
          assert tmp + "" + word == tmp + word;
        } else {
          tmp := tmp + " ";
        }
        tmp := tmp + word;
      } else {
        assert lines + Remaining(words[i..], tmp, firstWord, maxChars, indent)
            == (lines + [tmp]) + Remaining(words[i + 1..], Blanks(indent) + word, firstWord, maxChars, indent);
        lines := lines + [tmp];
        tmp := Blanks(indent) + word;
      }
    }
    if tmp != "" {
      lines := lines + [tmp];
    }
  }

  // ---- what a wrap means: the words cut into groups, one group a line

  type Group = seq<string>

  function Line(g: Group, indent: nat): string {
    Blanks(indent) + Join(g, " ")
  }

  function Lines(gs: seq<Group>, indent: nat): (ls: seq<string>)
    ensures |ls| == |gs|
    ensures forall k | 0 <= k < |gs| :: ls[k] == Line(gs[k], indent)
  {
    seq(|gs|, k requires 0 <= k < |gs| => Line(gs[k], indent))
  }

  function Flatten(gs: seq<Group>): seq<string> {
    if gs == [] then [] else gs[0] + Flatten(gs[1..])
  }

  predicate NoneEmpty(gs: seq<Group>) {
    forall k | 0 <= k < |gs| :: gs[k] != []
  }

  /** gs cuts words into non-empty groups without changing their order. */
  ghost predicate Cuts(gs: seq<Group>, words: seq<string>) {
    Flatten(gs) == words && NoneEmpty(gs)
  }

  ghost predicate Fits(gs: seq<Group>, maxChars: nat, indent: nat) {
    forall k | 0 <= k < |gs| :: |Line(gs[k], indent)| <= maxChars
  }

  /** A line over the limit holds one single word. */
  ghost predicate OnlySingleWordsOverflow(gs: seq<Group>, maxChars: nat, indent: nat) {
    forall k | 0 <= k < |gs| :: |Line(gs[k], indent)| > maxChars ==> |gs[k]| == 1
  }

  /** Greedy cut: the current group g is extended as long as the next word fits. */
  function Greedy(g: Group, words: seq<string>, maxChars: nat, indent: nat): (gs: seq<Group>)
    requires g != []
    ensures gs != []
    decreases |words|
  {
    if words == [] then [g]
    else if |Line(g, indent)| + 1 + |words[0]| <= maxChars then Greedy(g + [words[0]], words[1..], maxChars, indent)
    else [g] + Greedy([words[0]], words[1..], maxChars, indent)
  }

  /** Split does not return a last line that is empty, which an empty last word may leave where there is no indent. */
  function Trimmed(lines: seq<string>): seq<string> {
    if lines != [] && lines[|lines| - 1] == "" then lines[..|lines| - 1] else lines
  }

  predicate FirstWordFits(words: seq<string>, maxChars: nat, indent: nat)
    requires words != []
  {
    indent + |words[0]| <= maxChars
  }

  lemma LineAppend(g: Group, w: string, indent: nat)
    requires g != []
    ensures Line(g + [w], indent) == Line(g, indent) + " " + w
  {
    JoinAppend(g, [w], " ");
  }

  lemma {:induction false} GreedyCuts(g: Group, words: seq<string>, maxChars: nat, indent: nat)
    requires g != []
    requires |Line(g, indent)| > maxChars ==> |g| == 1
    ensures Cuts(Greedy(g, words, maxChars, indent), g + words)
    ensures OnlySingleWordsOverflow(Greedy(g, words, maxChars, indent), maxChars, indent)
    decreases |words|
  {
    if words == [] {
      assert Flatten([g]) == g + Flatten([]);
    } else if |Line(g, indent)| + 1 + |words[0]| <= maxChars {
      LineAppend(g, words[0], indent);
      GreedyCuts(g + [words[0]], words[1..], maxChars, indent);
      assert g + [words[0]] + words[1..] == g + words;
    } else {
      GreedyCuts([words[0]], words[1..], maxChars, indent);
      assert [words[0]] + words[1..] == words;
      var rest := Greedy([words[0]], words[1..], maxChars, indent);
      assert ([g] + rest)[1..] == rest;
    }
  }

  lemma RemainingStep(words: seq<string>, tmp: string, maxChars: nat, indent: nat)
    requires words != []
    ensures Remaining(words, tmp, false, maxChars, indent) ==
              if |tmp| + 1 + |words[0]| <= maxChars then Remaining(words[1..], tmp + " " + words[0], false, maxChars, indent)
              else [tmp] + Remaining(words[1..], Blanks(indent) + words[0], false, maxChars, indent)
    ensures Remaining([], tmp, false, maxChars, indent) == Trimmed([tmp])
  {
    hide Blanks;
  }

  lemma GreedyStep(g: Group, words: seq<string>, maxChars: nat, indent: nat)
    requires g != [] && words != []
    ensures Greedy(g, words, maxChars, indent) ==
              if |Line(g, indent)| + 1 + |words[0]| <= maxChars then Greedy(g + [words[0]], words[1..], maxChars, indent)
              else [g] + Greedy([words[0]], words[1..], maxChars, indent)
    ensures Greedy(g, [], maxChars, indent) == [g] && Line([words[0]], indent) == Blanks(indent) + words[0]
  {
    hide Blanks;
  }

  lemma LinesBehind(g: Group, gs: seq<Group>, indent: nat)
    ensures Lines([g] + gs, indent) == [Line(g, indent)] + Lines(gs, indent)
  {
    hide Line;
  }

  /** The source's loop makes the greedy cut once its first word has been placed. */
  lemma {:induction false} RemainingIsGreedy(g: Group, words: seq<string>, maxChars: nat, indent: nat)
    requires g != []
    ensures Remaining(words, Line(g, indent), false, maxChars, indent) == Trimmed(Lines(Greedy(g, words, maxChars, indent), indent))
    decreases |words|
  {
    hide Remaining, Greedy, Line, Trimmed, Blanks;
    if words == [] {
      RemainingStep([""], Line(g, indent), maxChars, indent);
      GreedyStep(g, [""], maxChars, indent);
      assert Lines([g], indent) == [Line(g, indent)];
    } else {
      RemainingStep(words, Line(g, indent), maxChars, indent);
      GreedyStep(g, words, maxChars, indent);
      if |Line(g, indent)| + 1 + |words[0]| <= maxChars {
        LineAppend(g, words[0], indent);
        RemainingIsGreedy(g + [words[0]], words[1..], maxChars, indent);
      } else {
        RemainingIsGreedy([words[0]], words[1..], maxChars, indent);
        var rest := Greedy([words[0]], words[1..], maxChars, indent);
        LinesBehind(g, rest, indent);
        TrimmedBehind(Line(g, indent), Lines(rest, indent));
      }
    }
  }

  lemma TrimmedBehind(line: string, lines: seq<string>)
    requires lines != []
    ensures Trimmed([line] + lines) == [line] + Trimmed(lines)
  {
  }

  // ---- fewest lines

  /** How many lines the greedy cut starts after the current one, which is `cur` long. */
  function MoreLines(cur: nat, words: seq<string>, maxChars: nat, indent: nat): nat
    decreases |words|
  {
    if words == [] then 0
    else if cur + 1 + |words[0]| <= maxChars then MoreLines(cur + 1 + |words[0]|, words[1..], maxChars, indent)
    else 1 + MoreLines(indent + |words[0]|, words[1..], maxChars, indent)
  }

  lemma {:induction false} GreedyCount(g: Group, words: seq<string>, maxChars: nat, indent: nat)
    requires g != []
    ensures |Greedy(g, words, maxChars, indent)| == 1 + MoreLines(|Line(g, indent)|, words, maxChars, indent)
    decreases |words|
  {
    if words != [] {
      if |Line(g, indent)| + 1 + |words[0]| <= maxChars {
        LineAppend(g, words[0], indent);
        GreedyCount(g + [words[0]], words[1..], maxChars, indent);
      } else {
        assert Line([words[0]], indent) == Blanks(indent) + words[0];
        GreedyCount([words[0]], words[1..], maxChars, indent);
      }
    }
  }

  /** A shorter current line never costs a line, and a longer one costs at most one. */
  lemma {:induction false} MoreLinesMonotone(a: nat, b: nat, words: seq<string>, maxChars: nat, indent: nat)
    requires indent <= a && indent <= b
    ensures a <= b ==> MoreLines(a, words, maxChars, indent) <= MoreLines(b, words, maxChars, indent)
    ensures MoreLines(a, words, maxChars, indent) <= MoreLines(b, words, maxChars, indent) + 1
    decreases |words|
  {
    if words != [] {
      var a' := if a + 1 + |words[0]| <= maxChars then a + 1 + |words[0]| else indent + |words[0]|;
      var b' := if b + 1 + |words[0]| <= maxChars then b + 1 + |words[0]| else indent + |words[0]|;
      MoreLinesMonotone(a', b', words[1..], maxChars, indent);
    }
  }

  /** The rest of the group g still fits the line once its first word is on it. */
  predicate RestFits(cur: nat, g: Group, maxChars: nat) {
    g != [] ==> cur + 1 + |Join(g, " ")| <= maxChars
  }

  lemma NextWordFits(cur: nat, g: Group, maxChars: nat)
    requires g != [] && RestFits(cur, g, maxChars)
    ensures cur + 1 + |g[0]| <= maxChars && RestFits(cur + 1 + |g[0]|, g[1..], maxChars)
  {
  }

  lemma NextGroupFits(gs: seq<Group>, maxChars: nat, indent: nat)
    requires gs != [] && Fits(gs, maxChars, indent) && NoneEmpty(gs)
    ensures gs[0] != [] && RestFits(indent + |gs[0][0]|, gs[0][1..], maxChars)
    ensures Fits(gs[1..], maxChars, indent) && NoneEmpty(gs[1..])
  {
    assert |Line(gs[0], indent)| <= maxChars;
  }

  /** Greedy stays ahead: with `g` the part of another fitting cut's current group that is still to
      be placed and gs its later groups, greedy needs no more lines than that cut. */
  lemma {:induction false} GreedyStaysAhead(cur: nat, g: Group, gs: seq<Group>, maxChars: nat, indent: nat)
    requires indent <= cur
    requires RestFits(cur, g, maxChars)
    requires Fits(gs, maxChars, indent) && NoneEmpty(gs)
    ensures MoreLines(cur, g + Flatten(gs), maxChars, indent) <= |gs|
    decreases |gs|, |g|
  {
    hide Fits, NoneEmpty, RestFits;
    var words := g + Flatten(gs);
    if g != [] {
      NextWordFits(cur, g, maxChars);
      assert words[1..] == g[1..] + Flatten(gs);
      GreedyStaysAhead(cur + 1 + |g[0]|, g[1..], gs, maxChars, indent);
    } else if gs != [] {
      var h := gs[0];
      NextGroupFits(gs, maxChars, indent);
      assert words[0] == h[0] && words[1..] == h[1..] + Flatten(gs[1..]);
      GreedyStaysAhead(indent + |h[0]|, h[1..], gs[1..], maxChars, indent);
      MoreLinesMonotone(cur + 1 + |h[0]|, indent + |h[0]|, words[1..], maxChars, indent);
    }
  }

  lemma {:induction false} GreedyFits(g: Group, words: seq<string>, maxChars: nat, indent: nat)
    requires g != [] && |Line(g, indent)| <= maxChars
    requires forall i | 0 <= i < |words| :: indent + |words[i]| <= maxChars
    ensures Fits(Greedy(g, words, maxChars, indent), maxChars, indent)
    decreases |words|
  {
    if words != [] {
      if |Line(g, indent)| + 1 + |words[0]| <= maxChars {
        LineAppend(g, words[0], indent);
        GreedyFits(g + [words[0]], words[1..], maxChars, indent);
      } else {
        assert Line([words[0]], indent) == Blanks(indent) + words[0];
        GreedyFits([words[0]], words[1..], maxChars, indent);
      }
    }
  }

  // ---- main results, about the value that Split returns

  function Wrapped(str: string, maxChars: nat, indent: nat): seq<string> {
    Remaining(Words(str), Blanks(indent), true, maxChars, indent)
  }

  function GreedyOf(words: seq<string>, maxChars: nat, indent: nat): seq<Group>
    requires words != []
  {
    Greedy([words[0]], words[1..], maxChars, indent)
  }

  /** When the first word fits, the lines are a cut of the words, in order and without loss, doubled blanks
      included, but for an empty line at the end; and only a single word can make a line too long. */
  lemma WrapKeepsWords(str: string, maxChars: nat, indent: nat)
    requires FirstWordFits(Words(str), maxChars, indent)
    ensures Wrapped(str, maxChars, indent) == Trimmed(Lines(GreedyOf(Words(str), maxChars, indent), indent))
    ensures Cuts(GreedyOf(Words(str), maxChars, indent), Words(str))
    ensures OnlySingleWordsOverflow(GreedyOf(Words(str), maxChars, indent), maxChars, indent)
  {
    var words := Words(str);
    assert [words[0]] + words[1..] == words;
    assert Line([words[0]], indent) == Blanks(indent) + "" + words[0];
    GreedyCuts([words[0]], words[1..], maxChars, indent);
    RemainingIsGreedy([words[0]], words[1..], maxChars, indent);
  }

  /** Every cut of the words into fitting lines has at least as many lines as Split returns, and
      Split's own lines then fit. */
  lemma WrapIsMinimal(str: string, maxChars: nat, indent: nat, gs: seq<Group>)
    requires Cuts(gs, Words(str)) && Fits(gs, maxChars, indent)
    ensures |Wrapped(str, maxChars, indent)| <= |gs|
    ensures Cuts(GreedyOf(Words(str), maxChars, indent), Words(str))
    ensures Fits(GreedyOf(Words(str), maxChars, indent), maxChars, indent)
    ensures Wrapped(str, maxChars, indent) == Trimmed(Lines(GreedyOf(Words(str), maxChars, indent), indent))
  {
    GreedyIsFewest(Words(str), gs, maxChars, indent);
    WrapKeepsWords(str, maxChars, indent);
  }

  lemma FirstGroup(gs: seq<Group>, words: seq<string>)
    requires Cuts(gs, words) && words != []
    ensures gs != [] && gs[0] != [] && NoneEmpty(gs[1..])
    ensures words[0] == gs[0][0] && words[1..] == gs[0][1..] + Flatten(gs[1..])
  {
  }

  lemma GreedyIsFewest(words: seq<string>, gs: seq<Group>, maxChars: nat, indent: nat)
    requires words != [] && Cuts(gs, words) && Fits(gs, maxChars, indent)
    ensures FirstWordFits(words, maxChars, indent)
    ensures |GreedyOf(words, maxChars, indent)| <= |gs|
    ensures Fits(GreedyOf(words, maxChars, indent), maxChars, indent)
  {
    FittingCutFits(gs, words, maxChars, indent);
    FirstGroup(gs, words);
    LineOfOne(words[0], indent);
    GreedyCount([words[0]], words[1..], maxChars, indent);
    GreedyFits([words[0]], words[1..], maxChars, indent);
    if |gs[0]| > 1 {
      assert |Line(gs[0], indent)| == indent + |gs[0][0]| + 1 + |Join(gs[0][1..], " ")|;
    }
    GreedyStaysAhead(indent + |words[0]|, gs[0][1..], gs[1..], maxChars, indent);
  }

  lemma LineOfOne(w: string, indent: nat)
    ensures |Line([w], indent)| == indent + |w|
  {
  }

  lemma {:induction false} JoinCovers(g: Group, i: nat)
    requires i < |g|
    ensures |g[i]| <= |Join(g, " ")|
  {
    if |g| > 1 && i > 0 {
      JoinCovers(g[1..], i - 1);
    }
  }

  lemma {:induction false} FittingCutFits(gs: seq<Group>, words: seq<string>, maxChars: nat, indent: nat)
    requires Cuts(gs, words) && Fits(gs, maxChars, indent)
    ensures forall i | 0 <= i < |words| :: indent + |words[i]| <= maxChars
  {
    if gs != [] {
      FittingCutFits(gs[1..], Flatten(gs[1..]), maxChars, indent);
      assert |Line(gs[0], indent)| <= maxChars;
      forall i | 0 <= i < |words| ensures indent + |words[i]| <= maxChars {
        if i < |gs[0]| {
          JoinCovers(gs[0], i);
        } else {
          assert words[i] == Flatten(gs[1..])[i - |gs[0]|];
        }
      }
    }
  }

  lemma {:induction false} NoMoreGroups(gs: seq<Group>)
    requires NoneEmpty(gs)
    ensures |gs| <= |Flatten(gs)|
  {
    if gs != [] { NoMoreGroups(gs[1..]); }
  }

  /** With an indent beyond the limit every word gets a line of its own, behind one with the indent alone. */
  lemma {:induction false} EachAlone(words: seq<string>, tmp: string, maxChars: nat, indent: nat)
    requires maxChars < indent <= |tmp|
    ensures |Remaining(words, tmp, true, maxChars, indent)| == |words| + 1
    decreases |words|
  {
    if words != [] { EachAlone(words[1..], Blanks(indent) + words[0], maxChars, indent); }
  }

  /** The condition is exact: when the first word does not fit, a line that holds only the indent
      comes first, so the lines are not a cut of the words at all. */
  lemma WrapExact(str: string, maxChars: nat, indent: nat)
    ensures FirstWordFits(Words(str), maxChars, indent)
       <==> exists gs :: Cuts(gs, Words(str)) && Wrapped(str, maxChars, indent) == Trimmed(Lines(gs, indent))
  {
    var words := Words(str);
    if FirstWordFits(words, maxChars, indent) {
      WrapKeepsWords(str, maxChars, indent);
    } else {
      forall gs | Cuts(gs, words) ensures Wrapped(str, maxChars, indent) != Trimmed(Lines(gs, indent)) {
        NotACut(str, maxChars, indent, gs);
      }
    }
  }

  lemma NotACut(str: string, maxChars: nat, indent: nat, gs: seq<Group>)
    requires Cuts(gs, Words(str)) && !FirstWordFits(Words(str), maxChars, indent)
    ensures Wrapped(str, maxChars, indent) != Trimmed(Lines(gs, indent))
  {
    var words := Words(str);
    if words[0] == "" {
      EachAlone(words, Blanks(indent), maxChars, indent);
      NoMoreGroups(gs);
    } else {
      FirstGroup(gs, words);
      JoinCovers(gs[0], 0);
      assert Wrapped(str, maxChars, indent)[0] == Blanks(indent);
      assert |Lines(gs, indent)[0]| == |Line(gs[0], indent)| > indent;
    }
  }
}
