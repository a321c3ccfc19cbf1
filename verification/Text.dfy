// String helpers that the library takes from boost::algorithm, and the reference notions
// (joining, marker positions) that its list-building loops are compared with.
module Text {

  /** The items with sep between neighbours. */
  function Join(items: seq<string>, sep: string): string {
    if items == [] then ""
    else if |items| == 1 then items[0]
    else items[0] + sep + Join(items[1..], sep)
  }

  /** What a loop that appends "item, separator" for every item leaves behind. */
  function AppendEach(items: seq<string>, sep: string): string {
    if items == [] then "" else AppendEach(items[..|items| - 1], sep) + items[|items| - 1] + sep
  }

  predicate OccursAt(s: string, pat: string, i: nat) {
    i + |pat| <= |s| && s[i..i + |pat|] == pat
  }

  /** boost::algorithm::erase_last: removes the last occurrence of pat, if there is one.
      The search goes down from index `from`. */
  function EraseLastFrom(s: string, pat: string, from: nat): string {
    if OccursAt(s, pat, from) then s[..from] + s[from + |pat|..]
    else if from == 0 then s
    else EraseLastFrom(s, pat, from - 1)
  }

  function EraseLast(s: string, pat: string): string {
    EraseLastFrom(s, pat, |s|)
  }

  /** No occurrence in (from..to]. */
  predicate NoneAfter(s: string, pat: string, from: int, to: nat) {
    forall j: nat | from < j <= to :: !OccursAt(s, pat, j)
  }

  /** erase_last removes nothing when there is no occurrence. */
  lemma {:induction false} EraseLastOfNone(s: string, pat: string, from: nat)
    requires NoneAfter(s, pat, -1, from)
    ensures EraseLastFrom(s, pat, from) == s
  {
    hide OccursAt;
    if from > 0 {
      EraseLastOfNone(s, pat, from - 1);
    }
  }

  /** Otherwise it removes the occurrence that no other one follows. */
  lemma {:induction false} EraseLastAt(s: string, pat: string, from: nat, i: nat)
    requires i <= from && OccursAt(s, pat, i) && NoneAfter(s, pat, i, from)
    ensures i + |pat| <= |s| && EraseLastFrom(s, pat, from) == s[..i] + s[i + |pat|..]
  {
    if i < from {
      EraseLastAt(s, pat, from - 1, i);
    }
  }

  lemma {:induction false} AppendEachCons(items: seq<string>, sep: string)
    requires items != []
    ensures AppendEach(items, sep) == items[0] + sep + AppendEach(items[1..], sep)
  {
    if |items| > 1 {
      var front := items[..|items| - 1];
      AppendEachCons(front, sep);
      assert front[1..] == items[1..][..|items| - 2];
    }
  }

  lemma {:induction false} AppendEachIsJoin(items: seq<string>, sep: string)
    requires items != []
    ensures AppendEach(items, sep) == Join(items, sep) + sep
  {
    AppendEachCons(items, sep);
    if |items| == 1 {
      assert items[1..] == [];
    } else {
      AppendEachIsJoin(items[1..], sep);
    }
  }

  /** Appending "item, sep" for every item and erasing the last sep joins the items, for any
      number of items and whatever they contain. */
  lemma {:induction false} EraseLastJoins(items: seq<string>, sep: string)
    requires sep != ""
    ensures EraseLast(AppendEach(items, sep), sep) == Join(items, sep)
  {
    var s := AppendEach(items, sep);
    if items == [] {
      EraseLastOfNone(s, sep, |s|);
    } else {
      AppendEachIsJoin(items, sep);
      var i := |s| - |sep|;
      assert OccursAt(s, sep, i);
      EraseLastAt(s, sep, |s|, i);
      assert s[..i] + s[i + |sep|..] == Join(items, sep);
    }
  }

  lemma {:induction false} JoinAppend(a: seq<string>, b: seq<string>, sep: string)
    requires a != [] && b != []
    ensures Join(a + b, sep) == Join(a, sep) + sep + Join(b, sep)
  {
    if |a| == 1 {
      assert (a + b)[1..] == b;
    } else {
      assert (a + b)[1..] == a[1..] + b;
      JoinAppend(a[1..], b, sep);
    }
  }

  // ---- positions of a character

  /** The positions at which c stands in s, ascending. */
  function Positions(s: string, c: char): seq<nat> {
    if s == "" then []
    else Positions(s[..|s| - 1], c) + (if s[|s| - 1] == c then [|s| - 1] else [])
  }

  function Shift(ps: seq<nat>, off: nat): (r: seq<nat>)
    ensures |r| == |ps|
    ensures forall i | 0 <= i < |ps| :: r[i] == ps[i] + off
  {
    seq(|ps|, i requires 0 <= i < |ps| => ps[i] + off)
  }

  lemma {:induction false} PositionsConcat(a: string, b: string, c: char)
    ensures Positions(a + b, c) == Positions(a, c) + Shift(Positions(b, c), |a|)
  {
    if b == "" {
      assert a + b == a;
    } else {
      var front := b[..|b| - 1];
      PositionsConcat(a, front, c);
      assert (a + b)[..|a + b| - 1] == a + front;
    }
  }

  /** Positions lists exactly the places where c stands. */
  lemma {:induction false} PositionsMeaning(s: string, c: char)
    ensures forall i :: i in Positions(s, c) <==> 0 <= i < |s| && s[i] == c
    ensures forall i, j | 0 <= i < j < |Positions(s, c)| :: Positions(s, c)[i] < Positions(s, c)[j]
  {
    if s != "" {
      PositionsMeaning(s[..|s| - 1], c);
      var ps := Positions(s[..|s| - 1], c);
      assert forall i | 0 <= i < |ps| :: ps[i] in ps;
    }
  }

  lemma {:induction false} NoPositions(s: string, c: char)
    ensures Positions(s, c) == [] <==> c !in s
  {
    PositionsMeaning(s, c);
    if Positions(s, c) != [] {
      assert Positions(s, c)[0] in Positions(s, c);
    }
  }
}
