/** Multi-line text in which every line, the last one included, ends in a newline. */
module Lines {

  const Newline: char := '\n'

  /** The text made of the lines `ls`, in order, each followed by a newline. */
  function Unlines(ls: seq<string>): (s: string)
    ensures |s| >= |ls|
  {
    if ls == [] then "" else ls[0] + [Newline] + Unlines(ls[1..])
  }

  /** Appending one more line to the text appends that line and its newline. */
  lemma {:induction false} UnlinesSnoc(ls: seq<string>, l: string)
    ensures Unlines(ls + [l]) == Unlines(ls) + l + [Newline]
  {
    if ls == [] {
      assert ls + [l] == [l];
    } else {
      assert (ls + [l])[1..] == ls[1..] + [l];
      UnlinesSnoc(ls[1..], l);
    }
  }

  /** The position of the first newline in `s`, or `|s|` when there is none. */
  function IndexOfNewline(s: string): (k: nat)
    ensures k <= |s|
    ensures k < |s| ==> s[k] == Newline
    ensures forall j :: 0 <= j < k ==> s[j] != Newline
  {
    if s == [] || s[0] == Newline then 0 else 1 + IndexOfNewline(s[1..])
  }

  /** The lines of `s`, each without its newline; a final part with no newline is a line too. */
  function SplitLines(s: string): seq<string>
    decreases |s|
  {
    if s == [] then []
    else
      var k := IndexOfNewline(s);
      if k == |s| then [s] else [s[..k]] + SplitLines(s[k + 1..])
  }

  /** Splitting the text of newline-free lines gives back exactly those lines. */
  lemma {:induction false} SplitUnlines(ls: seq<string>)
    requires forall i :: 0 <= i < |ls| ==> Newline !in ls[i]
    ensures SplitLines(Unlines(ls)) == ls
  {
    if ls != [] {
      var l, rest := ls[0], Unlines(ls[1..]);
      var s := Unlines(ls);
      assert s == l + [Newline] + rest;
      var k := IndexOfNewline(s);
      assert s[|l|] == Newline;
      assert k == |l|;
      assert s[..k] == l;
      assert s[k + 1..] == rest;
      SplitUnlines(ls[1..]);
    }
  }
}
