/** String helpers shared by the views: searching, joining and splitting. */
module Strings {

  /** The index of the first `c` in `s`, or `|s|` when there is none. */
  function IndexOf(s: string, c: char): (k: nat)
    ensures k <= |s|
    ensures k < |s| ==> s[k] == c
    ensures forall i :: 0 <= i < k ==> s[i] != c
  {
    if s == [] then 0
    else if s[0] == c then 0
    else 1 + IndexOf(s[1..], c)
  }

  /** The index of the last `c` in `s`, or -1 when there is none. */
  function LastIndexOf(s: string, c: char): (k: int)
    ensures -1 <= k < |s|
    ensures 0 <= k ==> s[k] == c
    ensures forall i :: k < i < |s| ==> s[i] != c
  {
    if s == [] then -1
    else if s[|s| - 1] == c then |s| - 1
    else LastIndexOf(s[..|s| - 1], c)
  }

  /** `Array.prototype.join`: the items with `sep` between each neighbouring pair. */
  function Join(xs: seq<string>, sep: string): string
  {
    if |xs| == 0 then ""
    else if |xs| == 1 then xs[0]
    else xs[0] + sep + Join(xs[1..], sep)
  }

  /**
   * Cuts `s` at every occurrence of the separator's first character and drops
   * the separator; the inverse of Join for items that do not contain that character.
   */
  function Split(s: string, sep: string): seq<string>
    requires |sep| > 0
    decreases |s|
  {
    if s == [] then []
    else
      var k := IndexOf(s, sep[0]);
      if k == |s| then [s]
      else
        var rest := if k + |sep| <= |s| then s[k + |sep|..] else [];
        [s[..k]] + Split(rest, sep)
  }

  lemma {:induction false} JoinStartsWithFirst(xs: seq<string>, sep: string)
    requires |xs| > 0
    ensures |Join(xs, sep)| >= |xs[0]|
    ensures Join(xs, sep)[..|xs[0]|] == xs[0]
  {
    if |xs| > 1 {
      assert Join(xs, sep) == xs[0] + (sep + Join(xs[1..], sep));
    }
  }

  /** Joining items that are non-empty and free of the separator's first character can be undone. */
  lemma {:induction false} SplitJoin(xs: seq<string>, sep: string)
    requires |sep| > 0
    requires forall i :: 0 <= i < |xs| ==> xs[i] != "" && sep[0] !in xs[i]
    ensures Split(Join(xs, sep), sep) == xs
  {
    if |xs| == 0 {
    } else if |xs| == 1 {
      var s := xs[0];
      assert IndexOf(s, sep[0]) == |s|;
    } else {
      var rest := Join(xs[1..], sep);
      var s := Join(xs, sep);
      assert s == xs[0] + sep + rest;
      JoinStartsWithFirst(xs[1..], sep);
      assert rest != [];
      var n := |xs[0]|;
      assert s[n] == sep[0];
      assert forall i :: 0 <= i < n ==> s[i] == xs[0][i];
      assert IndexOf(s, sep[0]) == n;
      assert s[..n] == xs[0];
      assert s[n + |sep|..] == rest;
      SplitJoin(xs[1..], sep);
      assert Split(s, sep) == [xs[0]] + xs[1..];
    }
  }
}
