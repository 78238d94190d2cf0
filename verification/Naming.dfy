/** Session names as lab names: sanitize of pkg/spec/topology.go. */
module Naming {

  const MAX_NAME := 48

  predicate Safe(c: char) {
    'a' <= c <= 'z' || 'A' <= c <= 'Z' || '0' <= c <= '9' || c == '_' || c == '.' || c == '-'
  }

  predicate AllSafe(s: string) {
    forall i :: 0 <= i < |s| ==> Safe(s[i])
  }

  predicate Edge(c: char) { c == '-' || c == '.' || c == '_' }

  /** Every run of unsafe characters becomes one hyphen; `run` says that one was just written. */
  function Collapse(s: string, run: bool): (r: string)
    ensures AllSafe(r)
  {
    if s == "" then ""
    else if Safe(s[0]) then [s[0]] + Collapse(s[1..], false)
    else if run then Collapse(s[1..], true)
    else ['-'] + Collapse(s[1..], true)
  }

  function TrimLeft(s: string): (r: string)
    ensures AllSafe(s) ==> AllSafe(r)
    ensures r != "" ==> !Edge(r[0])
    ensures |r| <= |s|
  {
    if s != "" && Edge(s[0]) then TrimLeft(s[1..]) else s
  }

  function TrimRight(s: string): (r: string)
    ensures r <= s
    ensures r != "" ==> !Edge(r[|r| - 1])
  {
    if s != "" && Edge(s[|s| - 1]) then TrimRight(s[..|s| - 1]) else s
  }

  /** Without an edge character at either end. */
  predicate Trimmed(s: string) {
    s != "" ==> !Edge(s[0]) && !Edge(s[|s| - 1])
  }

  function Trim(s: string): (r: string)
    ensures AllSafe(s) ==> AllSafe(r)
    ensures Trimmed(r)
  {
    var t := TrimLeft(s);
    TrimRight(t)
  }

  /** The name before it is cut to length. */
  function Uncut(s: string): (r: string)
    ensures AllSafe(r) && Trimmed(r)
  {
    Trim(Collapse(s, false))
  }

  function Sanitize(s: string): (r: string)
    ensures AllSafe(r) && |r| <= MAX_NAME
    ensures r != "" ==> !Edge(r[0])
  {
    var t := Uncut(s);
    if |t| > MAX_NAME then t[..MAX_NAME] else t
  }

  lemma {:induction false} CollapseKeepsSafe(s: string)
    requires AllSafe(s)
    ensures Collapse(s, false) == s
  {
    if s != "" { CollapseKeepsSafe(s[1..]); }
  }

  predicate AllUnsafe(s: string) {
    forall i :: 0 <= i < |s| ==> !Safe(s[i])
  }

  predicate AllEdges(s: string) {
    forall i :: 0 <= i < |s| ==> Edge(s[i])
  }

  /** Safe characters stay, and a run of unsafe ones, however long, becomes one hyphen. */
  lemma {:induction false} RunBecomesHyphen(a: string, run: string, b: string)
    requires AllSafe(a) && run != "" && AllUnsafe(run) && (b == "" || Safe(b[0]))
    ensures Collapse(a + run + b, false) == a + "-" + Collapse(b, false)
  {
    if a != "" {
      assert (a + run + b)[1..] == a[1..] + run + b;
      RunBecomesHyphen(a[1..], run, b);
    } else {
      assert a + run + b == run + b && (run + b)[1..] == run[1..] + b;
      RunIsSkipped(run[1..], b);
    }
  }

  lemma {:induction false} RunIsSkipped(run: string, b: string)
    requires AllUnsafe(run) && (b == "" || Safe(b[0]))
    ensures Collapse(run + b, true) == Collapse(b, false)
  {
    if run != "" {
      assert (run + b)[1..] == run[1..] + b;
      RunIsSkipped(run[1..], b);
    } else {
      assert run + b == b;
    }
  }

  /** Trimming takes edge characters off both ends and nothing else. */
  lemma TrimTakesEdges(s: string) returns (left: string, right: string)
    ensures s == left + Trim(s) + right && AllEdges(left) && AllEdges(right)
  {
    left := TrimLeftTakes(s);
    right := TrimRightTakes(TrimLeft(s));
  }

  lemma {:induction false} TrimLeftTakes(s: string) returns (left: string)
    ensures s == left + TrimLeft(s) && AllEdges(left)
  {
    if s != "" && Edge(s[0]) {
      var l := TrimLeftTakes(s[1..]);
      left := [s[0]] + l;
    } else {
      left := "";
    }
  }

  lemma {:induction false} TrimRightTakes(s: string) returns (right: string)
    ensures s == TrimRight(s) + right && AllEdges(right)
  {
    if s != "" && Edge(s[|s| - 1]) {
      var r := TrimRightTakes(s[..|s| - 1]);
      right := r + [s[|s| - 1]];
    } else {
      right := "";
    }
  }

  /** A lab name is the trimmed name, cut to length if it is longer; a name that is one already stays. */
  lemma SanitizeCuts(s: string)
    ensures var t := Trim(Collapse(s, false));
      Sanitize(s) <= t && |Sanitize(s)| == if |t| <= 48 then |t| else 48
    ensures AllSafe(s) && Trimmed(s) && |s| <= 48 ==> Sanitize(s) == s
  {
    if AllSafe(s) && Trimmed(s) {
      CollapseKeepsSafe(s);
      assert TrimLeft(s) == s && TrimRight(s) == s;
    }
  }

  lemma {:induction false} TrimRightKeepsFront(s: string)
    requires s != "" && !Edge(s[0])
    ensures TrimRight(s) != "" && TrimRight(s)[0] == s[0]
  {
    if Edge(s[|s| - 1]) { TrimRightKeepsFront(s[..|s| - 1]); }
  }

  /** The name survives a second pass exactly when the cut did not leave an edge character at its end. */
  predicate CutIsClean(s: string) {
    var t := Uncut(s);
    |t| > MAX_NAME ==> !Edge(t[MAX_NAME - 1])
  }

  lemma SanitizeTwiceIff(s: string)
    ensures Sanitize(Sanitize(s)) == Sanitize(s) <==> CutIsClean(s)
  {
    var r := Sanitize(s);
    CollapseKeepsSafe(r);
    assert TrimLeft(r) == r;
    if r != "" && Edge(r[|r| - 1]) {
      assert |TrimRight(r)| < |r|;
    }
  }

  /** Sanitising twice always reaches a fixed point. */
  lemma SanitizeTwiceIsFixed(s: string)
    ensures Sanitize(Sanitize(Sanitize(s))) == Sanitize(Sanitize(s))
  {
    var r := Sanitize(s);
    CollapseKeepsSafe(r);
    assert TrimLeft(r) == r;
    var q := Sanitize(r);
    assert q == TrimRight(r) && Trimmed(q);
    SanitizeTwiceIff(r);
  }

  /** A usable name stays usable: a second pass never empties it. */
  lemma SanitizeStaysUsable(s: string)
    requires Sanitize(s) != ""
    ensures Sanitize(Sanitize(s)) != ""
  {
    var r := Sanitize(s);
    CollapseKeepsSafe(r);
    assert TrimLeft(r) == r;
    TrimRightKeepsFront(r);
  }

  /** A name that CreateSession accepts and a second pass changes: 47 letters, a hyphen and one more letter. */
  lemma UncleanCutExists()
    ensures var s := seq(47, i => 'a') + "-a";
      |s| <= 63 && !CutIsClean(s)
  {
    var s := seq(47, i => 'a') + "-a";
    CollapseKeepsSafe(s);
    assert Uncut(s) == s;
  }
}
