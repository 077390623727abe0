/** The white space of Unicode and strings.TrimSpace of the Go library. */
module Strings {

  predicate IsSpace(c: char) {
    c in {'\t', '\n', '\U{B}', '\U{C}', '\r', ' ', '\U{85}', '\U{A0}', '\U{1680}', '\U{2028}', '\U{2029}', '\U{202F}', '\U{205F}', '\U{3000}'}
    || '\U{2000}' <= c <= '\U{200A}'
  }

  function TrimLeft(s: string): string {
    if s != "" && IsSpace(s[0]) then TrimLeft(s[1..]) else s
  }

  function TrimRight(s: string): string {
    if s != "" && IsSpace(s[|s| - 1]) then TrimRight(s[..|s| - 1]) else s
  }

  function TrimSpace(s: string): string {
    TrimRight(TrimLeft(s))
  }

  ghost predicate AllSpace(s: string) {
    forall i :: 0 <= i < |s| ==> IsSpace(s[i])
  }

  /** No space at either end. */
  predicate IsTrimmed(s: string) {
    s != "" ==> !IsSpace(s[0]) && !IsSpace(s[|s| - 1])
  }

  /** Trimming takes the spaces at both ends, all of them and nothing else. */
  lemma TrimIff(s: string, t: string)
    ensures TrimSpace(s) == t <==>
              IsTrimmed(t) && exists left, right :: AllSpace(left) && AllSpace(right) && s == left + t + right
  {
    hide *;
    if left, right :| AllSpace(left) && AllSpace(right) && s == left + t + right && IsTrimmed(t) {
      TrimOfPadded(left, t, right);
    }
    TrimSplits(s);
  }

  lemma TrimSplits(s: string)
    ensures IsTrimmed(TrimSpace(s))
    ensures exists left, right :: AllSpace(left) && AllSpace(right) && s == left + TrimSpace(s) + right
  {
    var left := LeftOf(s);
    var right := RightOf(TrimLeft(s));
    assert s == left + TrimSpace(s) + right;
  }

  lemma {:induction false} LeftOf(s: string) returns (left: string)
    ensures AllSpace(left) && s == left + TrimLeft(s)
    ensures TrimLeft(s) != "" ==> !IsSpace(TrimLeft(s)[0])
  {
    if s != "" && IsSpace(s[0]) {
      left := LeftOf(s[1..]);
      left := [s[0]] + left;
      assert s == [s[0]] + s[1..];
    } else {
      left := "";
    }
  }

  lemma {:induction false} RightOf(s: string) returns (right: string)
    requires s != "" ==> !IsSpace(s[0])
    ensures AllSpace(right) && s == TrimRight(s) + right && IsTrimmed(TrimRight(s))
  {
    if s != "" && IsSpace(s[|s| - 1]) {
      right := RightOf(s[..|s| - 1]);
      right := right + [s[|s| - 1]];
      assert s == s[..|s| - 1] + [s[|s| - 1]];
    } else {
      right := "";
    }
  }

  lemma {:induction false} TrimOfPadded(left: string, t: string, right: string)
    requires AllSpace(left) && AllSpace(right) && IsTrimmed(t)
    ensures TrimSpace(left + t + right) == t
    decreases |left| + |right|
  {
    var s := left + t + right;
    if left != "" {
      assert s[0] == left[0] && s[1..] == left[1..] + t + right;
      TrimOfPadded(left[1..], t, right);
    } else if t == "" && right != "" {
      assert s[0] == right[0] && s[1..] == "" + t + right[1..];
      TrimOfPadded("", t, right[1..]);
    } else {
      assert s == t + right;
      TrimRightOf(t, right);
    }
  }

  lemma {:induction false} TrimRightOf(t: string, right: string)
    requires AllSpace(right) && IsTrimmed(t)
    ensures TrimRight(t + right) == t
  {
    var s := t + right;
    if right == "" {
      assert s == t;
    } else {
      assert s[|s| - 1] == right[|right| - 1] && s[..|s| - 1] == t + right[..|right| - 1];
      TrimRightOf(t, right[..|right| - 1]);
    }
  }

  lemma TrimKeeps(s: string)
    requires s != "" && !IsSpace(s[0]) && !IsSpace(s[|s| - 1])
    ensures TrimSpace(s) == s
  {
  }
}
