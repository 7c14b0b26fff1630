/** Types and text helpers shared by the models. */
module Basics {

  datatype Option<+T> = None | Some(value: T)

  /** Some element of a non-empty set. */
  ghost function Pick<T>(s: set<T>): (x: T)
    requires s != {}
    ensures x in s
  {
    var x :| x in s; x
  }

  /** The next element of an iteration whose order does not matter. */
  method Take<T(==)>(s: set<T>) returns (x: T)
    requires s != {}
    ensures x in s
  {
    x :| x in s;
  }

  ghost predicate NoRepeats<T>(s: seq<T>) {
    forall i, j :: 0 <= i < j < |s| ==> s[i] != s[j]
  }

  /** a comes before b in the order (key, id). */
  predicate Earlier(key: map<int, Time>, a: int, b: int)
    requires a in key && b in key
  {
    key[a] < key[b] || (key[a] == key[b] && a < b)
  }

  /** ids lists s in the order (key, id). */
  ghost predicate Lists(ids: seq<int>, key: map<int, Time>, s: set<int>) {
    && s <= key.Keys
    && (forall x :: x in ids <==> x in s)
    && (forall i, j :: 0 <= i < j < |ids| ==> ids[i] in s && ids[j] in s && Earlier(key, ids[i], ids[j]))
  }

  /** The head of `ORDER BY key ASC, id ASC`. */
  method Earliest(key: map<int, Time>, s: set<int>) returns (m: int)
    requires s != {} && s <= key.Keys
    ensures m in s && forall x :: x in s && x != m ==> Earlier(key, m, x)
  {
    m := Take(s);
    var todo := s - {m};
    while todo != {}
      invariant todo <= s && m in s && m !in todo
      invariant forall x :: x in s && x !in todo && x != m ==> Earlier(key, m, x)
      decreases |todo|
    {
      var x := Take(todo);
      if Earlier(key, x, m) {
        m := x;
      }
      todo := todo - {x};
    }
  }

  /** The rows of `ORDER BY key ASC, id ASC`. */
  method InOrder(key: map<int, Time>, s: set<int>) returns (ids: seq<int>)
    requires s <= key.Keys
    ensures Lists(ids, key, s) && NoRepeats(ids) && |ids| == |s|
  {
    ids := [];
    var todo := s;
    while todo != {}
      invariant todo <= s && |ids| + |todo| == |s|
      invariant Lists(ids, key, s - todo)
      invariant forall x, y :: x in ids && y in todo ==> Earlier(key, x, y)
    {
      var m := Earliest(key, todo);
      ids := ids + [m];
      todo := todo - {m};
    }
    assert s - todo == s;
  }

  // ----- Reversal ------------------------------------------------------------------------------------------

  function Reversed<T>(s: seq<T>): (r: seq<T>)
    ensures |r| == |s|
  {
    if s == [] then [] else [s[|s| - 1]] + Reversed(s[..|s| - 1])
  }

  lemma {:induction false} ReversedAt<T>(s: seq<T>, k: nat)
    requires k < |s|
    ensures Reversed(s)[k] == s[|s| - 1 - k]
    decreases k
  {
    if k > 0 {
      ReversedAt(s[..|s| - 1], k - 1);
    }
  }

  lemma {:induction false} ReversedConcat<T>(a: seq<T>, b: seq<T>)
    ensures Reversed(a + b) == Reversed(b) + Reversed(a)
  {
    if b == [] {
      assert a + b == a;
    } else {
      assert (a + b)[..|a + b| - 1] == a + b[..|b| - 1];
      ReversedConcat(a, b[..|b| - 1]);
    }
  }

  /** The swap loop of the record lists: i from the front, j from the back. */
  method ReverseInPlace<T>(a: array<T>)
    modifies a
    ensures a[..] == Reversed(old(a[..]))
  {
    var i, j := 0, a.Length - 1;
    while i < j
      invariant 0 <= i <= a.Length && j == a.Length - 1 - i
      invariant forall k :: 0 <= k < i ==> a[k] == old(a[a.Length - 1 - k]) && a[a.Length - 1 - k] == old(a[k])
      invariant forall k :: i <= k <= j ==> a[k] == old(a[k])
    {
      a[i], a[j] := a[j], a[i];
      i, j := i + 1, j - 1;
    }
    ghost var before := old(a[..]);
    forall k | 0 <= k < a.Length ensures a[k] == Reversed(before)[k] {
      ReversedAt(before, k);
    }
  }

  method Reverse<T>(s: seq<T>) returns (r: seq<T>)
    ensures r == Reversed(s)
  {
    var a := new T[|s|](i requires 0 <= i < |s| => s[i]);
    assert a[..] == s;
    ReverseInPlace(a);
    r := a[..];
  }

  /** Points in time and durations, in nanoseconds. */
  type Time = int

  const SECOND: Time := 1_000_000_000
  const MINUTE: Time := 60 * SECOND

  /** The characters `strings.TrimSpace` removes (unicode.IsSpace). */
  predicate IsSpace(c: char) {
    || '\t' <= c <= '\r'
    || c == ' ' || c == '\U{0085}' || c == '\U{00A0}' || c == '\U{1680}'
    || '\U{2000}' <= c <= '\U{200A}'
    || c == '\U{2028}' || c == '\U{2029}' || c == '\U{202F}' || c == '\U{205F}' || c == '\U{3000}'
  }

  function TrimLeft(s: string): string {
    if s != [] && IsSpace(s[0]) then TrimLeft(s[1..]) else s
  }

  function TrimRight(s: string): string {
    if s != [] && IsSpace(s[|s| - 1]) then TrimRight(s[..|s| - 1]) else s
  }

  function Trim(s: string): string {
    TrimRight(TrimLeft(s))
  }

  /** `strings.TrimSpace(s) == ""`. */
  predicate Blank(s: string) {
    forall i :: 0 <= i < |s| ==> IsSpace(s[i])
  }

  /** No space at either end. */
  predicate Tight(s: string) {
    s != [] ==> !IsSpace(s[0]) && !IsSpace(s[|s| - 1])
  }

  lemma TightIsTrimmed(s: string)
    requires Tight(s)
    ensures Trim(s) == s
  {
  }

  lemma {:induction false} TrimRightKeepsHead(s: string)
    ensures var t := TrimRight(s);
            t <= s && (t != [] ==> t[0] == s[0] && !IsSpace(t[|t| - 1])) && (t == [] <==> Blank(s))
  {
    if s != [] && IsSpace(s[|s| - 1]) {
      TrimRightKeepsHead(s[..|s| - 1]);
    }
  }

  lemma {:induction false} TrimLeftDropsBlanks(s: string)
    ensures var t := TrimLeft(s); (t != [] ==> !IsSpace(t[0])) && (Blank(t) <==> Blank(s))
  {
    if s != [] && IsSpace(s[0]) {
      TrimLeftDropsBlanks(s[1..]);
      assert forall i :: 0 < i < |s| ==> s[i] == s[1..][i - 1];
    }
  }

  /** TrimSpace takes away exactly the space around a text without space at its ends. */
  lemma TrimStripsBlanks(before: string, text: string, after: string)
    requires Blank(before) && Blank(after) && Tight(text)
    ensures Trim(before + text + after) == text
  {
    if text == "" {
      TrimIsTight(before + text + after);
    } else {
      TrimLeftStrips(before, text + after);
      assert before + text + after == before + (text + after);
      TrimRightStrips(text, after);
    }
  }

  lemma {:induction false} TrimLeftStrips(before: string, s: string)
    requires Blank(before) && s != "" && !IsSpace(s[0])
    ensures TrimLeft(before + s) == s
  {
    if before == "" {
      assert before + s == s;
    } else {
      assert (before + s)[1..] == before[1..] + s;
      TrimLeftStrips(before[1..], s);
    }
  }

  lemma {:induction false} TrimRightStrips(s: string, after: string)
    requires Blank(after) && s != "" && !IsSpace(s[|s| - 1])
    ensures TrimRight(s + after) == s
  {
    if after == "" {
      assert s + after == s;
    } else {
      var n := |after| - 1;
      assert (s + after)[..|s| + n] == s + after[..n];
      TrimRightStrips(s, after[..n]);
    }
  }

  /** What TrimSpace returns has no space at either end, and it is empty exactly for blank text. */
  lemma TrimIsTight(s: string)
    ensures Tight(Trim(s)) && (Trim(s) == "" <==> Blank(s))
  {
    TrimLeftDropsBlanks(s);
    TrimRightKeepsHead(TrimLeft(s));
  }
}
