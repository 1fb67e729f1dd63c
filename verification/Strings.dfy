/** The string searches of the C++ standard library and of Boost that the modelled code relies on. */
module Strings {
  import opened Basics

  predicate OccursAt(s: string, word: string, i: int) {
    0 <= i && i + |word| <= |s| && s[i..i + |word|] == word
  }

  predicate Without(s: string, c: char) {
    forall i | 0 <= i < |s| :: s[i] != c
  }

  /** The first occurrence of `word` at or after `from`. */
  function Find(s: string, word: string, from: nat): (r: Option<nat>)
    ensures r.Some? ==> from <= r.value && r.value + |word| <= |s|
    decreases |s| + 1 - from
  {
    if from > |s| then None
    else if OccursAt(s, word, from) then Some(from)
    else Find(s, word, from + 1)
  }

  /** The last occurrence of `word` that starts before `to`. */
  function FindLast(s: string, word: string, to: nat): (r: Option<nat>)
    ensures r.Some? ==> r.value < to && r.value + |word| <= |s|
  {
    if to == 0 then None
    else if OccursAt(s, word, to - 1) then Some(to - 1)
    else FindLast(s, word, to - 1)
  }

  /** The first `c` at or after `from`. */
  function FindChar(s: string, c: char, from: nat): (r: Option<nat>)
    ensures r.Some? ==> from <= r.value < |s| && s[r.value] == c
    decreases |s| - from
  {
    if from >= |s| then None
    else if s[from] == c then Some(from)
    else FindChar(s, c, from + 1)
  }

  lemma {:induction false} FindLastAt(s: string, word: string, to: nat, k: nat)
    requires k < to && OccursAt(s, word, k) && forall i | k < i < to :: !OccursAt(s, word, i)
    ensures FindLast(s, word, to) == Some(k)
  {
    if k < to - 1 {
      FindLastAt(s, word, to - 1, k);
    }
  }

  lemma {:induction false} FindCharFirst(s: string, c: char, from: nat, k: nat)
    requires from <= k < |s| && s[k] == c && forall i | from <= i < k :: s[i] != c
    ensures FindChar(s, c, from) == Some(k)
    decreases k - from
  {
    if from < k {
      FindCharFirst(s, c, from + 1, k);
    }
  }

  lemma {:induction false} FindCharNone(s: string, c: char, from: nat)
    requires forall i | from <= i < |s| :: s[i] != c
    ensures FindChar(s, c, from) == None
    decreases |s| - from
  {
    if from < |s| {
      FindCharNone(s, c, from + 1);
    }
  }

  /** Before the first `c` there is none, and without a first one there is none at all. */
  lemma {:induction false} FindCharBefore(s: string, c: char, from: nat, i: nat)
    requires from <= i < |s| && (FindChar(s, c, from).Some? ==> i < FindChar(s, c, from).value)
    ensures s[i] != c
    decreases i - from
  {
    if from < i {
      FindCharBefore(s, c, from + 1, i);
    }
  }

  lemma {:induction false} FindLastAfter(s: string, word: string, to: nat, i: nat)
    requires i < to && (FindLast(s, word, to).Some? ==> FindLast(s, word, to).value < i)
    ensures !OccursAt(s, word, i)
  {
    if i < to - 1 {
      FindLastAfter(s, word, to - 1, i);
    }
  }

  function TrimLeft(s: string, blank: set<char>): string {
    if s != "" && s[0] in blank then TrimLeft(s[1..], blank) else s
  }

  function TrimRight(s: string, blank: set<char>): string {
    if s != "" && s[|s| - 1] in blank then TrimRight(s[..|s| - 1], blank) else s
  }

  function Trim(s: string, blank: set<char>): string {
    TrimRight(TrimLeft(s, blank), blank)
  }

  predicate Trimmed(s: string, blank: set<char>) {
    s != "" ==> s[0] !in blank && s[|s| - 1] !in blank
  }

  lemma {:induction false} TrimLeftBlanks(pre: string, s: string, blank: set<char>)
    requires forall c | c in pre :: c in blank
    ensures TrimLeft(pre + s, blank) == TrimLeft(s, blank)
  {
    if pre == "" {
      assert pre + s == s;
    } else {
      assert (pre + s)[1..] == pre[1..] + s;
      TrimLeftBlanks(pre[1..], s, blank);
    }
  }

  lemma {:induction false} TrimRightBlanks(s: string, end: string, blank: set<char>)
    requires Trimmed(s, blank) && forall c | c in end :: c in blank
    ensures TrimRight(s + end, blank) == s
  {
    if end == "" {
      assert s + end == s;
    } else {
      assert end[|end| - 1] in end;
      assert (s + end)[..|s + end| - 1] == s + end[..|end| - 1];
      TrimRightBlanks(s, end[..|end| - 1], blank);
    }
  }
}
