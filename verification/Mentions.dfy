/**
 `extractMentions` of threads-be/src/modules/messages/messages.service.ts:211-221: a global regular
 expression, an `@` and a run of word characters, applied until it finds no more; then duplicates are dropped.
 */
module Mentions {
  import opened Collections

  /** A word character of the regular expression. */
  predicate IsWord(c: char) {
    'a' <= c <= 'z' || 'A' <= c <= 'Z' || '0' <= c <= '9' || c == '_'
  }

  /** Where the run of word characters that starts at `i` ends. */
  function RunEnd(s: string, i: nat): (e: nat)
    requires i <= |s|
    ensures i <= e <= |s|
    decreases |s| - i
  {
    if i < |s| && IsWord(s[i]) then RunEnd(s, i + 1) else i
  }

  /** It is the maximal run: word characters only, and none right after it. */
  lemma {:induction false} RunIsMaximal(s: string, i: nat)
    requires i <= |s|
    ensures forall k :: i <= k < RunEnd(s, i) ==> IsWord(s[k])
    ensures RunEnd(s, i) < |s| ==> !IsWord(s[RunEnd(s, i)])
    decreases |s| - i
  {
    if i < |s| && IsWord(s[i]) {
      RunIsMaximal(s, i + 1);
    }
  }

  /** A mention starts here: an `@` with a word character next. */
  predicate StartsAt(s: string, i: nat) {
    i + 1 < |s| && s[i] == '@' && IsWord(s[i + 1])
  }

  function MentionAt(s: string, i: nat): string
    requires StartsAt(s, i)
  {
    s[i + 1..RunEnd(s, i + 1)]
  }

  /** All mentions that start at or after `i`, looking at every position: the meaning of the scan. */
  function MentionsFrom(s: string, i: nat): seq<string>
    decreases |s| - i
  {
    if i >= |s| then []
    else (if StartsAt(s, i) then [MentionAt(s, i)] else []) + MentionsFrom(s, i + 1)
  }

  /** No mention starts inside a run, so skipping it loses none. */
  lemma {:induction false} SkipQuiet(s: string, i: nat, j: nat)
    requires i <= j <= |s| && forall k :: i <= k < j ==> !StartsAt(s, k)
    ensures MentionsFrom(s, i) == MentionsFrom(s, j)
    decreases j - i
  {
    if i < j {
      assert !StartsAt(s, i);
      SkipQuiet(s, i + 1, j);
    }
  }

  lemma NoStartInRun(s: string, i: nat)
    requires StartsAt(s, i)
    ensures MentionsFrom(s, i) == [MentionAt(s, i)] + MentionsFrom(s, RunEnd(s, i + 1))
  {
    RunIsMaximal(s, i + 1);
    SkipQuiet(s, i + 1, RunEnd(s, i + 1));
  }

  /** One `exec`: the first match at or after `lastIndex`, and where the next search begins. */
  method Exec(s: string, lastIndex: nat) returns (found: bool, match1: string, next: nat)
    requires lastIndex <= |s|
    ensures found ==> lastIndex < next <= |s| && MentionsFrom(s, lastIndex) == [match1] + MentionsFrom(s, next)
    ensures !found ==> MentionsFrom(s, lastIndex) == []
  {
    var i := lastIndex;
    while i < |s|
      invariant lastIndex <= i <= |s|
      invariant MentionsFrom(s, lastIndex) == MentionsFrom(s, i)
    {
      if StartsAt(s, i) {
        NoStartInRun(s, i);
        return true, MentionAt(s, i), RunEnd(s, i + 1);
      }
      i := i + 1;
    }
    return false, "", 0;
  }

  /** The scanning loop: it finds every mention in the text, in order, and then keeps first occurrences. */
  method ExtractMentions(content: string) returns (mentions: seq<string>)
    ensures mentions == FirstOccurrences(MentionsFrom(content, 0))
  {
    mentions := [];
    var lastIndex: nat := 0;
    var found, m, next := Exec(content, lastIndex);
    while found
      invariant lastIndex <= |content|
      invariant found ==> lastIndex < next <= |content|
      invariant found ==> MentionsFrom(content, lastIndex) == [m] + MentionsFrom(content, next)
      invariant !found ==> MentionsFrom(content, lastIndex) == []
      invariant MentionsFrom(content, 0) == mentions + MentionsFrom(content, lastIndex)
      decreases found, |content| - lastIndex
    {
      mentions := mentions + [m];
      lastIndex := next;
      found, m, next := Exec(content, lastIndex);
    }
    assert mentions + [] == mentions;
    mentions := FirstOccurrences(mentions);                // as a set keeps them
  }

  // ---------------------------------------------------------------------------------------
  // What the result is
  // ---------------------------------------------------------------------------------------

  /** At `i` stands an `@`, then this text of word characters, and after it no further one. */
  predicate IsMention(s: string, i: nat, x: string) {
    var end := i + 1 + |x|;
    && end <= |s| && s[i] == '@' && x != "" && s[i + 1..end] == x
    && (forall c :: c in x ==> IsWord(c))
    && (end < |s| ==> !IsWord(s[end]))
  }

  lemma {:induction false} RunEndIs(s: string, i: nat, e: nat)
    requires i <= e <= |s| && (forall k :: i <= k < e ==> IsWord(s[k])) && (e < |s| ==> !IsWord(s[e]))
    ensures RunEnd(s, i) == e
    decreases e - i
  {
    if i < e { RunEndIs(s, i + 1, e); }
  }

  lemma MentionAtIff(s: string, i: nat, x: string)
    ensures StartsAt(s, i) && MentionAt(s, i) == x <==> IsMention(s, i, x)
  {
    if StartsAt(s, i) { RunIsMaximal(s, i + 1); }
    if IsMention(s, i, x) {
      forall k | i + 1 <= k < i + 1 + |x| ensures IsWord(s[k]) { assert s[k] == x[k - i - 1]; }
      RunEndIs(s, i + 1, i + 1 + |x|);
    }
  }

  lemma {:induction false} StartedIff(s: string, from: nat, x: string)
    ensures x in MentionsFrom(s, from) <==> exists i: nat :: from <= i && StartsAt(s, i) && MentionAt(s, i) == x
    decreases |s| - from
  {
    if from < |s| {
      StartedIff(s, from + 1, x);
      var head := if StartsAt(s, from) then [MentionAt(s, from)] else [];
      assert x in head + MentionsFrom(s, from + 1) <==> x in head || x in MentionsFrom(s, from + 1);
    }
  }

  /** A text is mentioned exactly when it stands, as a maximal run of word characters, after some `@`. */
  lemma MentionedIff(s: string, from: nat, x: string)
    ensures x in MentionsFrom(s, from) <==> exists i: nat :: from <= i && IsMention(s, i, x)
  {
    StartedIff(s, from, x);
    forall i: nat ensures StartsAt(s, i) && MentionAt(s, i) == x <==> IsMention(s, i, x) {
      MentionAtIff(s, i, x);
    }
  }

  /** Letters, digits and the underscore belong to a mention, a hyphen and a full stop end it; `@@` starts once. */
  lemma MentionsExample()
    ensures MentionsFrom("@Az_09-z @@b.", 0) == ["Az_09", "b"]
  {
    var s := "@Az_09-z @@b.";
    RunEndIs(s, 1, 6);
    RunEndIs(s, 11, 12);
    assert s[1..6] == "Az_09" && s[11..12] == "b";
    SkipQuiet(s, 1, 10);
    SkipQuiet(s, 11, |s|);
  }

  /** The positions are taken in ascending order, one mention each. */
  function Starts(s: string, from: nat): seq<nat>
    decreases |s| - from
  {
    if from >= |s| then [] else (if StartsAt(s, from) then [from] else []) + Starts(s, from + 1)
  }

  /** The k-th mention is the one at the k-th start. */
  predicate InStep(s: string, from: nat, k: nat) {
    && k < |Starts(s, from)| == |MentionsFrom(s, from)|
    && from <= Starts(s, from)[k] && StartsAt(s, Starts(s, from)[k])
    && MentionsFrom(s, from)[k] == MentionAt(s, Starts(s, from)[k])
  }

  predicate Ascending(starts: seq<nat>) {
    forall k, l :: 0 <= k < l < |starts| ==> starts[k] < starts[l]
  }

  lemma {:induction false} MentionsInOrder(s: string, from: nat)
    ensures |MentionsFrom(s, from)| == |Starts(s, from)|
    ensures forall k: nat :: k < |Starts(s, from)| ==> InStep(s, from, k)
    ensures Ascending(Starts(s, from))
    decreases |s| - from
  {
    if from < |s| {
      MentionsInOrder(s, from + 1);
      var rest := Starts(s, from + 1);
      forall k: nat | k < |rest| ensures from < rest[k] { assert InStep(s, from + 1, k); }
      var d := if StartsAt(s, from) then 1 else 0;
      forall k: nat | k < |Starts(s, from)| ensures InStep(s, from, k) {
        if k >= d { assert InStep(s, from + 1, k - d); }
      }
    }
  }

  /** Of the mentions, the result keeps every text once, at the place of its first occurrence. */
  lemma KeepsFirsts(s: string, from: nat, n: nat)
    requires n <= |MentionsFrom(s, from)|
    ensures var all := MentionsFrom(s, from);
            && NoRepeats(FirstOccurrences(all))
            && (forall x :: x in FirstOccurrences(all) <==> x in all)
            && FirstOccurrences(all[..n]) <= FirstOccurrences(all)
  {
    var all := MentionsFrom(s, from);
    FirstOccurrencesDistinct(all);
    FirstOccurrencesGrow(all[..n], all[n..]);
    assert all[..n] + all[n..] == all;
  }
}
