/**
 Scripted answers of a yes/no collaborator that a loop polls once per
 iteration (`distinct_tokens?`, `grid.end?`). A loop that runs "while the
 answer is false" consumes exactly the leading `false` answers and the first
 `true`.
 */
module Oracles {

  /** The position of the first `true` at or after `from`; `|s|` when there is none. */
  function FirstTrueFrom(s: seq<bool>, from: nat): (n: nat)
    requires from <= |s|
    ensures from <= n <= |s|
    ensures forall i :: from <= i < n ==> !s[i]
    ensures n < |s| ==> s[n]
    decreases |s| - from
  {
    if from == |s| || s[from] then from else FirstTrueFrom(s, from + 1)
  }

  /** The number of answers before the first `true`; `|s|` when none is `true`. */
  function LeadingFalses(s: seq<bool>): (n: nat)
    ensures n <= |s|
    ensures forall i :: 0 <= i < n ==> !s[i]
    ensures n < |s| ==> s[n]
  {
    FirstTrueFrom(s, 0)
  }

  /** Any index with only `false` before it and `true` (or the end) at it is
      the one `LeadingFalses` finds. */
  lemma LeadingFalsesIsFirstTrue(s: seq<bool>, n: nat)
    requires n <= |s|
    requires forall i :: 0 <= i < n ==> !s[i]
    requires n < |s| ==> s[n]
    ensures LeadingFalses(s) == n
  {
  }

  /** A loop polling `s` stops inside the script exactly when some answer is `true`. */
  lemma StopsIffSomeTrue(s: seq<bool>)
    ensures LeadingFalses(s) < |s| <==> true in s
  {
  }

  /** `n` times `false`, then `true`: the answers the turn-loop test scripts. */
  function Scripted(n: nat): (s: seq<bool>)
    ensures |s| == n + 1
    ensures forall i :: 0 <= i < n ==> !s[i]
    ensures s[n]
  {
    seq(n, i => false) + [true]
  }

  lemma ScriptedStopsAfter(n: nat)
    ensures LeadingFalses(Scripted(n)) == n
  {
  }
}
