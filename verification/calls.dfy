/**
 The calls a `Game` loop makes on its collaborators, in order. Each poll of a
 yes/no collaborator records the answer it got, so a log shows both how often
 a collaborator was asked and what the loop was told.
 */
module Calls {

  datatype Event =
    | StartPlayerCall(seat: nat)         // start_player(seat)
    | DistinctTokensCall(answer: bool)   // distinct_tokens?
    | FetchTokenCall                     // fetch_token
    | InsertTokenCall(seat: nat)         // insert_token on the player of that seat
    | EndCall(answer: bool)              // grid.end?
    | PlayTurnCall                       // play_turn

  /** `n` loop iterations, each logging `round`. */
  function Rounds(round: seq<Event>, n: nat): seq<Event>
  {
    if n == 0 then [] else Rounds(round, n - 1) + round
  }

  /** How many times `e` occurs in `log`. */
  function Count(log: seq<Event>, e: Event): nat
  {
    multiset(log)[e]
  }

  /** Every `b` in `log` comes right after an `a`. */
  ghost predicate Guarded(log: seq<Event>, a: Event, b: Event)
  {
    forall i :: 0 <= i < |log| && log[i] == b ==> 0 < i && log[i - 1] == a
  }

  /** `n` rounds hold `n` copies of an event the round holds once, and none
      of an event the round does not hold. */
  lemma {:induction false} RoundsCount(round: seq<Event>, n: nat, e: Event)
    ensures Count(round, e) == 0 ==> Count(Rounds(round, n), e) == 0
    ensures Count(round, e) == 1 ==> Count(Rounds(round, n), e) == n
  {
    if n > 0 {
      RoundsCount(round, n - 1, e);
      assert multiset(Rounds(round, n)) == multiset(Rounds(round, n - 1)) + multiset(round);
    }
  }

  /** Appending a log that does not open with `b` keeps the order of both. */
  lemma GuardedConcat(x: seq<Event>, y: seq<Event>, a: Event, b: Event)
    requires Guarded(x, a, b) && Guarded(y, a, b)
    requires |y| > 0 ==> y[0] != b
    ensures Guarded(x + y, a, b)
  {
  }

  /** Repeating a round in which every `b` follows an `a` keeps that order. */
  lemma {:induction false} RoundsGuarded(round: seq<Event>, n: nat, a: Event, b: Event)
    requires Guarded(round, a, b)
    requires |round| > 0 ==> round[0] != b
    ensures Guarded(Rounds(round, n), a, b)
  {
    if n > 0 {
      RoundsGuarded(round, n - 1, a, b);
      GuardedConcat(Rounds(round, n - 1), round, a, b);
    }
  }
}
