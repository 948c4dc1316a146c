/**
 The examples of `spec/game_spec.rb`, replayed through the model with the
 same scripted collaborators; the outcomes each example expects are proved
 as postconditions.
 */
module Scenarios {
  import opened Oracles
  import opened Players
  import opened Calls
  import opened Game

  const Player1: Player := Player("Claire", "C", 1)
  const Player2: Player := Player("Teresa", "T", 2)
  const Player3: Player := Player("Teresa", "C", 2)

  /** Distinct acquired tokens ('C' and 'T'): `@players` goes from `[]` to
      `[player1, player2]` and no token is fetched or inserted. */
  method DistinctTokensScenario() returns (r: Result<State>, log: seq<Event>)
    ensures r == Ok(State([Player1, Player2], 0))
    ensures Count(log, DistinctTokensCall(true)) == 1 && Count(log, DistinctTokensCall(false)) == 0
    ensures Count(log, FetchTokenCall) == 0 && Count(log, InsertTokenCall(2)) == 0
  {
    r, log := StartPlayersComparing(Fresh, Player1, Player2, []);
    assert Fresh.players + [Player1, Player2] == [Player1, Player2];
    SetupLogCounts(0);
  }

  /** Equal acquired tokens, `distinct_tokens?` answering four times `false`
      then `true` and `fetch_token` scripted 'C','C','C','C','T':
      `distinct_tokens?` is asked five times, four tokens are fetched and
      inserted into the seat-2 player, none into seat 1, and `@players` ends
      as `[player1, player3]`. */
  method SameTokensScenario() returns (r: Result<State>, log: seq<Event>)
    ensures r == Ok(State([Player1, Player3], 0))
    ensures Count(log, DistinctTokensCall(false)) + Count(log, DistinctTokensCall(true)) == 5
    ensures Count(log, FetchTokenCall) == 4
    ensures Count(log, InsertTokenCall(2)) == 4 && Count(log, InsertTokenCall(1)) == 0
  {
    var distinct := Scripted(4);
    var tokens: seq<Token> := ["C", "C", "C", "C", "T"];
    ScriptedStopsAfter(4);
    r, log := StartPlayers(Fresh, Player1, Player3, distinct, tokens);
    assert Reselected(Player3, tokens, 4) == Player3;
    assert Fresh.players + [Player1, Player3] == [Player1, Player3];
    SetupLogCounts(4);
  }

  /** `grid.end?` answering `n` times `false` then `true`: `play_turn` runs
      `n` times, `grid.end?` is asked `n + 1` times and `@turn` goes from 0
      to `n` (the examples use `n` = 10). */
  method ScriptedTurnsScenario(n: nat) returns (r: Result<State>, log: seq<Event>)
    ensures r == Ok(State([], n))
    ensures Count(log, PlayTurnCall) == n
    ensures Count(log, EndCall(false)) + Count(log, EndCall(true)) == n + 1
  {
    ScriptedStopsAfter(n);
    r, log := AlternateTurns(Fresh, Scripted(n));
    TurnLogCounts(n);
  }
}
