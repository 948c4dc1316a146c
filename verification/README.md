# Connect-Four game loops

A Dafny model of the two control loops of the `Game` class of a two-player
Connect-Four engine, as its RSpec examples (`spec/game_spec.rb`) pin them
down. `lib/game.rb` and `lib/player.rb` are not part of this model; the
steps below are what the examples assert, plus three assumptions where the
examples leave the behaviour open:

- `fetch_token` is called once per pass of the setup loop. The examples only
  allow it, at most four times (`spec/game_spec.rb:39`); none requires it.
- The fetched token is the argument of `insert_token`. The expectation on
  `insert_token` (`spec/game_spec.rb:52`) constrains no argument.
- `insert_token` replaces the player's token and keeps its name and seat.
  The examples compare `player3` by identity (`spec/game_spec.rb:43-49`),
  whatever token it holds.

The two loops, as modelled:

- `start_players` acquires the seat-1 and seat-2 players (`start_player(1)`,
  `start_player(2)`), appends them in seat order to `@players`, and then, as
  long as `distinct_tokens?` answers `false`, fetches a token
  (`fetch_token`) and gives it to the seat-2 player (`insert_token`).
- `alternate_turns` asks `grid.end?` before every turn; on `false` it calls
  `play_turn` and adds one to `@turn`, and it stops at the first `true`.

The collaborators are scripts handed in by the caller: the two acquired
players, a `seq<bool>` of `distinct_tokens?` answers, a `seq<Token>` of
fetched tokens and a `seq<bool>` of `grid.end?` answers. A loop that needs
more answers than its script holds returns an `Err` naming the script; the
real loop would keep asking. Every call a loop makes is recorded in a log of
`Calls.Event`s, with the answer of each yes/no question, so that "called
exactly N times" and "asked before every turn" become facts about the log.

Files:

- `oracles.dfy` (`Oracles`): `LeadingFalses`, the number of answers a
  "while not answered true" loop consumes before its stopping answer.
- `players.dfy` (`Players`): `Player(name, token, number)` and `insert_token`.
- `calls.dfy` (`Calls`): the call log, `Rounds` of a repeated loop body,
  counting and ordering lemmas.
- `game.dfy` (`Game`): the `@players`/`@turn` state, both loops, and the
  lemmas about their logs.
- `scenarios.dfy` (`Scenarios`): the three example groups of the RSpec file,
  replayed through the model with the same scripts, with the expected
  outcomes proved as postconditions.

The first setup example stubs neither `distinct_tokens?` nor `fetch_token`,
so it runs the real comparison. `Game.StartPlayersComparing` models that
comparison as "the seat-1 token differs from the seat-2 token", fed to the
same loop. The second setup example stubs `fetch_token` for at most four
calls (`spec/game_spec.rb:39`) and stubs `distinct_tokens?` independently of
the tokens (`spec/game_spec.rb:36-38`), so the `T` in the token script is
never fetched; under the assumptions above seat 2 ends as `player3`, still
holding `C`.

## Model

| member | source | states |
|---|---|---|
| Oracles.LeadingFalses | spec/game_spec.rb:36-38 | the count of answers consumed before the stopping one: all answers before it are `false`, and the answer at it, when there is one, is `true` |
| Oracles.LeadingFalsesIsFirstTrue | spec/game_spec.rb:63-65 | any position with only `false` before it and `true` (or the end of the script) at it is the stopping position, so the stopping position is unique |
| Oracles.StopsIffSomeTrue | spec/game_spec.rb:36-38 | a polling loop stops within its script exactly when the script holds some `true` |
| Oracles.ScriptedStopsAfter | spec/game_spec.rb:63 | the script of `n` times `false` followed by `true` stops a polling loop after exactly `n` answers |
| Game.StartPlayers | spec/game_spec.rb:32-54 | with `k` leading `false` answers, setup succeeds exactly when the answers hold a `true` and at least `k` tokens were supplied; it fails for lack of tokens exactly when fewer than `k` were supplied; on success `@players` is the old list plus the unchanged seat-1 player and the seat-2 player holding the `k`-th fetched token (its own token when `k` is 0), `@turn` is unchanged, and the log is the two acquisitions, `k` rounds of (false answer, fetch, insert into seat 2), then the `true` answer |
| Game.ComparedAnswersStopOnDistinct | spec/game_spec.rb:17-29 | when the answers come from comparing tokens, the loop stops on a seat-2 token different from seat 1's; it never stops exactly when the acquired and every fetched token equal seat 1's; it stops at once when the acquired tokens differ |
| Game.StartPlayersComparing | spec/game_spec.rb:17-29 | with the real comparison, setup succeeds exactly when the acquired or some fetched token differs from seat 1's, and only fails for lack of tokens; on success two players are appended, seat 1 unchanged, seat 2 with its name and number kept and a token different from seat 1's, and the log is the setup log of the comparison's stopping point; with distinct acquired tokens the result is the two acquired players and no token is fetched; with equal acquired tokens seat 2 ends with the first fetched token that differs from seat 1's, after one loop pass per fetched token up to and including it |
| Players.InsertToken | spec/game_spec.rb:52 | `insert_token` gives the player the new token and keeps its name and seat number |
| Game.AlternateTurns | spec/game_spec.rb:58-79 | with `k` leading `false` answers of `grid.end?`, the loop succeeds exactly when a `true` answer exists; on success `@turn` grows by exactly `k` and `@players` is unchanged, and the log is `k` rounds of (false answer, `play_turn`) then the `true` answer; on failure it has played every scripted turn |
| Game.SetupLogCounts | spec/game_spec.rb:36-40 | a setup with `k` re-selections asks `distinct_tokens?` `k` times with answer `false` and once with `true`, calls `fetch_token` `k` times, calls `insert_token` `k` times on seat 2 and never on seat 1, and acquires each seat once |
| Game.TurnLogCounts | spec/game_spec.rb:63-71 | a turn loop that played `k` turns called `play_turn` `k` times and asked `grid.end?` `k + 1` times, `true` only once and last |
| Game.SetupLogOrder | spec/game_spec.rb:36-40 | in a setup log every `fetch_token` comes right after a `false` from `distinct_tokens?`, every `insert_token` right after a fetch, and the last call is the `true` answer |
| Game.TurnLogOrder | spec/game_spec.rb:63-71 | in a turn log every `play_turn` comes right after a `false` from `grid.end?` |
| Scenarios.DistinctTokensScenario | spec/game_spec.rb:17-29 | tokens `C` and `T`: `@players` goes from `[]` to `[player1, player2]` with one `true` answer and no fetch or insert |
| Scenarios.SameTokensScenario | spec/game_spec.rb:32-54 | answers false four times then true, tokens `C,C,C,C,T`: `@players` goes from `[]` to `[player1, player3]`, `distinct_tokens?` is asked five times, four tokens are fetched, four inserted into seat 2 and none into seat 1 |
| Scenarios.ScriptedTurnsScenario | spec/game_spec.rb:58-79 | `grid.end?` false `n` times then true (the examples use `n` = 10): `play_turn` runs `n` times, `grid.end?` is asked `n + 1` times, `@turn` goes from 0 to `n` |

## Left out

- Player acquisition, token prompting and move prompting (`start_player`, `fetch_token`, the input behind `play_turn`): terminal I/O, modelled only as the scripts above.
- The body of `play_turn`, including which seat moves: only the 'plays a turn' example mocks it (`spec/game_spec.rb:68-71`); 'updates @turn' (`spec/game_spec.rb:73-77`) runs the real one, whose code is not part of this model. The model records the call and assumes `play_turn` leaves `@players` and `@turn` alone.
- Where `@turn` is incremented: the examples only fix the counter's value after the loop, not whether `alternate_turns` or `play_turn` adds the one; the model adds it in `alternate_turns`.
- Collaborator failures: in Ruby an exception from `start_player`, `fetch_token`, `insert_token`, `play_turn` or `grid.end?` leaves the loop; the model's scripts and its `play_turn` step cannot fail, so no such exit is modelled.
- Players.InsertToken: replacing the token and keeping name and seat is assumed, because the `Player` class is not part of this model.
- The grid: cell storage, move insertion, win and draw detection behind `end?`. None of it is visible, so `end?` is a script of answers.
- Divergence: when `distinct_tokens?` or `grid.end?` never answers `true`, the real loops run forever; the model stops at the end of the script with an `Err`.
- Object identity: Ruby mutates `player3` in place inside `@players`; the model uses values and appends the seat-2 player as it stands after the loop, which yields the same list.
- Rendering, CLI startup and the RSpec mocking machinery.
