/**
 The two control loops of a Connect-Four `Game`: seating two players with
 distinct tokens (`start_players`) and playing turns until the grid reports
 the end (`alternate_turns`).

 Every collaborator the loops consult is a script handed in by the caller:
 the seat-1 and seat-2 players `start_player` returns, the answers of
 `distinct_tokens?` and of `grid.end?`, and the tokens `fetch_token`
 returns. A script that runs out before the loop stops yields an error; with
 the real collaborators the loop would keep asking.
 */
module Game {
  import opened Oracles
  import opened Players
  import opened Calls

  /** The observable instance state: `@players` in seat order and `@turn`. */
  datatype State = State(players: seq<Player>, turn: nat)

  /** A freshly constructed game: no players, turn 0. */
  const Fresh: State := State([], 0)

  /** Which script ran out before its loop stopped. */
  datatype Error = DistinctAnswersExhausted | TokensExhausted | EndAnswersExhausted

  datatype Result<T> = Ok(value: T) | Err(error: Error)

  /** One pass of the setup loop body after a `false` answer. */
  const ReselectRound: seq<Event> := [DistinctTokensCall(false), FetchTokenCall, InsertTokenCall(2)]

  /** One pass of the turn loop body after a `false` answer. */
  const TurnRound: seq<Event> := [EndCall(false), PlayTurnCall]

  /** The seat-2 player after `k` re-selections from `tokens`. */
  function Reselected(second: Player, tokens: seq<Token>, k: nat): Player
    requires k <= |tokens|
  {
    if k == 0 then second else InsertToken(second, tokens[k - 1])
  }

  /** The calls of a setup that re-selected `k` times. */
  function SetupLog(k: nat): seq<Event>
  {
    [StartPlayerCall(1), StartPlayerCall(2)] + Rounds(ReselectRound, k) + [DistinctTokensCall(true)]
  }

  /** The calls of `k` played turns, before the loop is told to stop. */
  function PlayedTurnsLog(k: nat): seq<Event>
  {
    Rounds(TurnRound, k)
  }

  /** The calls of a turn loop that played `k` turns and then stopped. */
  function TurnLog(k: nat): seq<Event>
  {
    PlayedTurnsLog(k) + [EndCall(true)]
  }

  /**
   `start_players`: acquire the seat-1 and seat-2 players, append them in
   seat order, then, while `distinct_tokens?` answers `false`, fetch a token
   and give it to the seat-2 player. With `k` leading `false` answers the body
   runs `k` times; the seat-1 player and the turn counter are untouched.
   */
  method StartPlayers(g: State, seat1: Player, seat2: Player, distinct: seq<bool>, tokens: seq<Token>)
    returns (r: Result<State>, log: seq<Event>)
    ensures r.Ok? <==> LeadingFalses(distinct) < |distinct| && LeadingFalses(distinct) <= |tokens|
    ensures r == Err(TokensExhausted) <==> |tokens| < LeadingFalses(distinct)
    ensures r.Ok? ==>
      r.value == State(g.players + [seat1, Reselected(seat2, tokens, LeadingFalses(distinct))], g.turn)
    ensures r.Ok? ==> log == SetupLog(LeadingFalses(distinct))
  {
    log := [StartPlayerCall(1), StartPlayerCall(2)];
    var second := seat2;
    var i := 0;
    while i < |distinct| && !distinct[i]
      invariant i <= LeadingFalses(distinct) && i <= |tokens|
      invariant second == Reselected(seat2, tokens, i)
      invariant log == [StartPlayerCall(1), StartPlayerCall(2)] + Rounds(ReselectRound, i)
    {
      if i == |tokens| {
        r := Err(TokensExhausted);
        return;
      }
      second := InsertToken(second, tokens[i]);
      log := log + ReselectRound;
      i := i + 1;
    }
    if i == |distinct| {
      r := Err(DistinctAnswersExhausted);
      return;
    }
    log := log + [DistinctTokensCall(true)];
    r := Ok(State(g.players + [seat1, second], g.turn));
  }

  /** The answers `distinct_tokens?` gives when it compares the seat-1 token
      with the seat-2 token: first the acquired one, then each fetched one. */
  function ComparedAnswers(first: Token, second: Token, tokens: seq<Token>): (s: seq<bool>)
    ensures |s| == |tokens| + 1
    ensures s[0] <==> first != second
    ensures forall i :: 0 <= i < |tokens| ==> (s[i + 1] <==> first != tokens[i])
  {
    [first != second] + seq(|tokens|, i requires 0 <= i < |tokens| => first != tokens[i])
  }

  /** With the comparing answers, the loop stops exactly when the seat-2
      token it has reached differs from the seat-1 token. */
  lemma ComparedAnswersStopOnDistinct(seat1: Player, seat2: Player, tokens: seq<Token>)
    ensures LeadingFalses(ComparedAnswers(seat1.token, seat2.token, tokens)) <= |tokens| ==>
      Reselected(seat2, tokens, LeadingFalses(ComparedAnswers(seat1.token, seat2.token, tokens))).token
        != seat1.token
    ensures LeadingFalses(ComparedAnswers(seat1.token, seat2.token, tokens)) > |tokens| <==>
      seat2.token == seat1.token && forall i :: 0 <= i < |tokens| ==> tokens[i] == seat1.token
    ensures seat1.token != seat2.token ==>
      LeadingFalses(ComparedAnswers(seat1.token, seat2.token, tokens)) == 0
  {
  }

  /**
   `start_players` with the real `distinct_tokens?`: the loop condition is
   that the two seated players hold the same token. Setup succeeds exactly
   when the acquired or some fetched token differs from seat 1's, and then
   the seats hold distinct tokens with seat 1 untouched.
   */
  method StartPlayersComparing(g: State, seat1: Player, seat2: Player, tokens: seq<Token>)
    returns (r: Result<State>, log: seq<Event>)
    ensures r.Ok? <==>
      seat2.token != seat1.token || exists i :: 0 <= i < |tokens| && tokens[i] != seat1.token
    ensures r.Err? ==> r.error == TokensExhausted
    ensures r.Ok? ==>
      && |r.value.players| == |g.players| + 2
      && r.value.players[..|g.players|] == g.players
      && r.value.players[|g.players|] == seat1
      && r.value.players[|g.players| + 1].token != seat1.token
      && r.value.players[|g.players| + 1].name == seat2.name
      && r.value.players[|g.players| + 1].number == seat2.number
      && r.value.turn == g.turn
    ensures seat1.token != seat2.token ==>
      r == Ok(State(g.players + [seat1, seat2], g.turn)) && log == SetupLog(0)
    ensures r.Ok? ==>
      && log == SetupLog(LeadingFalses(ComparedAnswers(seat1.token, seat2.token, tokens)))
      && r.value.players[|g.players| + 1]
           == Reselected(seat2, tokens, LeadingFalses(ComparedAnswers(seat1.token, seat2.token, tokens)))
    ensures r.Ok? && seat1.token == seat2.token ==>
      exists j :: 0 <= j < |tokens|
        && tokens[j] != seat1.token
        && (forall i :: 0 <= i < j ==> tokens[i] == seat1.token)
        && r.value.players[|g.players| + 1] == InsertToken(seat2, tokens[j])
        && log == SetupLog(j + 1)
  {
    var answers := ComparedAnswers(seat1.token, seat2.token, tokens);
    r, log := StartPlayers(g, seat1, seat2, answers, tokens);
    ComparedAnswersStopOnDistinct(seat1, seat2, tokens);
    if r.Ok? && seat1.token == seat2.token {
      var k := LeadingFalses(answers);
      assert k > 0 by {
        assert answers[0] == (seat1.token != seat2.token);
      }
      var j := k - 1;
      assert tokens[j] != seat1.token by {
        assert answers[j + 1];
      }
      forall i | 0 <= i < j
        ensures tokens[i] == seat1.token
      {
        assert !answers[i + 1];
      }
    }
  }

  /**
   `alternate_turns`: ask `grid.end?` before every turn; on `false` play a
   turn and add one to `@turn`, on the first `true` stop. With `k` leading
   `false` answers exactly `k` turns are played; the players are untouched.
   */
  method AlternateTurns(g: State, ends: seq<bool>)
    returns (r: Result<State>, log: seq<Event>)
    ensures r.Ok? <==> LeadingFalses(ends) < |ends|
    ensures r.Err? ==> r.error == EndAnswersExhausted && log == PlayedTurnsLog(|ends|)
    ensures r.Ok? ==> r.value == State(g.players, g.turn + LeadingFalses(ends))
    ensures r.Ok? ==> log == TurnLog(LeadingFalses(ends))
  {
    var state := g;
    log := [];
    var i := 0;
    while i < |ends| && !ends[i]
      invariant i <= LeadingFalses(ends)
      invariant state == State(g.players, g.turn + i)
      invariant log == PlayedTurnsLog(i)
    {
      log := log + TurnRound;
      state := state.(turn := state.turn + 1);
      i := i + 1;
    }
    if i == |ends| {
      r := Err(EndAnswersExhausted);
    } else {
      log := log + [EndCall(true)];
      r := Ok(state);
    }
  }

  /** A setup with `k` re-selections asks `distinct_tokens?` `k + 1` times
      (`k` times `false`, once `true`), fetches and inserts `k` tokens, all
      into seat 2, and acquires each seat once. */
  lemma SetupLogCounts(k: nat)
    ensures Count(SetupLog(k), DistinctTokensCall(false)) == k
    ensures Count(SetupLog(k), DistinctTokensCall(true)) == 1
    ensures Count(SetupLog(k), FetchTokenCall) == k
    ensures Count(SetupLog(k), InsertTokenCall(2)) == k
    ensures Count(SetupLog(k), InsertTokenCall(1)) == 0
    ensures Count(SetupLog(k), StartPlayerCall(1)) == 1
    ensures Count(SetupLog(k), StartPlayerCall(2)) == 1
  {
    SetupLogSplit(k, DistinctTokensCall(false));
    RoundsCount(ReselectRound, k, DistinctTokensCall(false));
    SetupLogSplit(k, DistinctTokensCall(true));
    RoundsCount(ReselectRound, k, DistinctTokensCall(true));
    SetupLogSplit(k, FetchTokenCall);
    RoundsCount(ReselectRound, k, FetchTokenCall);
    SetupLogSplit(k, InsertTokenCall(2));
    RoundsCount(ReselectRound, k, InsertTokenCall(2));
    SetupLogSplit(k, InsertTokenCall(1));
    RoundsCount(ReselectRound, k, InsertTokenCall(1));
    SetupLogSplit(k, StartPlayerCall(1));
    RoundsCount(ReselectRound, k, StartPlayerCall(1));
    SetupLogSplit(k, StartPlayerCall(2));
    RoundsCount(ReselectRound, k, StartPlayerCall(2));
  }

  /** A setup log counts an event once per occurrence in its acquisitions,
      its loop passes and its stopping answer. */
  lemma SetupLogSplit(k: nat, e: Event)
    ensures Count(SetupLog(k), e) ==
      Count([StartPlayerCall(1), StartPlayerCall(2)], e) + Count(Rounds(ReselectRound, k), e)
        + Count([DistinctTokensCall(true)], e)
  {
  }

  /** A turn loop that played `k` turns called `play_turn` `k` times and
      asked `grid.end?` `k + 1` times, `true` only the last time. */
  lemma TurnLogCounts(k: nat)
    ensures Count(TurnLog(k), PlayTurnCall) == k
    ensures Count(TurnLog(k), EndCall(false)) == k
    ensures Count(TurnLog(k), EndCall(true)) == 1
    ensures TurnLog(k)[|TurnLog(k)| - 1] == EndCall(true)
  {
    assert multiset(TurnLog(k)) == multiset(Rounds(TurnRound, k)) + multiset([EndCall(true)]);
    RoundsCount(TurnRound, k, PlayTurnCall);
    RoundsCount(TurnRound, k, EndCall(false));
    RoundsCount(TurnRound, k, EndCall(true));
  }

  /** In a setup, every fetch follows a `false` from `distinct_tokens?` and
      every insert follows a fetch; the last call is the `true` answer. */
  lemma SetupLogOrder(k: nat)
    ensures Guarded(SetupLog(k), DistinctTokensCall(false), FetchTokenCall)
    ensures Guarded(SetupLog(k), FetchTokenCall, InsertTokenCall(2))
    ensures SetupLog(k)[|SetupLog(k)| - 1] == DistinctTokensCall(true)
  {
    var pre: seq<Event> := [StartPlayerCall(1), StartPlayerCall(2)];
    var post: seq<Event> := [DistinctTokensCall(true)];
    var mid := Rounds(ReselectRound, k);
    RoundsGuarded(ReselectRound, k, DistinctTokensCall(false), FetchTokenCall);
    RoundsGuarded(ReselectRound, k, FetchTokenCall, InsertTokenCall(2));
    GuardedConcat(pre, mid, DistinctTokensCall(false), FetchTokenCall);
    GuardedConcat(pre + mid, post, DistinctTokensCall(false), FetchTokenCall);
    GuardedConcat(pre, mid, FetchTokenCall, InsertTokenCall(2));
    GuardedConcat(pre + mid, post, FetchTokenCall, InsertTokenCall(2));
  }

  /** In a turn loop, every `play_turn` follows a `false` from `grid.end?`. */
  lemma TurnLogOrder(k: nat)
    ensures Guarded(TurnLog(k), EndCall(false), PlayTurnCall)
  {
    RoundsGuarded(TurnRound, k, EndCall(false), PlayTurnCall);
    GuardedConcat(Rounds(TurnRound, k), [EndCall(true)], EndCall(false), PlayTurnCall);
  }
}
