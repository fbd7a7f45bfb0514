/**
  The `start_multiplayer` handler of multiplayer_manager.js, a second,
  partial copy of the matchmaking rule of server.js: it first refuses to run
  without question data, and it builds each match over at most MAX_ROUNDS
  questions. Its module-level `waitingPlayer`, `activeMatches` and `flagData`
  become the fields of one `Manager` object; `emit` appends to `events`, and
  the `setTimeout(() => startMultiplayerRound(matchId), 1000)` becomes a
  pending entry of `pendingStarts`.
*/
module Multiplayer {
  import opened Wrappers
  import QuizOptions
  import MatchEngine

  /** MAX_ROUNDS: the most questions a match is built over. */
  const MAX_ROUNDS := 10

  /** The waiting-player record `{ userId, socketId, username }`. */
  datatype Player = Player(userId: string, socketId: string, username: string)

  /** The part of a match record the handler fills in. */
  datatype MultiplayerMatch = MultiplayerMatch(id: string, questions: seq<MatchEngine.Question>)

  datatype Event =
    | ServerError(socketId: string, message: string)
    | Searching(socketId: string)

  /** `utils.shuffleArray([...flagData]).slice(0, MAX_ROUNDS)`: at most
      MAX_ROUNDS entries of the table, none of its entries used twice. */
  method SelectMatchQuestions(flagData: seq<MatchEngine.Question>) returns (questions: seq<MatchEngine.Question>)
    ensures |questions| == QuizOptions.Min(MAX_ROUNDS, |flagData|)
    ensures multiset(questions) <= multiset(flagData)
  {
    var shuffled := QuizOptions.ShuffledCopy(flagData);
    var count := QuizOptions.Min(MAX_ROUNDS, |shuffled|);
    assert shuffled == shuffled[..count] + shuffled[count..];
    questions := shuffled[..count];
  }

  class Manager {
    var waitingPlayer: Option<Player>
    var activeMatches: map<string, MultiplayerMatch>
    /** The module-level flagData, overwritten by every attach; `None`
        stands for a missing (null or undefined) value. */
    var flagData: Option<seq<MatchEngine.Question>>
    var events: seq<Event>
    /** Match ids whose first round start is pending, oldest first. */
    var pendingStarts: seq<string>

    /** Every match is stored under its own id and has at most MAX_ROUNDS
        questions. */
    ghost predicate Valid()
      reads this
    {
      forall id :: id in activeMatches ==>
        activeMatches[id].id == id && |activeMatches[id].questions| <= MAX_ROUNDS
    }

    /** The module as loaded: nobody waiting, no match, `flagData = []`. */
    constructor ()
      ensures Valid()
      ensures waitingPlayer == None && activeMatches == map[] && flagData == Some([])
      ensures events == [] && pendingStarts == []
    {
      waitingPlayer := None;
      activeMatches := map[];
      flagData := Some([]);
      events := [];
      pendingStarts := [];
    }

    /** The `({ flagData, CONFUSION_GROUPS_MAP } = gameData)` step of
        attachMultiplayerHandlers. */
    method Attach(data: Option<seq<MatchEngine.Question>>)
      modifies this`flagData
      ensures flagData == data
    {
      flagData := data;
    }

    /** The start_multiplayer handler. Without question data it reports a
        server error and changes nothing else. Otherwise a waiting player
        with another socket id is paired: a match over at most MAX_ROUNDS
        questions of the table is stored under `matchId`, the slot is
        cleared and round 1 is put off. Otherwise the caller takes the slot,
        replacing whoever was there (itself included), and is told it is
        searching. `matchId` is what generateMatchId drew. */
    method StartMultiplayer(userId: string, username: string, socketId: string, matchId: string)
      requires Valid()
      modifies this
      ensures Valid()
      ensures flagData == old(flagData)
      ensures old(flagData).None? || old(flagData) == Some([]) ==>
                && waitingPlayer == old(waitingPlayer)
                && activeMatches == old(activeMatches)
                && pendingStarts == old(pendingStarts)
                && events == old(events) + [ServerError(socketId, "Game data unavailable.")]
      ensures old(flagData).Some? && old(flagData) != Some([]) &&
              old(waitingPlayer).Some? && old(waitingPlayer).value.socketId != socketId ==>
                && waitingPlayer == None
                && matchId in activeMatches
                && activeMatches == old(activeMatches)[matchId := activeMatches[matchId]]
                && activeMatches[matchId].id == matchId
                && |activeMatches[matchId].questions| == QuizOptions.Min(MAX_ROUNDS, |old(flagData).value|)
                && multiset(activeMatches[matchId].questions) <= multiset(old(flagData).value)
                && pendingStarts == old(pendingStarts) + [matchId]
                && events == old(events)
      ensures old(flagData).Some? && old(flagData) != Some([]) &&
              !(old(waitingPlayer).Some? && old(waitingPlayer).value.socketId != socketId) ==>
                && waitingPlayer == Some(Player(userId, socketId, username))
                && activeMatches == old(activeMatches)
                && pendingStarts == old(pendingStarts)
                && events == old(events) + [Searching(socketId)]
    {
      if flagData.None? || |flagData.value| == 0 {
        events := events + [ServerError(socketId, "Game data unavailable.")];
        return;
      }
      if waitingPlayer.Some? && waitingPlayer.value.socketId != socketId {
        var matchQuestions := SelectMatchQuestions(flagData.value);
        activeMatches := activeMatches[matchId := MultiplayerMatch(matchId, matchQuestions)];
        waitingPlayer := None;
        pendingStarts := pendingStarts + [matchId];
      } else {
        waitingPlayer := Some(Player(userId, socketId, username));
        events := events + [Searching(socketId)];
      }
    }
  }
}
