/**
  The match engine of server.js: the single waiting-player slot, the table of
  active matches, the round engine (start a round, collect at most one answer
  per player, score, go on or end) and the clean-up on disconnect.

  The server's module-level state becomes the fields of one `Server` object.
  A match record is a value stored in `activeMatches`; the methods that the
  source writes as `match.p1Score++` or `match.roundAnswers.p1 = ...` replace
  the entry. `Date.now()` is the parameter `now` (milliseconds), every
  `setTimeout(() => startGameRound(...), 3000)` is a pending `Timer` that
  `FireTimer` runs later, and every `emit` appends its payload to `events`.
*/
module MatchEngine {
  import opened Wrappers
  import QuizOptions

  /** TOTAL_ROUNDS: the rounds played before sudden death. */
  const TOTAL_ROUNDS := 3

  /** An entry of flagData. */
  datatype Question = Question(country: string, image: string)

  /** A recorded answer: what the client sent and the server's receipt time. */
  datatype Answer = Answer(answer: string, time: int)

  /** Player 1 is the one who waited, player 2 the one who connected second. */
  datatype Seat = P1 | P2

  /** One entry of activeMatches. `p1Answer` and `p2Answer` are
      `roundAnswers.p1` and `roundAnswers.p2`. */
  datatype Match = Match(
    id: string,
    p1Id: string,
    p2Id: string,
    p1Score: nat,
    p2Score: nat,
    currentRound: int,
    questions: seq<Question>,
    p1Answer: Option<Answer>,
    p2Answer: Option<Answer>,
    roundStartTime: int)
  {
    predicate BothAnswered()
    {
      p1Answer.Some? && p2Answer.Some?
    }

    /** `matchQuestions[currentRound - 1]` exists. */
    predicate HasQuestion()
    {
      1 <= currentRound <= |questions|
    }

    predicate Involves(socketId: string)
    {
      p1Id == socketId || p2Id == socketId
    }

    function AnswerAt(seat: Seat): Option<Answer>
    {
      if seat == P1 then p1Answer else p2Answer
    }

    function WithAnswer(seat: Seat, a: Answer): Match
    {
      if seat == P1 then this.(p1Answer := Some(a)) else this.(p2Answer := Some(a))
    }
  }

  /** The payloads the server emits. */
  datatype Event =
    | WaitingForOpponent(socketId: string)
    | MatchFound(socketId: string, matchId: string, isP1: bool)
    | NewRound(matchId: string, round: int, image: string, options: seq<string>)
    | AnswerRegistered(socketId: string, timeElapsed: int, isOpponent: bool)
    | RoundResults(matchId: string, correctAnswer: string, p1Score: nat, p2Score: nat,
                   p1Time: Option<int>, p2Time: Option<int>, winnerId: Option<string>)
    | GameOver(matchId: string, winner: Option<string>, p1Score: nat, p2Score: nat)
    | OpponentDisconnected(socketId: string)

  /** A pending `setTimeout(() => startGameRound(matchId, round), 3000)`. */
  datatype Timer = Timer(matchId: string, round: int)

  /** What calculateScores did. `NoQuestion` is the case where the source
      reads `.country` of a missing question and throws. */
  datatype ScoreOutcome =
    | NoMatch
    | NoQuestion
    | AwaitingAnswers
    | Ended(winner: Option<string>)
    | NextRoundScheduled(round: int)

  /** What calculateScores does after awarding the point. */
  datatype NextStep = EndMatch | NextRound(round: int)

  /** `flagData.map(flag => flag.country)` */
  function Names(questions: seq<Question>): (r: seq<string>)
    ensures |r| == |questions|
    ensures forall i :: 0 <= i < |r| ==> r[i] == questions[i].country
  {
    seq(|questions|, i requires 0 <= i < |questions| => questions[i].country)
  }

  /** `pXAnswer && pXAnswer.answer === correctAnswer` */
  predicate IsCorrect(a: Option<Answer>, correctAnswer: string)
    ensures a.None? ==> !IsCorrect(a, correctAnswer)
    ensures a.Some? ==> (IsCorrect(a, correctAnswer) <==> a.value.answer == correctAnswer)
  {
    a.Some? && a.value.answer == correctAnswer
  }

  /** The point of a round: a player scores exactly when that player answered
      correctly and the other did not answer correctly strictly earlier or at
      the same time; so equal times of two correct answers award nothing. */
  function RoundPoint(correctAnswer: string, a1: Option<Answer>, a2: Option<Answer>): (w: Option<Seat>)
    ensures w == Some(P1) <==>
              IsCorrect(a1, correctAnswer) && (IsCorrect(a2, correctAnswer) ==> a1.value.time < a2.value.time)
    ensures w == Some(P2) <==>
              IsCorrect(a2, correctAnswer) && (IsCorrect(a1, correctAnswer) ==> a2.value.time < a1.value.time)
  {
    if IsCorrect(a1, correctAnswer) && IsCorrect(a2, correctAnswer) then
      if a1.value.time < a2.value.time then Some(P1)
      else if a2.value.time < a1.value.time then Some(P2)
      else None
    else if IsCorrect(a1, correctAnswer) then Some(P1)
    else if IsCorrect(a2, correctAnswer) then Some(P2)
    else None
  }

  function Other(seat: Seat): Seat
  {
    if seat == P1 then P2 else P1
  }

  /** Swapping the two players swaps the point: the rule favours neither seat. */
  lemma RoundPointSymmetric(correctAnswer: string, a1: Option<Answer>, a2: Option<Answer>)
    ensures RoundPoint(correctAnswer, a2, a1) ==
              match RoundPoint(correctAnswer, a1, a2)
              case None => None
              case Some(s) => Some(Other(s))
  {
  }

  /** The correct answer of the match's current round. */
  function CorrectAnswer(m: Match): (r: string)
    requires m.HasQuestion()
    ensures r in Names(m.questions)
    ensures r == Names(m.questions)[m.currentRound - 1]
  {
    m.questions[m.currentRound - 1].country
  }

  /** The match after calculateScores has awarded the round's point: only the
      scores change, neither goes down, their total rises by at most one, and
      a score rises exactly when `RoundPoint` names that seat. */
  function Scored(m: Match): (r: Match)
    requires m.HasQuestion()
    ensures r == m.(p1Score := r.p1Score, p2Score := r.p2Score)
    ensures m.p1Score <= r.p1Score && m.p2Score <= r.p2Score
    ensures r.p1Score + r.p2Score <= m.p1Score + m.p2Score + 1
    ensures r.p1Score > m.p1Score <==> RoundPoint(CorrectAnswer(m), m.p1Answer, m.p2Answer) == Some(P1)
    ensures r.p2Score > m.p2Score <==> RoundPoint(CorrectAnswer(m), m.p1Answer, m.p2Answer) == Some(P2)
  {
    match RoundPoint(CorrectAnswer(m), m.p1Answer, m.p2Answer)
    case Some(P1) => m.(p1Score := m.p1Score + 1)
    case Some(P2) => m.(p2Score := m.p2Score + 1)
    case None => m
  }

  /** The elapsed time reported in round_results: `None` stands for the
      source's `Infinity` (the player did not answer). */
  function ElapsedTime(a: Option<Answer>, roundStartTime: int): (t: Option<int>)
    ensures t.None? <==> a.None?
    ensures t.Some? ==> t.value == a.value.time - roundStartTime
  {
    match a
    case None => None
    case Some(ans) => Some(ans.time - roundStartTime)
  }

  function SeatId(m: Match, seat: Option<Seat>): Option<string>
  {
    match seat
    case None => None
    case Some(P1) => Some(m.p1Id)
    case Some(P2) => Some(m.p2Id)
  }

  /** The round_results payload calculateScores emits for match `m` (taken
      before the point is added). */
  function RoundResultsOf(matchId: string, m: Match): (r: Event)
    requires m.HasQuestion()
    ensures r.RoundResults? && r.matchId == matchId && r.correctAnswer == CorrectAnswer(m)
    ensures r.p1Score + r.p2Score <= m.p1Score + m.p2Score + 1
    ensures r.winnerId.None? <==> r.p1Score == m.p1Score && r.p2Score == m.p2Score
    ensures r.p1Score > m.p1Score ==> r.winnerId == Some(m.p1Id)
    ensures r.p2Score > m.p2Score ==> r.winnerId == Some(m.p2Id)
    ensures m.p1Score <= r.p1Score && m.p2Score <= r.p2Score
    ensures r.p1Score > m.p1Score <==> RoundPoint(CorrectAnswer(m), m.p1Answer, m.p2Answer) == Some(P1)
    ensures r.p2Score > m.p2Score <==> RoundPoint(CorrectAnswer(m), m.p1Answer, m.p2Answer) == Some(P2)
    ensures (r.p1Time.None? <==> m.p1Answer.None?) && (r.p2Time.None? <==> m.p2Answer.None?)
    ensures r.p1Time.Some? ==> r.p1Time.value == m.p1Answer.value.time - m.roundStartTime
    ensures r.p2Time.Some? ==> r.p2Time.value == m.p2Answer.value.time - m.roundStartTime
  {
    var s := Scored(m);
    RoundResults(matchId, CorrectAnswer(m), s.p1Score, s.p2Score,
                 ElapsedTime(m.p1Answer, m.roundStartTime), ElapsedTime(m.p2Answer, m.roundStartTime),
                 SeatId(m, RoundPoint(CorrectAnswer(m), m.p1Answer, m.p2Answer)))
  }

  /** endGame's winner: the player with the strictly higher score, none on a
      draw. */
  function MatchWinner(m: Match): (w: Option<string>)
    ensures w.None? <==> m.p1Score == m.p2Score
    ensures m.p1Score > m.p2Score ==> w == Some(m.p1Id)
    ensures m.p2Score > m.p1Score ==> w == Some(m.p2Id)
  {
    if m.p1Score > m.p2Score then Some(m.p1Id)
    else if m.p2Score > m.p1Score then Some(m.p2Id)
    else None
  }

  /** The decision after scoring: the match ends when regulation is over
      (round TOTAL_ROUNDS or later) with unequal scores, or when no question
      is left for the next round; otherwise the next round follows, and its
      number never passes the question list. */
  function AfterScoring(currentRound: int, p1Score: nat, p2Score: nat, questionCount: nat): (n: NextStep)
    ensures n == EndMatch <==>
              (currentRound >= TOTAL_ROUNDS && p1Score != p2Score) || currentRound + 1 > questionCount
    ensures n.NextRound? ==> n.round == currentRound + 1 && n.round <= questionCount
  {
    if currentRound >= TOTAL_ROUNDS && p1Score != p2Score then EndMatch
    else if currentRound + 1 > questionCount then EndMatch
    else NextRound(currentRound + 1)
  }

  /** A match that ends while questions are left always has a winner: a
      draw is possible only when the question list runs out. */
  lemma EndWithQuestionsLeftHasWinner(m: Match)
    requires m.HasQuestion() && m.currentRound < |m.questions|
    requires AfterScoring(m.currentRound, Scored(m).p1Score, Scored(m).p2Score, |m.questions|) == EndMatch
    ensures MatchWinner(Scored(m)).Some?
    ensures m.currentRound >= TOTAL_ROUNDS
  {
  }

  /** `isP1 = socket.id === match.p1Id`: any socket that is not player 1,
      even one outside the match, answers for seat 2. */
  function SeatOf(m: Match, socketId: string): (seat: Seat)
    ensures seat == P1 <==> socketId == m.p1Id
  {
    if socketId == m.p1Id then P1 else P2
  }

  /** A match never holds more points than rounds scored: the round in
      progress counts only once both of its answers are in. */
  predicate ScoreWithinRounds(m: Match)
  {
    m.p1Score + m.p2Score + (if m.BothAnswered() then 0 else 1) <= m.currentRound
  }

  /** submit_answer as written (server.js:381-384): calculateScores runs
      whenever both answers of the round are held, whether or not this
      submission was the one recorded. */
  predicate TriggersScoringAsWritten(m: Match)
  {
    m.BothAnswered()
  }

  /** The intended rule: only the submission that completes the pair of
      answers triggers scoring. */
  predicate TriggersScoring(recorded: bool, m: Match)
    ensures TriggersScoring(recorded, m) ==> TriggersScoringAsWritten(m)
    ensures !recorded ==> !TriggersScoring(recorded, m)
    ensures recorded ==> (TriggersScoring(recorded, m) <==> TriggersScoringAsWritten(m))
  {
    recorded && m.BothAnswered()
  }

  /** A repeated submit_answer during the three-second pause after a round is
      scored is not recorded, yet as written it scores the round again: here
      player 1 ends round 1 of a two-question match with two points. Under the
      intended rule that second scoring does not happen. */
  lemma DuplicateAnswerRescoresAsWritten()
    ensures
      var m := Match("m", "A", "B", 0, 0, 1, [Question("France", "fr.svg"), Question("Peru", "pe.svg")],
                     Some(Answer("France", 100)), Some(Answer("Peru", 200)), 0);
      var once := Scored(m);
      && ScoreWithinRounds(m)
      && AfterScoring(once.currentRound, once.p1Score, once.p2Score, |once.questions|) == NextRound(2)
      && once.AnswerAt(SeatOf(once, "A")).Some?
      && TriggersScoringAsWritten(once)
      && Scored(once).p1Score == 2
      && !ScoreWithinRounds(Scored(once))
      && !TriggersScoring(false, once)
  {
  }

  /** A live match under key `id`, over a question list of length `n`, sits
      on a round that has a question and holds no more points than rounds
      scored. */
  ghost predicate MatchOk(n: nat, id: string, m: Match)
  {
    && m.id == id
    && |m.questions| == n
    && m.HasQuestion()
    && ScoreWithinRounds(m)
  }

  /** A pending timer names a round inside the question list; while its
      match is alive it starts the round after the current one, whose answers
      are both in. */
  ghost predicate TimerOk(n: nat, matches: map<string, Match>, t: Timer)
  {
    && 1 <= t.round <= n
    && (t.matchId in matches ==>
          t.round == matches[t.matchId].currentRound + 1 && matches[t.matchId].BothAnswered())
  }

  /** At most one pending timer per live match. */
  ghost predicate TimersDistinct(matches: map<string, Match>, timers: seq<Timer>)
  {
    forall i, j :: 0 <= i < j < |timers| && timers[i].matchId in matches ==>
      timers[i].matchId != timers[j].matchId
  }

  /** The server's invariant over its match table and its timer queue. */
  /** Sockets are fresh per connection, so the waiting socket plays in no
      live match and no socket plays in two of them. */
  ghost predicate SocketsApart(waiting: Option<string>, matches: map<string, Match>)
  {
    && (waiting.Some? ==> forall id :: id in matches ==> !matches[id].Involves(waiting.value))
    && (forall id1, id2, socketId ::
          id1 in matches && id2 in matches && matches[id1].Involves(socketId) && matches[id2].Involves(socketId)
          ==> id1 == id2)
  }

  /** Replacing a match by one with the same two players keeps the sockets
      apart. */
  lemma SocketsApartAfterUpdate(waiting: Option<string>, matches: map<string, Match>, id: string, m: Match)
    requires SocketsApart(waiting, matches) && id in matches
    requires m.p1Id == matches[id].p1Id && m.p2Id == matches[id].p2Id
    ensures SocketsApart(waiting, matches[id := m])
  {
  }

  /** Deleting a match keeps the sockets apart. */
  lemma SocketsApartAfterRemoval(waiting: Option<string>, matches: map<string, Match>, id: string)
    requires SocketsApart(waiting, matches)
    ensures SocketsApart(waiting, matches - {id})
  {
  }

  ghost predicate Consistent(n: nat, matches: map<string, Match>, timers: seq<Timer>)
  {
    && (forall id :: id in matches ==> MatchOk(n, id, matches[id]))
    && (forall i :: 0 <= i < |timers| ==> TimerOk(n, matches, timers[i]))
    && TimersDistinct(matches, timers)
  }

  ghost predicate NoTimerFor(timers: seq<Timer>, id: string)
  {
    forall i :: 0 <= i < |timers| ==> timers[i].matchId != id
  }

  /** A live match with an answer missing has no pending timer. */
  lemma NoTimerWhileAnswerMissing(n: nat, matches: map<string, Match>, timers: seq<Timer>, id: string)
    requires Consistent(n, matches, timers)
    requires id in matches && !matches[id].BothAnswered()
    ensures NoTimerFor(timers, id)
  {
    forall i | 0 <= i < |timers|
      ensures timers[i].matchId != id
    {
      assert TimerOk(n, matches, timers[i]);
    }
  }

  /** Removing a match keeps the invariant (endGame, disconnect). */
  lemma ConsistentAfterRemoval(n: nat, matches: map<string, Match>, timers: seq<Timer>, id: string)
    requires Consistent(n, matches, timers)
    ensures Consistent(n, matches - {id}, timers)
  {
    forall i | 0 <= i < |timers|
      ensures TimerOk(n, matches - {id}, timers[i])
    {
      assert TimerOk(n, matches, timers[i]);
    }
  }

  /** A new match, 0 to 0 in round 1 with no answers, under an id that no
      pending timer names, keeps the invariant. */
  lemma ConsistentAfterCreate(n: nat, matches: map<string, Match>, timers: seq<Timer>, id: string, m: Match)
    requires Consistent(n, matches, timers)
    requires id !in matches && NoTimerFor(timers, id)
    requires m.id == id && |m.questions| == n && n > 0 && m.currentRound == 1
    requires m.p1Score == 0 && m.p2Score == 0 && m.p1Answer == None && m.p2Answer == None
    ensures Consistent(n, matches[id := m], timers)
  {
    forall i | 0 <= i < |timers|
      ensures TimerOk(n, matches[id := m], timers[i])
    {
      assert TimerOk(n, matches, timers[i]);
    }
  }

  /** Recording the first answer of a seat keeps the invariant, and the
      match then still has a point to spare for this round. */
  lemma ConsistentAfterRecord(n: nat, matches: map<string, Match>, timers: seq<Timer>, id: string,
                              seat: Seat, a: Answer)
    requires Consistent(n, matches, timers)
    requires id in matches && matches[id].AnswerAt(seat).None?
    ensures NoTimerFor(timers, id)
    ensures var m1 := matches[id].WithAnswer(seat, a);
            && Consistent(n, matches[id := m1], timers)
            && m1.p1Score + m1.p2Score + 1 <= m1.currentRound
  {
    NoTimerWhileAnswerMissing(n, matches, timers, id);
    var m1 := matches[id].WithAnswer(seat, a);
    forall i | 0 <= i < |timers|
      ensures TimerOk(n, matches[id := m1], timers[i])
    {
      assert TimerOk(n, matches, timers[i]);
    }
  }

  /** Scoring a round and scheduling the next one keeps the invariant, when
      the round had a point to spare and no timer was pending. */
  lemma ConsistentAfterScheduling(n: nat, matches: map<string, Match>, timers: seq<Timer>, id: string, round: int)
    requires Consistent(n, matches, timers)
    requires id in matches && matches[id].BothAnswered() && NoTimerFor(timers, id)
    requires matches[id].p1Score + matches[id].p2Score + 1 <= matches[id].currentRound
    requires var m := matches[id];
             AfterScoring(m.currentRound, Scored(m).p1Score, Scored(m).p2Score, |m.questions|) == NextRound(round)
    ensures Consistent(n, matches[id := Scored(matches[id])], timers + [Timer(id, round)])
  {
    var m := matches[id];
    var after := matches[id := Scored(m)];
    var timers' := timers + [Timer(id, round)];
    forall i | 0 <= i < |timers'|
      ensures TimerOk(n, after, timers'[i])
    {
      if i < |timers| {
        assert TimerOk(n, matches, timers[i]);
      }
    }
  }

  /** Running the oldest timer keeps the invariant: on a live match it
      starts the round after the scored one, which has a question. */
  lemma ConsistentAfterFire(n: nat, matches: map<string, Match>, timers: seq<Timer>, now: int)
    requires Consistent(n, matches, timers) && timers != []
    ensures var t := timers[0];
            && TimerOk(n, matches, t)
            && (t.matchId in matches ==>
                  Consistent(n, matches[t.matchId := matches[t.matchId].(currentRound := t.round,
                    p1Answer := None, p2Answer := None, roundStartTime := now)], timers[1..]))
            && (t.matchId !in matches ==> Consistent(n, matches, timers[1..]))
  {
    var t := timers[0];
    assert TimerOk(n, matches, t);
    if t.matchId in matches {
      var after := matches[t.matchId := matches[t.matchId].(currentRound := t.round,
                     p1Answer := None, p2Answer := None, roundStartTime := now)];
      forall i | 0 <= i < |timers[1..]|
        ensures TimerOk(n, after, timers[1..][i])
      {
        assert TimerOk(n, matches, timers[i + 1]);
        assert timers[0].matchId != timers[i + 1].matchId;
      }
    } else {
      forall i | 0 <= i < |timers[1..]|
        ensures TimerOk(n, matches, timers[1..][i])
      {
        assert TimerOk(n, matches, timers[i + 1]);
      }
    }
  }

  class Server {
    /** flagData and the confusion groups of groups.js, fixed at start-up. */
    const flagData: seq<Question>
    const groups: seq<QuizOptions.Group<string>>
    /** The socket id of the player waiting for an opponent, if any. */
    var waitingPlayer: Option<string>
    var activeMatches: map<string, Match>
    /** Pending delayed round starts, oldest first; all share one delay, so
        they fire in this order. */
    var timers: seq<Timer>
    /** Every payload emitted so far, in order. */
    var events: seq<Event>

    ghost predicate Valid()
      reads this
    {
      |flagData| > 0 && Consistent(|flagData|, activeMatches, timers) && SocketsApart(waitingPlayer, activeMatches)
    }

    /** The new_round payload for round `round` of match `matchId`: the
        question's image and options that hold the country exactly once,
        four of them when the table allows, and no option twice when the
        name lists repeat none. */
    ghost predicate Announces(e: Event, matchId: string, round: int, q: Question)
      reads this
      ensures Announces(e, matchId, round, q) ==>
                e.NewRound? && q.country in e.options && 1 <= |e.options| <= QuizOptions.OPTION_COUNT
    {
      && e.NewRound?
      && e.matchId == matchId
      && e.round == round
      && e.image == q.image
      && multiset(e.options)[q.country] == 1
      && |e.options| <= QuizOptions.OPTION_COUNT
      && (|QuizOptions.Without(Names(flagData), [q.country])| >= QuizOptions.REQUIRED_DISTRACTORS ==>
            |e.options| == QuizOptions.OPTION_COUNT)
      && (QuizOptions.Distinct(Names(flagData)) && (forall g :: g in groups ==> QuizOptions.Distinct(g.members)) ==>
            QuizOptions.Distinct(e.options))
    }

    /** With at least four distinct country names in the table, every
        announced round shows four options. */
    lemma FourOptionsWhenNamesDistinct(e: Event, matchId: string, round: int, q: Question)
      requires Announces(e, matchId, round, q)
      requires QuizOptions.Distinct(Names(flagData)) && |flagData| >= QuizOptions.OPTION_COUNT
      ensures |e.options| == QuizOptions.OPTION_COUNT
    {
      QuizOptions.EnoughDistinctNames(Names(flagData), q.country);
    }

    constructor (flagData: seq<Question>, groups: seq<QuizOptions.Group<string>>)
      requires |flagData| > 0
      ensures Valid()
      ensures this.flagData == flagData && this.groups == groups
      ensures waitingPlayer == None && activeMatches == map[] && timers == [] && events == []
    {
      this.flagData := flagData;
      this.groups := groups;
      waitingPlayer := None;
      activeMatches := map[];
      timers := [];
      events := [];
    }

    /** startGameRound: on a live match, sets the round number, clears both
        answers and stamps the start time, then announces the question; on an
        unknown match id (a stale timer) does nothing. */
    method StartGameRound(matchId: string, roundNumber: int, now: int)
      modifies this`activeMatches, this`timers, this`events
      ensures waitingPlayer == old(waitingPlayer) && timers == old(timers)
      ensures matchId !in old(activeMatches) ==> activeMatches == old(activeMatches) && events == old(events)
      ensures matchId in old(activeMatches) ==>
                var m := old(activeMatches[matchId]).(currentRound := roundNumber, p1Answer := None,
                                                       p2Answer := None, roundStartTime := now);
                && activeMatches == old(activeMatches)[matchId := m]
                && (m.HasQuestion() ==>
                      && |events| == |old(events)| + 1
                      && events == old(events) + [events[|old(events)|]]
                      && Announces(events[|old(events)|], matchId, roundNumber, m.questions[roundNumber - 1]))
                && (!m.HasQuestion() ==> events == old(events))
    {
      if matchId !in activeMatches {
        return;
      }
      var m := activeMatches[matchId];
      m := m.(currentRound := roundNumber, p1Answer := None, p2Answer := None, roundStartTime := now);
      activeMatches := activeMatches[matchId := m];
      var questionIndex := roundNumber - 1;
      if !(0 <= questionIndex < |m.questions|) {
        // The source goes on to calculateScores(matchId, true), which throws
        // before changing anything.
        var outcome := CalculateScores(matchId, true);
        assert outcome == NoQuestion;
        return;
      }
      var q := m.questions[questionIndex];
      var options := QuizOptions.GenerateQuizOptions(q.country, Names(flagData), groups);
      events := events + [NewRound(matchId, roundNumber, q.image, options)];
    }

    /** endGame: removes exactly the match `matchId`, announcing the winner
        by score or a draw; nothing happens for an unknown id. */
    method EndGame(matchId: string) returns (winner: Option<string>)
      modifies this`activeMatches, this`events
      ensures waitingPlayer == old(waitingPlayer) && timers == old(timers)
      ensures matchId !in old(activeMatches) ==>
                winner == None && activeMatches == old(activeMatches) && events == old(events)
      ensures matchId in old(activeMatches) ==>
                var m := old(activeMatches[matchId]);
                && winner == MatchWinner(m)
                && activeMatches == old(activeMatches) - {matchId}
                && events == old(events) + [GameOver(matchId, winner, m.p1Score, m.p2Score)]
    {
      if matchId !in activeMatches {
        return None;
      }
      var m := activeMatches[matchId];
      winner := MatchWinner(m);
      events := events + [GameOver(matchId, winner, m.p1Score, m.p2Score)];
      activeMatches := activeMatches - {matchId};
    }

    /** calculateScores: unless both answers are in or `isFinalCheck` holds,
        nothing changes; otherwise the point is awarded (`Scored`), the round
        results are announced, and the match either ends or has its next
        round scheduled, as `AfterScoring` decides. */
    method CalculateScores(matchId: string, isFinalCheck: bool) returns (outcome: ScoreOutcome)
      modifies this`activeMatches, this`timers, this`events
      ensures waitingPlayer == old(waitingPlayer)
      ensures outcome.NoMatch? <==> matchId !in old(activeMatches)
      ensures outcome.NoMatch? || outcome.NoQuestion? || outcome.AwaitingAnswers? ==>
                activeMatches == old(activeMatches) && timers == old(timers) && events == old(events)
      ensures matchId in old(activeMatches) ==>
                var m := old(activeMatches[matchId]);
                && (outcome.NoQuestion? <==> !m.HasQuestion())
                && (outcome.AwaitingAnswers? <==> m.HasQuestion() && !m.BothAnswered() && !isFinalCheck)
      ensures outcome.Ended? ==>
                var m := old(activeMatches[matchId]);
                && matchId in old(activeMatches) && m.HasQuestion()
                && AfterScoring(m.currentRound, Scored(m).p1Score, Scored(m).p2Score, |m.questions|) == EndMatch
                && outcome.winner == MatchWinner(Scored(m))
                && activeMatches == old(activeMatches) - {matchId}
                && timers == old(timers)
                && events == old(events) + [RoundResultsOf(matchId, m),
                                            GameOver(matchId, outcome.winner, Scored(m).p1Score, Scored(m).p2Score)]
      ensures outcome.NextRoundScheduled? ==>
                var m := old(activeMatches[matchId]);
                && matchId in old(activeMatches) && m.HasQuestion()
                && AfterScoring(m.currentRound, Scored(m).p1Score, Scored(m).p2Score, |m.questions|)
                   == NextRound(outcome.round)
                && activeMatches == old(activeMatches)[matchId := Scored(m)]
                && timers == old(timers) + [Timer(matchId, outcome.round)]
                && events == old(events) + [RoundResultsOf(matchId, m)]
    {
      if matchId !in activeMatches {
        return NoMatch;
      }
      var m := activeMatches[matchId];
      if !m.HasQuestion() {
        return NoQuestion;
      }
      var correctAnswer := m.questions[m.currentRound - 1].country;
      if !(m.BothAnswered() || isFinalCheck) {
        return AwaitingAnswers;
      }
      var point := RoundPoint(correctAnswer, m.p1Answer, m.p2Answer);
      var scored := Scored(m);
      activeMatches := activeMatches[matchId := scored];
      events := events + [RoundResults(matchId, correctAnswer, scored.p1Score, scored.p2Score,
                                       ElapsedTime(m.p1Answer, m.roundStartTime),
                                       ElapsedTime(m.p2Answer, m.roundStartTime),
                                       SeatId(m, point))];
      match AfterScoring(m.currentRound, scored.p1Score, scored.p2Score, |m.questions|)
      case EndMatch =>
        var winner := EndGame(matchId);
        outcome := Ended(winner);
      case NextRound(nextRound) =>
        timers := timers + [Timer(matchId, nextRound)];
        outcome := NextRoundScheduled(nextRound);
    }

    /** createNewMatch: stores a fresh match under `matchId` between the two
        players, 0 to 0, over a shuffled copy of flagData, announces it to
        both and starts round 1. */
    method CreateNewMatch(p1Id: string, p2Id: string, matchId: string, now: int)
      requires |flagData| > 0
      modifies this`activeMatches, this`timers, this`events
      ensures waitingPlayer == old(waitingPlayer) && timers == old(timers)
      ensures matchId in activeMatches
      ensures var m := activeMatches[matchId];
              && activeMatches == old(activeMatches)[matchId := Match(matchId, p1Id, p2Id, 0, 0, 1, m.questions, None, None, now)]
              && |m.questions| == |flagData| && multiset(m.questions) == multiset(flagData)
              && |events| == |old(events)| + 3
              && events == old(events) + [MatchFound(p1Id, matchId, true), MatchFound(p2Id, matchId, false),
                                          events[|old(events)| + 2]]
              && Announces(events[|old(events)| + 2], matchId, 1, m.questions[0])
    {
      var shuffled := QuizOptions.ShuffledCopy(flagData);
      var m := Match(matchId, p1Id, p2Id, 0, 0, 0, shuffled, None, None, 0);
      activeMatches := activeMatches[matchId := m];
      var announced := events + [MatchFound(p1Id, matchId, true), MatchFound(p2Id, matchId, false)];
      events := announced;
      StartGameRound(matchId, 1, now);
      assert activeMatches[matchId] == m.(currentRound := 1, p1Answer := None, p2Answer := None, roundStartTime := now);
      assert events[|old(events)| + 2] == events[|announced|];
    }

    /** The matchmaking part of the connection handler: a socket other than
        the waiting one is paired with it in a new match under `matchId` and
        the slot is cleared; otherwise the socket takes the slot. `matchId` is
        what generateMatchId drew; it names no live match and no pending
        timer. */
    method Connect(socketId: string, matchId: string, now: int)
      requires Valid()
      requires matchId !in activeMatches
      requires NoTimerFor(timers, matchId)
      requires forall id :: id in activeMatches ==> !activeMatches[id].Involves(socketId)
      modifies this
      ensures Valid()
      ensures timers == old(timers)
      ensures old(waitingPlayer).Some? && old(waitingPlayer).value != socketId ==>
                && waitingPlayer == None
                && matchId in activeMatches
                && var m := activeMatches[matchId];
                   && activeMatches == old(activeMatches)[matchId :=
                        Match(matchId, old(waitingPlayer).value, socketId, 0, 0, 1, m.questions, None, None, now)]
                   && |m.questions| == |flagData| && multiset(m.questions) == multiset(flagData)
                   && |events| == |old(events)| + 3
                   && events == old(events) + [MatchFound(old(waitingPlayer).value, matchId, true),
                                               MatchFound(socketId, matchId, false), events[|old(events)| + 2]]
                   && Announces(events[|old(events)| + 2], matchId, 1, m.questions[0])
      ensures !(old(waitingPlayer).Some? && old(waitingPlayer).value != socketId) ==>
                && waitingPlayer == Some(socketId)
                && activeMatches == old(activeMatches)
                && events == old(events) + [WaitingForOpponent(socketId)]
    {
      if waitingPlayer.Some? && waitingPlayer.value != socketId {
        ghost var before := activeMatches;
        CreateNewMatch(waitingPlayer.value, socketId, matchId, now);
        waitingPlayer := None;
        ConsistentAfterCreate(|flagData|, before, timers, matchId, activeMatches[matchId]);
      } else {
        waitingPlayer := Some(socketId);
        events := events + [WaitingForOpponent(socketId)];
      }
    }

    /** The recording step of submit_answer on a live match: the answer,
        stamped with the receipt time, is stored only while the player's seat
        of the round is empty, and then both players hear of it. */
    method RecordAnswer(socketId: string, matchId: string, answer: string, now: int) returns (recorded: bool)
      requires matchId in activeMatches
      modifies this`activeMatches, this`events
      ensures var m := old(activeMatches[matchId]);
              var seat := SeatOf(m, socketId);
              var opponentId := if seat == P1 then m.p2Id else m.p1Id;
              && recorded == m.AnswerAt(seat).None?
              && (!recorded ==> activeMatches == old(activeMatches) && events == old(events))
              && (recorded ==>
                    && activeMatches == old(activeMatches)[matchId := m.WithAnswer(seat, Answer(answer, now))]
                    && events == old(events) + [AnswerRegistered(socketId, now - m.roundStartTime, false),
                                                AnswerRegistered(opponentId, now - m.roundStartTime, true)])
    {
      var m := activeMatches[matchId];
      var answerData := Answer(answer, now);
      var isP1 := socketId == m.p1Id;
      var timeElapsed := now - m.roundStartTime;
      var opponentId := if isP1 then m.p2Id else m.p1Id;
      recorded := false;
      if isP1 && m.p1Answer.None? {
        m := m.(p1Answer := Some(answerData));
        recorded := true;
      } else if !isP1 && m.p2Answer.None? {
        m := m.(p2Answer := Some(answerData));
        recorded := true;
      }
      if recorded {
        activeMatches := activeMatches[matchId := m];
        events := events + [AnswerRegistered(socketId, timeElapsed, false),
                            AnswerRegistered(opponentId, timeElapsed, true)];
      }
    }

    /** The submit_answer handler. An unknown match id is ignored; a player's
        answer is recorded only while that player's seat of the round is
        empty, and then both players hear of it; scoring runs only when this
        submission completed the pair (see `TriggersScoring`), so a repeated
        submission changes nothing at all. */
    method SubmitAnswer(socketId: string, matchId: string, answer: string, now: int)
      requires Valid()
      modifies this`activeMatches, this`timers, this`events
      ensures Valid()
      ensures waitingPlayer == old(waitingPlayer)
      ensures matchId !in old(activeMatches) ==>
                activeMatches == old(activeMatches) && timers == old(timers) && events == old(events)
      ensures matchId in old(activeMatches) ==>
                var m := old(activeMatches[matchId]);
                var seat := SeatOf(m, socketId);
                var m1 := m.WithAnswer(seat, Answer(answer, now));
                var opponentId := if seat == P1 then m.p2Id else m.p1Id;
                var registered := old(events) + [AnswerRegistered(socketId, now - m.roundStartTime, false),
                                                 AnswerRegistered(opponentId, now - m.roundStartTime, true)];
                && (m.AnswerAt(seat).Some? ==>
                      activeMatches == old(activeMatches) && timers == old(timers) && events == old(events))
                && (m.AnswerAt(seat).None? && !m1.BothAnswered() ==>
                      activeMatches == old(activeMatches)[matchId := m1] && timers == old(timers) && events == registered)
                && (m.AnswerAt(seat).None? && m1.BothAnswered() &&
                    AfterScoring(m1.currentRound, Scored(m1).p1Score, Scored(m1).p2Score, |m1.questions|).NextRound? ==>
                      && activeMatches == old(activeMatches)[matchId := Scored(m1)]
                      && timers == old(timers) + [Timer(matchId, m1.currentRound + 1)]
                      && events == registered + [RoundResultsOf(matchId, m1)])
                && (m.AnswerAt(seat).None? && m1.BothAnswered() &&
                    AfterScoring(m1.currentRound, Scored(m1).p1Score, Scored(m1).p2Score, |m1.questions|) == EndMatch ==>
                      && activeMatches == old(activeMatches) - {matchId}
                      && timers == old(timers)
                      && events == registered + [RoundResultsOf(matchId, m1),
                                                 GameOver(matchId, MatchWinner(Scored(m1)), Scored(m1).p1Score, Scored(m1).p2Score)])
    {
      if matchId !in activeMatches {
        return;
      }
      ghost var seat := SeatOf(activeMatches[matchId], socketId);
      ghost var before := activeMatches;
      var recorded := RecordAnswer(socketId, matchId, answer, now);
      if !recorded {
        return;
      }
      ConsistentAfterRecord(|flagData|, before, timers, matchId, seat, Answer(answer, now));
      SocketsApartAfterUpdate(waitingPlayer, before, matchId, activeMatches[matchId]);
      if TriggersScoring(recorded, activeMatches[matchId]) {
        ghost var recordedMatches, pending := activeMatches, timers;
        var outcome := CalculateScores(matchId, false);
        if outcome.Ended? {
          ConsistentAfterRemoval(|flagData|, recordedMatches, pending, matchId);
          SocketsApartAfterRemoval(waitingPlayer, recordedMatches, matchId);
        } else {
          ConsistentAfterScheduling(|flagData|, recordedMatches, pending, matchId, outcome.round);
          SocketsApartAfterUpdate(waitingPlayer, recordedMatches, matchId, activeMatches[matchId]);
        }
      }
    }

    /** The disconnect handler: the waiting player only empties the slot;
        any other socket ends the one match it plays in, if any, telling the
        opponent, and no other match is touched. At most one match holds the
        socket, so afterwards none does. */
    method Disconnect(socketId: string) returns (removed: Option<string>)
      requires Valid()
      modifies this`waitingPlayer, this`activeMatches, this`events
      ensures Valid()
      ensures timers == old(timers)
      ensures old(waitingPlayer) == Some(socketId) ==> waitingPlayer == None && removed == None
      ensures old(waitingPlayer) != Some(socketId) ==> waitingPlayer == old(waitingPlayer)
      ensures removed.None? ==> activeMatches == old(activeMatches) && events == old(events)
      ensures removed.None? && old(waitingPlayer) != Some(socketId) ==>
                forall id :: id in old(activeMatches) ==> !old(activeMatches)[id].Involves(socketId)
      ensures removed.Some? ==>
                removed.value in old(activeMatches) &&
                var id := removed.value;
                var m := old(activeMatches)[id];
                && m.Involves(socketId)
                && activeMatches == old(activeMatches) - {id}
                && events == old(events) + [OpponentDisconnected(if m.p1Id == socketId then m.p2Id else m.p1Id)]
      ensures forall id :: id in activeMatches ==> !activeMatches[id].Involves(socketId)
    {
      removed := None;
      if waitingPlayer == Some(socketId) {
        waitingPlayer := None;
        return;
      }
      var keys := activeMatches.Keys;
      while keys != {}
        invariant keys <= activeMatches.Keys
        invariant activeMatches == old(activeMatches) && events == old(events)
        invariant timers == old(timers) && waitingPlayer == old(waitingPlayer)
        invariant forall id :: id in activeMatches && id !in keys ==> !activeMatches[id].Involves(socketId)
        decreases keys
      {
        var id :| id in keys;
        var m := activeMatches[id];
        if m.Involves(socketId) {
          var opponentId := if m.p1Id == socketId then m.p2Id else m.p1Id;
          events := events + [OpponentDisconnected(opponentId)];
          ConsistentAfterRemoval(|flagData|, activeMatches, timers, id);
          activeMatches := activeMatches - {id};
          removed := Some(id);
          return;
        }
        keys := keys - {id};
      }
    }

    /** One pending setTimeout fires: the oldest timer runs startGameRound.
        On a live match that round exists and is announced; a timer whose
        match is gone does nothing. */
    method FireTimer(now: int)
      requires Valid()
      modifies this`activeMatches, this`timers, this`events
      ensures Valid()
      ensures waitingPlayer == old(waitingPlayer)
      ensures old(timers) == [] ==>
                timers == [] && activeMatches == old(activeMatches) && events == old(events)
      ensures old(timers) != [] ==>
                var t := old(timers)[0];
                && timers == old(timers)[1..]
                && (t.matchId !in old(activeMatches) ==>
                      activeMatches == old(activeMatches) && events == old(events))
                && (t.matchId in old(activeMatches) ==>
                      var m := old(activeMatches)[t.matchId];
                      && t.round == m.currentRound + 1
                      && activeMatches == old(activeMatches)[t.matchId := m.(currentRound := t.round,
                           p1Answer := None, p2Answer := None, roundStartTime := now)]
                      && |events| == |old(events)| + 1
                      && events[..|old(events)|] == old(events)
                      && Announces(events[|old(events)|], t.matchId, t.round, m.questions[t.round - 1]))
    {
      if timers == [] {
        return;
      }
      var t := timers[0];
      ConsistentAfterFire(|flagData|, activeMatches, timers, now);
      timers := timers[1..];
      StartGameRound(t.matchId, t.round, now);
    }
  }
}
