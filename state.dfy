/**
  * The score state of the scoreboard and its operations as functions on values.
  * A `State` is what `snapshot()` copies: the whole state, including the undo
  * history, whose entries are themselves whole states.  Every operation that
  * pushes a snapshot first does so with the state as it was before it.
  */
module ScoreState {
  import opened Wrappers
  import opened Rules

  /** The undo history keeps at most this many snapshots. */
  const Capacity := 50

  datatype Game = FourHundred | TrixGame

  /** The `type` of a round: "manual" for 400, the sub-game for Trix. */
  datatype RoundKind = Manual | Contract(g: SubGame)

  /** One entry of `rounds`: its 1-based `idx`, game, type, the (clamped) input and the points applied. */
  datatype Round = Round(idx: int, game: Game, kind: RoundKind, input: seq<int>, points: seq<int>)

  /** The whole state; the target is kept as the trimmed text of the target field. */
  datatype State = State(
    game: Game,
    target: string,
    names: seq<string>,
    totals: seq<int>,
    rounds: seq<Round>,
    history: seq<State>)

  /** The name a seat falls back to when its name field is emptied: "Player 1" .. "Player 4". */
  function DefaultName(seat: nat): string
    requires seat < 4
  {
    "Player " + [('1' as int + seat) as char]
  }

  /** The state the page starts in. */
  function Initial(): State
  {
    State(FourHundred, "", ["Player 1", "Player 2", "Player 3", "Player 4"], [0, 0, 0, 0], [], [])
  }

  // ----- Totals -----

  /** Seat `i`'s points in round `r` (0 when the round has no entry for the seat). */
  function PointAt(r: Round, i: nat): int
  {
    if i < |r.points| then r.points[i] else 0
  }

  /** The sum of seat `i`'s points over `rounds`. */
  function ColumnSum(rounds: seq<Round>, i: nat): int
  {
    if rounds == [] then 0 else ColumnSum(rounds[..|rounds| - 1], i) + PointAt(rounds[|rounds| - 1], i)
  }

  /** The totals the four seats must have after `rounds`. */
  function TotalsOf(rounds: seq<Round>): seq<int>
  {
    [ColumnSum(rounds, 0), ColumnSum(rounds, 1), ColumnSum(rounds, 2), ColumnSum(rounds, 3)]
  }

  /** `totals[i] += points[i]` for every seat. */
  function AddVec(totals: seq<int>, points: seq<int>): seq<int>
  {
    seq(|totals|, i requires 0 <= i < |totals| => totals[i] + (if i < |points| then points[i] else 0))
  }

  /** `totals[i] -= points[i]` for every seat. */
  function SubVec(totals: seq<int>, points: seq<int>): seq<int>
  {
    seq(|totals|, i requires 0 <= i < |totals| => totals[i] - (if i < |points| then points[i] else 0))
  }

  /** Rounds are numbered 1..n in order and carry one input and one point entry per seat. */
  predicate Numbered(rounds: seq<Round>)
  {
    forall k :: 0 <= k < |rounds| ==> rounds[k].idx == k + 1 && |rounds[k].input| == 4 && |rounds[k].points| == 4
  }

  /**
    * The invariant of the state: four names, totals equal to the column sums of the
    * rounds, rounds numbered in order, at most `Capacity` snapshots, each consistent.
    */
  predicate Consistent(s: State)
    decreases s
  {
    |s.names| == 4 && s.totals == TotalsOf(s.rounds) && Numbered(s.rounds) && |s.history| <= Capacity
    && forall h :: h in s.history ==> Consistent(h)
  }

  // ----- The undo history -----

  /** `history.push(snap)`, then drop the oldest entry if there are more than `Capacity`. */
  function Push(history: seq<State>, snap: State): seq<State>
  {
    var pushed := history + [snap];
    if |pushed| > Capacity then pushed[1..] else pushed
  }

  /** `history.pop()`, which leaves an empty history alone. */
  function Pop(history: seq<State>): seq<State>
  {
    if history == [] then [] else history[..|history| - 1]
  }

  /** `pushUndo`: push a snapshot of the whole current state. */
  function PushUndo(s: State): State
  {
    s.(history := Push(s.history, s))
  }

  /** `undo`: replace the state by the latest snapshot, if there is one. */
  function Undo(s: State): State
  {
    if s.history == [] then s else s.history[|s.history| - 1]
  }

  // ----- Operations -----

  /** How both add handlers end: the round's points go onto the totals and the round is appended. */
  function AppendRound(p: State, r: Round): State
  {
    p.(totals := AddVec(p.totals, r.points), rounds := p.rounds + [r])
  }

  /** `addRound400`: the manual points are both the input and the points of the new round. */
  function AddRound400(s: State, target: string, values: seq<int>): State
  {
    var p := PushUndo(s).(target := target);
    AppendRound(p, Round(|p.rounds| + 1, FourHundred, Manual, values, values))
  }

  /**
    * `addRoundTrix`: push, overwrite the target, clamp and validate; a rejected round
    * pops the history once and reports the rule that failed.
    */
  function AddRoundTrix(s: State, target: string, g: SubGame, raw: seq<int>): (State, Option<RuleError>)
  {
    var p := PushUndo(s).(target := target);
    var input := RoundInput(g, raw);
    var err := Validate(Tag(g), input);
    if err.Some? then
      (p.(history := Pop(p.history)), err)
    else
      (AppendRound(p, Round(|p.rounds| + 1, TrixGame, Contract(g), input, Points(g, input))), None)
  }

  /** `deleteLastRound`: nothing at all when there are no rounds; otherwise push, pop, subtract. */
  function DeleteLastRound(s: State): State
  {
    if s.rounds == [] then s
    else
      var p := PushUndo(s);
      var last := p.rounds[|p.rounds| - 1];
      p.(rounds := p.rounds[..|p.rounds| - 1], totals := SubVec(p.totals, last.points))
  }

  /** `newGame`: push, then clear the rounds, the totals and the target. */
  function NewGame(s: State): State
  {
    PushUndo(s).(rounds := [], totals := [0, 0, 0, 0], target := "")
  }

  /** `onGameChange`: push, then switch the game. */
  function SwitchGame(s: State, game: Game): State
  {
    PushUndo(s).(game := game)
  }

  /** Editing seat `seat`'s name field: no snapshot; an empty field falls back to the default name. */
  function Rename(s: State, seat: nat, text: string): State
    requires seat < 4 <= |s.names|
  {
    s.(names := s.names[seat := if text == "" then DefaultName(seat) else text])
  }

  // ----- Lemmas: the undo history -----

  /**
    * The history never grows past `Capacity`; the new snapshot is always last; below
    * capacity nothing is lost, at capacity exactly the oldest entry is dropped.
    */
  lemma PushBounded(history: seq<State>, snap: State)
    requires |history| <= Capacity
    ensures |Push(history, snap)| <= Capacity
    ensures Push(history, snap)[|Push(history, snap)| - 1] == snap
    ensures |history| < Capacity ==> Push(history, snap) == history + [snap]
    ensures |history| == Capacity ==> Push(history, snap) == history[1..] + [snap]
  {
  }

  /** Pushing keeps every snapshot in the history consistent. */
  lemma PushConsistent(s: State)
    requires Consistent(s)
    ensures Consistent(PushUndo(s))
  {
  }

  /** Undoing right after a push gives back exactly the state that was pushed, history included. */
  lemma UndoAfterPush(s: State, after: State)
    requires |s.history| <= Capacity
    requires after.history == Push(s.history, s)
    ensures Undo(after) == s
  {
  }

  /**
    * Every operation that pushes a snapshot is undone by `undo`, even when the push
    * evicted the oldest snapshot: the snapshot itself still holds the full history.
    */
  lemma UndoRoundTrip(s: State, target: string, values: seq<int>, game: Game, g: SubGame, raw: seq<int>)
    requires |s.history| <= Capacity
    ensures Undo(AddRound400(s, target, values)) == s
    ensures AddRoundTrix(s, target, g, raw).1 == None ==> Undo(AddRoundTrix(s, target, g, raw).0) == s
    ensures s.rounds != [] ==> Undo(DeleteLastRound(s)) == s
    ensures Undo(NewGame(s)) == s
    ensures Undo(SwitchGame(s, game)) == s
  {
    UndoAfterPush(s, AddRound400(s, target, values));
    if AddRoundTrix(s, target, g, raw).1 == None {
      UndoAfterPush(s, AddRoundTrix(s, target, g, raw).0);
    }
    if s.rounds != [] {
      UndoAfterPush(s, DeleteLastRound(s));
    }
    UndoAfterPush(s, NewGame(s));
    UndoAfterPush(s, SwitchGame(s, game));
  }

  /** With an empty history `undo` changes nothing. */
  lemma UndoEmpty(s: State)
    requires s.history == []
    ensures Undo(s) == s
  {
  }

  /**
    * A rejected Trix round keeps totals, rounds, names and game, but it has overwritten
    * the target, and its push-then-pop rollback is exact only below capacity: at
    * capacity the push evicted the oldest snapshot, which the pop does not bring back.
    */
  lemma RejectedTrixRound(s: State, target: string, g: SubGame, raw: seq<int>)
    requires |s.history| <= Capacity
    requires AddRoundTrix(s, target, g, raw).1.Some?
    ensures var t := AddRoundTrix(s, target, g, raw).0;
      t.totals == s.totals && t.rounds == s.rounds && t.names == s.names && t.game == s.game
      && t.target == target
      && (|s.history| < Capacity ==> t.history == s.history)
      && (|s.history| == Capacity ==> t.history == s.history[1..])
  {
  }

  /** At capacity a rejected Trix round loses a snapshot, so `undo` can no longer reach the oldest state. */
  lemma RejectedAtCapacityLosesOldest(s: State, target: string, g: SubGame, raw: seq<int>)
    requires |s.history| == Capacity
    requires AddRoundTrix(s, target, g, raw).1.Some?
    ensures |AddRoundTrix(s, target, g, raw).0.history| == Capacity - 1
  {
  }

  // ----- Lemmas: totals and rounds -----

  /** Appending a round adds its points to each seat's column sum. */
  lemma ColumnSumAppend(rounds: seq<Round>, r: Round, i: nat)
    ensures ColumnSum(rounds + [r], i) == ColumnSum(rounds, i) + PointAt(r, i)
  {
  }

  /** Appending a round adds its points to the totals. */
  lemma TotalsAppend(rounds: seq<Round>, r: Round)
    ensures TotalsOf(rounds + [r]) == AddVec(TotalsOf(rounds), r.points)
  {
    ColumnSumAppend(rounds, r, 0);
    ColumnSumAppend(rounds, r, 1);
    ColumnSumAppend(rounds, r, 2);
    ColumnSumAppend(rounds, r, 3);
  }

  /** Dropping the last round subtracts its points from the totals. */
  lemma TotalsDropLast(rounds: seq<Round>)
    requires rounds != []
    ensures TotalsOf(rounds[..|rounds| - 1]) == SubVec(TotalsOf(rounds), rounds[|rounds| - 1].points)
  {
    var rest := rounds[..|rounds| - 1];
    assert rounds == rest + [rounds[|rounds| - 1]];
    TotalsAppend(rest, rounds[|rounds| - 1]);
  }

  /** Subtracting what was added gives the totals back. */
  lemma AddSubVec(totals: seq<int>, points: seq<int>)
    ensures SubVec(AddVec(totals, points), points) == totals
  {
  }

  // ----- Lemmas: each operation keeps the state consistent -----

  lemma AddRound400Consistent(s: State, target: string, values: seq<int>)
    requires Consistent(s) && |values| == 4
    ensures Consistent(AddRound400(s, target, values))
  {
    PushConsistent(s);
    var p := PushUndo(s).(target := target);
    AppendConsistent(p, Round(|p.rounds| + 1, FourHundred, Manual, values, values));
  }

  lemma AddRoundTrixConsistent(s: State, target: string, g: SubGame, raw: seq<int>)
    requires Consistent(s) && |raw| == 4
    ensures Consistent(AddRoundTrix(s, target, g, raw).0)
  {
    PushConsistent(s);
    var p := PushUndo(s).(target := target);
    var input := RoundInput(g, raw);
    if Validate(Tag(g), input).Some? {
      PopConsistent(p);
    } else {
      AppendConsistent(p, Round(|p.rounds| + 1, TrixGame, Contract(g), input, Points(g, input)));
    }
  }

  /** Dropping the latest snapshot keeps a state consistent. */
  lemma PopConsistent(p: State)
    requires Consistent(p)
    ensures Consistent(p.(history := Pop(p.history)))
  {
    forall x | x in Pop(p.history) ensures Consistent(x) {
      assert x in p.history;
    }
  }

  /** Adding a round's points to the totals and appending it with the next index keeps a state consistent. */
  lemma AppendConsistent(p: State, r: Round)
    requires Consistent(p) && r.idx == |p.rounds| + 1 && |r.input| == 4 && |r.points| == 4
    ensures Consistent(AppendRound(p, r))
  {
    TotalsAppend(p.rounds, r);
  }

  lemma DeleteLastRoundConsistent(s: State)
    requires Consistent(s)
    ensures Consistent(DeleteLastRound(s))
  {
    if s.rounds != [] {
      PushConsistent(s);
      TotalsDropLast(s.rounds);
    }
  }

  lemma NewGameConsistent(s: State)
    requires Consistent(s)
    ensures Consistent(NewGame(s))
  {
  }

  lemma SwitchGameConsistent(s: State, game: Game)
    requires Consistent(s)
    ensures Consistent(SwitchGame(s, game))
  {
  }

  lemma UndoConsistent(s: State)
    requires Consistent(s)
    ensures Consistent(Undo(s))
  {
  }

  lemma InitialConsistent()
    ensures Consistent(Initial())
  {
  }

  // ----- Lemmas: round trips and no-ops -----

  /**
    * Adding a round and then deleting the last round restores totals and rounds
    * exactly, for a 400 round and for an accepted Trix round.
    */
  lemma AddThenDelete(s: State, target: string, values: seq<int>, g: SubGame, raw: seq<int>)
    ensures DeleteLastRound(AddRound400(s, target, values)).totals == s.totals
    ensures DeleteLastRound(AddRound400(s, target, values)).rounds == s.rounds
    ensures AddRoundTrix(s, target, g, raw).1 == None ==>
      DeleteLastRound(AddRoundTrix(s, target, g, raw).0).totals == s.totals
      && DeleteLastRound(AddRoundTrix(s, target, g, raw).0).rounds == s.rounds
  {
    var p := PushUndo(s).(target := target);
    DeleteAfterAppend(p, Round(|p.rounds| + 1, FourHundred, Manual, values, values));
    if AddRoundTrix(s, target, g, raw).1 == None {
      var input := RoundInput(g, raw);
      DeleteAfterAppend(p, Round(|p.rounds| + 1, TrixGame, Contract(g), input, Points(g, input)));
    }
  }

  /** Deleting the round just appended takes back its points and the round. */
  lemma DeleteAfterAppend(p: State, r: Round)
    ensures DeleteLastRound(AppendRound(p, r)).totals == p.totals
    ensures DeleteLastRound(AppendRound(p, r)).rounds == p.rounds
  {
    AddSubVec(p.totals, r.points);
    assert (p.rounds + [r])[..|p.rounds|] == p.rounds;
  }

  /** `deleteLastRound` with no rounds changes nothing and pushes no snapshot. */
  lemma DeleteWithoutRounds(s: State)
    requires s.rounds == []
    ensures DeleteLastRound(s) == s
  {
  }

  /** Editing a name pushes no snapshot and leaves everything but that seat's name alone. */
  lemma RenameKeepsHistory(s: State, seat: nat, text: string)
    requires seat < 4 <= |s.names|
    ensures Rename(s, seat, text).history == s.history
    ensures Rename(s, seat, text).names[seat] != ""
    ensures Rename(s, seat, text).totals == s.totals && Rename(s, seat, text).rounds == s.rounds
  {
  }

  lemma RenameConsistent(s: State, seat: nat, text: string)
    requires Consistent(s) && seat < 4
    ensures Consistent(Rename(s, seat, text))
  {
  }
}
