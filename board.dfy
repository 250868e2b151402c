/**
  * The live state of the page (`state` in the script) and the handlers that change
  * it.  Each handler is proved to leave exactly the state that the corresponding
  * function of `ScoreState` computes from the state before it, and to keep the
  * state consistent.
  */
module Board {
  import opened Wrappers
  import opened Rules
  import opened ScoreState

  class ScoreBoard {
    var game: Game
    var target: string
    var names: seq<string>
    var totals: array<int>
    var rounds: seq<Round>
    var history: seq<State>

    /** `snapshot()`: a copy of the whole state as a value. */
    function Snapshot(): State
      reads this, totals
    {
      State(game, target, names, totals[..], rounds, history)
    }

    ghost predicate Valid()
      reads this, totals
    {
      totals.Length == 4 && Consistent(Snapshot())
    }

    /** The state the page starts with: 400, no target, default names, zero totals, no rounds, no history. */
    constructor ()
      ensures Valid() && Snapshot() == Initial()
    {
      game := FourHundred;
      target := "";
      names := ["Player 1", "Player 2", "Player 3", "Player 4"];
      totals := new int[4](_ => 0);
      rounds := [];
      history := [];
      new;
      assert totals[..] == [0, 0, 0, 0];
      InitialConsistent();
    }

    /** `pushUndo`: push a snapshot and drop the oldest one beyond the capacity. */
    method PushUndo()
      requires Valid()
      modifies this
      ensures Valid() && totals == old(totals)
      ensures Snapshot() == ScoreState.PushUndo(old(Snapshot()))
    {
      ghost var before := Snapshot();
      history := history + [Snapshot()];
      if |history| > Capacity {
        history := history[1..];
      }
      PushConsistent(before);
    }

    /** `totals[i] += points[i]` for each seat, as the `forEach` loops of the add handlers do. */
    method AddPoints(points: seq<int>)
      requires totals.Length == 4 && |points| == 4
      modifies totals
      ensures totals[..] == AddVec(old(totals[..]), points)
    {
      var i := 0;
      while i < 4
        invariant 0 <= i <= 4
        invariant forall j :: 0 <= j < i ==> totals[j] == old(totals[j]) + points[j]
        invariant forall j :: i <= j < 4 ==> totals[j] == old(totals[j])
      {
        totals[i] := totals[i] + points[i];
        i := i + 1;
      }
    }

    /** `totals[i] -= points[i]` for each seat, as `deleteLastRound` does. */
    method SubtractPoints(points: seq<int>)
      requires totals.Length == 4 && |points| == 4
      modifies totals
      ensures totals[..] == SubVec(old(totals[..]), points)
    {
      var i := 0;
      while i < 4
        invariant 0 <= i <= 4
        invariant forall j :: 0 <= j < i ==> totals[j] == old(totals[j]) - points[j]
        invariant forall j :: i <= j < 4 ==> totals[j] == old(totals[j])
      {
        totals[i] := totals[i] - points[i];
        i := i + 1;
      }
    }

    /** Add a round's points to the totals and append the round, as both add handlers end. */
    method AppendRound(r: Round)
      requires totals.Length == 4 && |r.points| == 4
      modifies this, totals
      ensures totals == old(totals)
      ensures Snapshot() == ScoreState.AppendRound(old(Snapshot()), r)
    {
      AddPoints(r.points);
      rounds := rounds + [r];
    }

    /** `addRound400`: the manual points of the four seats are added as a new round. */
    method AddRound400(targetText: string, values: seq<int>)
      requires Valid() && |values| == 4
      modifies this, totals
      ensures Valid() && totals == old(totals)
      ensures Snapshot() == ScoreState.AddRound400(old(Snapshot()), targetText, values)
    {
      ghost var before := Snapshot();
      PushUndo();
      target := targetText;
      AppendRound(Round(|rounds| + 1, FourHundred, Manual, values, values));
      AddRound400Consistent(before, targetText, values);
    }

    /** `addRoundTrix`: clamp, validate, and either roll the push back or add the round. */
    method AddRoundTrix(targetText: string, g: SubGame, raw: seq<int>) returns (err: Option<RuleError>)
      requires Valid() && |raw| == 4
      modifies this, totals
      ensures Valid() && totals == old(totals)
      ensures (Snapshot(), err) == ScoreState.AddRoundTrix(old(Snapshot()), targetText, g, raw)
    {
      ghost var before := Snapshot();
      PushUndo();
      target := targetText;
      var input := RoundInput(g, raw);
      err := Validate(Tag(g), input);
      AddRoundTrixConsistent(before, targetText, g, raw);
      if err.Some? {
        history := history[..|history| - 1];
        return;
      }
      AppendRound(Round(|rounds| + 1, TrixGame, Contract(g), input, Points(g, input)));
    }

    /** `deleteLastRound`: with rounds, push, pop the last round and subtract its points. */
    method DeleteLastRound()
      requires Valid()
      modifies this, totals
      ensures Valid() && totals == old(totals)
      ensures Snapshot() == ScoreState.DeleteLastRound(old(Snapshot()))
    {
      if |rounds| == 0 {
        return;
      }
      ghost var before := Snapshot();
      PushUndo();
      var last := rounds[|rounds| - 1];
      rounds := rounds[..|rounds| - 1];
      SubtractPoints(last.points);
      DeleteLastRoundConsistent(before);
    }

    /** `newGame`: push, then no rounds, fresh zero totals and no target. */
    method NewGame()
      requires Valid()
      modifies this
      ensures Valid() && fresh(totals)
      ensures Snapshot() == ScoreState.NewGame(old(Snapshot()))
    {
      ghost var before := Snapshot();
      PushUndo();
      rounds := [];
      totals := new int[4](_ => 0);
      target := "";
      assert totals[..] == [0, 0, 0, 0];
      NewGameConsistent(before);
    }

    /** `onGameChange`: push, then switch the game. */
    method SwitchGame(newGame: Game)
      requires Valid()
      modifies this
      ensures Valid() && totals == old(totals)
      ensures Snapshot() == ScoreState.SwitchGame(old(Snapshot()), newGame)
    {
      ghost var before := Snapshot();
      PushUndo();
      game := newGame;
      SwitchGameConsistent(before, newGame);
    }

    /** A name field's input handler: no snapshot is pushed. */
    method Rename(seat: nat, text: string)
      requires Valid() && seat < 4
      modifies this
      ensures Valid() && totals == old(totals)
      ensures Snapshot() == ScoreState.Rename(old(Snapshot()), seat, text)
    {
      ghost var before := Snapshot();
      names := names[seat := if text == "" then DefaultName(seat) else text];
      RenameConsistent(before, seat, text);
    }

    /** `undo`: pop the latest snapshot and make it the whole state; nothing when there is none. */
    method Undo()
      requires Valid()
      modifies this
      ensures Valid()
      ensures old(history) == [] ==> totals == old(totals)
      ensures old(history) != [] ==> fresh(totals)
      ensures Snapshot() == ScoreState.Undo(old(Snapshot()))
    {
      if |history| == 0 {
        return;
      }
      ghost var before := Snapshot();
      var prev := history[|history| - 1];
      history := history[..|history| - 1];
      UndoConsistent(before);
      assert |prev.totals| == 4;
      game, target, names, rounds, history := prev.game, prev.target, prev.names, prev.rounds, prev.history;
      totals := new int[4](i requires 0 <= i < 4 => prev.totals[i]);
      assert totals[..] == prev.totals;
    }
  }
}
