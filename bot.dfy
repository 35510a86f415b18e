/** The bot's game state and its turn routine: `BotGame` records every turn it
    answers and counts them; `NewTurnAction` runs the decision cascade with the
    two scoring loops written out. */
module Bot {
  import opened Opt
  import opened Board
  import opened Dict
  import opened Messages
  import opened Steps
  import opened Targets
  import opened Decision

  /** One answered turn: the turn received and the action returned. */
  datatype BotGameTurn = BotGameTurn(turn: Turn, action: Action)

  /** The greedy loop of both approach branches: the first neighbour on the
      board with the greatest `(15 - dist) * 2 + energy` toward `target`. */
  method GreedyMove(cur: Pos, target: Pos, localEnergy: Dict<int>) returns (bestMove: Option<Pos>)
    ensures bestMove == GreedyStep(cur, target, localEnergy)
  {
    ghost var f := TowardTarget(target, localEnergy);
    bestMove := None;
    var bestScore: Option<int> := None;  // minus infinity
    for k := 0 to |Moves|
      invariant Best(bestMove, bestScore) == Scan(cur, f, None, k)
    {
      var n := Step(cur, k);
      assert Scan(cur, f, None, k + 1) ==
        if InBoard(n) && Beats(f(n), bestScore) then Best(Some(n), Some(f(n))) else Best(bestMove, bestScore);
      if 0 <= n.x < BoardSize && 0 <= n.y < BoardSize {
        var dist := Manhattan(n, target);
        var energyHere := EnergyAt(localEnergy, n);
        var score := (DistanceBase - dist) * 2 + energyHere;
        assert score == f(n);
        if bestScore.None? || score > bestScore.value {
          bestScore := Some(score);
          bestMove := Some(n);
        }
      }
    }
  }

  /** The keyless loop: the first neighbour on the board with the most energy,
      where the energy must beat the starting bar of -1. */
  method RichestMove(cur: Pos, localEnergy: Dict<int>) returns (bestMove: Option<Pos>)
    ensures bestMove == RichestStep(cur, localEnergy)
  {
    ghost var f := MostEnergy(localEnergy);
    bestMove := None;
    var bestEnergy := -1;
    for k := 0 to |Moves|
      invariant Best(bestMove, Some(bestEnergy)) == Scan(cur, f, Some(-1), k)
    {
      var n := Step(cur, k);
      assert Scan(cur, f, Some(-1), k + 1) ==
        if InBoard(n) && f(n) > bestEnergy then Best(Some(n), Some(f(n))) else Best(bestMove, Some(bestEnergy));
      if 0 <= n.x < BoardSize && 0 <= n.y < BoardSize {
        var energyHere := EnergyAt(localEnergy, n);
        if energyHere > bestEnergy {
          bestEnergy := energyHere;
          bestMove := Some(n);
        }
      }
    }
  }

  /** The decision cascade of the turn routine: the with-key or the keyless
      exits, and the random king move when neither of them returns. */
  method ChooseAction(me: int, turn: Turn, connectPick: nat, movePick: nat) returns (action: Action)
    ensures action == Decide(AsWritten, me, turn, connectPick, movePick)
  {
    var chosen: Option<Action>;
    if turn.haveKey {
      chosen := WithKey(me, turn, connectPick);
    } else {
      chosen := WithoutKey(me, turn);
    }
    if chosen.Some? {
      action := chosen.value;
    } else {
      // fallback: a random king move, not bounds-checked
      action := Action(Move, Step(turn.position, movePick % |Moves|));
    }
  }

  /** The with-key exits: connect from an own lighthouse, else a greedy step
      toward the nearest lighthouse to connect; None when neither applies. The
      connection filter is the one written at main.py:59-62, which keeps every
      lighthouse. */
  method WithKey(me: int, turn: Turn, connectPick: nat) returns (chosen: Option<Action>)
    requires turn.haveKey
    ensures chosen.None? <==> BranchOf(AsWritten, me, turn) == RandomStep
    ensures chosen.Some? ==> chosen.value == Decide(AsWritten, me, turn, connectPick, 0)
  {
    var cur := turn.position;
    var lighthouses := LighthouseDict(turn);
    var currentLh := Get(lighthouses, cur);
    var localEnergy := EnergyDict(turn);
    assert (currentLh.Some? && currentLh.value.owner == me) == OnOwnLighthouse(me, turn);

    var targets := OwnOthers(lighthouses, me, cur);
    targets := UnconnectedAsWritten(lighthouses, targets, cur);
    assert targets == Candidates(AsWritten, me, turn);

    if currentLh.Some? && currentLh.value.owner == me && |targets| > 0 {
      var target := targets[connectPick % |targets|];
      assert BranchOf(AsWritten, me, turn) == ConnectHere;
      return Some(Action(Connect, target));
    }

    if |targets| > 0 {
      var target := Nearest(targets, cur);
      var bestMove := GreedyMove(cur, target, localEnergy);
      if bestMove.Some? {
        assert BranchOf(AsWritten, me, turn) == ApproachToConnect;
        return Some(Action(Move, bestMove.value));
      }
    }
    return None;
  }

  /** The keyless exits: on an own lighthouse step to the richest neighbour,
      else a greedy step toward the nearest other own lighthouse; None when
      neither applies. */
  method WithoutKey(me: int, turn: Turn) returns (chosen: Option<Action>)
    requires !turn.haveKey
    ensures chosen.None? <==> BranchOf(AsWritten, me, turn) == RandomStep
    ensures chosen.Some? ==> chosen.value == Decide(AsWritten, me, turn, 0, 0)
  {
    var cur := turn.position;
    var lighthouses := LighthouseDict(turn);
    var currentLh := Get(lighthouses, cur);
    var localEnergy := EnergyDict(turn);
    assert (currentLh.Some? && currentLh.value.owner == me) == OnOwnLighthouse(me, turn);

    var targets := OwnOthers(lighthouses, me, cur);
    assert targets == Candidates(AsWritten, me, turn);

    if currentLh.Some? && currentLh.value.owner == me {
      var bestMove := RichestMove(cur, localEnergy);
      if bestMove.Some? {
        assert BranchOf(AsWritten, me, turn) == RichestNeighbour;
        return Some(Action(Move, bestMove.value));
      }
    }

    if |targets| > 0 {
      var target := Nearest(targets, cur);
      var bestMove := GreedyMove(cur, target, localEnergy);
      if bestMove.Some? {
        assert BranchOf(AsWritten, me, turn) == ApproachForKey;
        return Some(Action(Move, bestMove.value));
      }
    }
    return None;
  }

  class BotGame {
    var playerNum: int
    var initialState: Option<InitialState>
    var turnStates: seq<BotGameTurn>
    var countT: int

    /** `countT` starts at 1 and moves with every recorded turn. */
    ghost predicate Valid()
      reads this
    {
      countT == |turnStates| + 1
    }

    constructor (playerNum: int)
      ensures Valid()
      ensures this.playerNum == playerNum && initialState == None
      ensures turnStates == [] && countT == 1
    {
      this.playerNum := playerNum;
      initialState := None;
      turnStates := [];
      countT := 1;
    }

    /** Answers one turn: returns the decided action, records the turn with
        that same action, and counts it. Nothing else changes. */
    method NewTurnAction(turn: Turn, connectPick: nat, movePick: nat) returns (action: Action)
      requires Valid()
      modifies this`turnStates, this`countT
      ensures Valid()
      ensures action == Decide(AsWritten, playerNum, turn, connectPick, movePick)
      ensures turnStates == old(turnStates) + [BotGameTurn(turn, action)]
      ensures countT == old(countT) + 1
      ensures playerNum == old(playerNum) && initialState == old(initialState)
    {
      action := ChooseAction(playerNum, turn, connectPick, movePick);
      turnStates := turnStates + [BotGameTurn(turn, action)];
      countT := countT + 1;
    }
  }
}
