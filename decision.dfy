/** The turn decision of `BotGame.new_turn_action` as a function of the turn
    and the player number. The two `random.choice` calls are modelled by the
    indices `connectPick` and `movePick`, which the caller draws; each is taken
    modulo the length of the list it picks from. */
module Decision {
  import opened Opt
  import opened Board
  import opened Dict
  import opened Messages
  import opened Steps
  import opened Targets

  /** The pairs the `lighthouses` comprehension iterates over, in the turn's order. */
  function LighthouseEntries(turn: Turn): seq<Entry<Lighthouse>>
  {
    seq(|turn.lighthouses|, i requires 0 <= i < |turn.lighthouses| =>
      Entry(turn.lighthouses[i].position, turn.lighthouses[i]))
  }

  /** The `lighthouses` dictionary: position to lighthouse, the last one sent winning. */
  function LighthouseDict(turn: Turn): (d: Dict<Lighthouse>)
    ensures DistinctKeys(d)
  {
    FromEntries(LighthouseEntries(turn))
  }

  /** When the turn sends each position once, the `lighthouses` dictionary
      holds the turn's lighthouses in the order the turn lists them. */
  lemma LighthouseDictInTurnOrder(turn: Turn)
    requires forall i, j :: 0 <= i < j < |turn.lighthouses| ==>
      turn.lighthouses[i].position != turn.lighthouses[j].position
    ensures |LighthouseDict(turn)| == |turn.lighthouses|
    ensures forall i :: 0 <= i < |turn.lighthouses| ==>
      LighthouseDict(turn)[i] == Entry(turn.lighthouses[i].position, turn.lighthouses[i])
    ensures forall i :: 0 <= i < |turn.lighthouses| ==>
      Find(LighthouseDict(turn), turn.lighthouses[i].position) == Some(i)
  {
    var es := LighthouseEntries(turn);
    assert DistinctKeys(es);
    DistinctFromEntries(es);
    forall i | 0 <= i < |turn.lighthouses|
      ensures Find(LighthouseDict(turn), turn.lighthouses[i].position) == Some(i)
    {
      var f := Find(es, es[i].key);
      assert f.Some? && f.value == i;
    }
  }

  /** The `local_energy` dictionary: position to cell energy, the last one sent winning. */
  function EnergyDict(turn: Turn): (d: Dict<int>)
    ensures DistinctKeys(d)
  {
    FromEntries(seq(|turn.cells|, i requires 0 <= i < |turn.cells| =>
      Entry(turn.cells[i].position, turn.cells[i].energy)))
  }

  /** A lookup in the `lighthouses` dictionary finds a lighthouse of the turn at
      that position, and misses only when the turn has none there. */
  lemma LighthouseDictGet(turn: Turn, p: Pos)
    ensures Get(LighthouseDict(turn), p).Some? ==>
      Get(LighthouseDict(turn), p).value in turn.lighthouses && Get(LighthouseDict(turn), p).value.position == p
    ensures Get(LighthouseDict(turn), p).None? ==>
      forall i :: 0 <= i < |turn.lighthouses| ==> turn.lighthouses[i].position != p
  {
    var es := LighthouseEntries(turn);
    FromEntriesGet(es, p);
    LastValueIn(es, p);
    if LastValue(es, p).Some? {
      var j :| 0 <= j < |es| && es[j] == Entry(p, LastValue(es, p).value);
      assert turn.lighthouses[j] == LastValue(es, p).value;
    } else {
      forall i | 0 <= i < |turn.lighthouses| ensures turn.lighthouses[i].position != p {
        assert es[i].key == turn.lighthouses[i].position;
      }
    }
  }

  /** When no cell of the turn carries negative energy, no cell of the
      `local_energy` dictionary does. */
  lemma EnergyDictNonNegative(turn: Turn)
    requires forall i :: 0 <= i < |turn.cells| ==> turn.cells[i].energy >= 0
    ensures forall i :: 0 <= i < |EnergyDict(turn)| ==> EnergyDict(turn)[i].value >= 0
  {
    var es := seq(|turn.cells|, i requires 0 <= i < |turn.cells| =>
      Entry(turn.cells[i].position, turn.cells[i].energy));
    var d := EnergyDict(turn);
    forall i | 0 <= i < |d| ensures d[i].value >= 0 {
      GetEntry(d, i);
      FromEntriesGet(es, d[i].key);
      LastValueIn(es, d[i].key);
      var j :| 0 <= j < |es| && es[j] == Entry(d[i].key, d[i].value);
    }
  }

  /** The bot stands on a lighthouse it owns. */
  predicate OnOwnLighthouse(me: int, turn: Turn)
  {
    var here := Get(LighthouseDict(turn), turn.position);
    here.Some? && here.value.owner == me
  }

  /** The first `target_lighthouses` list: own lighthouses other than the current one. */
  function KeyTargets(me: int, turn: Turn): seq<Pos>
  {
    OwnOthers(LighthouseDict(turn), me, turn.position)
  }

  /** Two readings of the with-key filter at main.py:59-62. As written it tests
      a tuple against Position messages and keeps every lighthouse; as intended
      it drops the lighthouses already connected to the current position. The
      routine `BotGame.new_turn_action` is `AsWritten`. */
  datatype Reading = AsWritten | Intended

  /** The with-key `target_lighthouses` list under either reading. */
  function ConnectTargets(rd: Reading, me: int, turn: Turn): seq<Pos>
  {
    var d := LighthouseDict(turn);
    match rd
    case AsWritten => UnconnectedAsWritten(d, KeyTargets(me, turn), turn.position)
    case Intended => Unconnected(d, KeyTargets(me, turn), turn.position)
  }

  /** The list the bot would move toward: the filtered list with the key, its
      other own lighthouses without it. */
  function Candidates(rd: Reading, me: int, turn: Turn): seq<Pos>
  {
    if turn.haveKey then ConnectTargets(rd, me, turn) else KeyTargets(me, turn)
  }

  /** `p` is a lighthouse of the bot's other than the current position and,
      under the intended reading with the key in hand, one not connected to it yet. */
  predicate IsCandidate(rd: Reading, me: int, turn: Turn, p: Pos)
  {
    var lh := Get(LighthouseDict(turn), p);
    && p != turn.position
    && lh.Some? && lh.value.owner == me
    && (rd == Intended && turn.haveKey ==> turn.position !in lh.value.connections)
  }

  /** The candidate list holds exactly the candidates, once each, in the order of
      the `lighthouses` dictionary. */
  lemma CandidatesAre(rd: Reading, me: int, turn: Turn)
    ensures forall p :: p in Candidates(rd, me, turn) <==> IsCandidate(rd, me, turn, p)
    ensures InKeyOrder(LighthouseDict(turn), Candidates(rd, me, turn))
  {
    if rd == AsWritten {
      UnconnectedAsWrittenKeepsAll(LighthouseDict(turn), KeyTargets(me, turn), turn.position);
    }
  }

  /** The lighthouse the bot heads for: the nearest candidate. */
  function Target(rd: Reading, me: int, turn: Turn): Pos
    requires |Candidates(rd, me, turn)| > 0
  {
    Nearest(Candidates(rd, me, turn), turn.position)
  }

  /** Which exit of the routine a turn takes. */
  datatype Branch =
    | ConnectHere        // key in hand, on an own lighthouse, something to connect to
    | ApproachToConnect  // key in hand: greedy step toward the nearest lighthouse to connect
    | RichestNeighbour   // no key, on an own lighthouse: step to the richest neighbour
    | ApproachForKey     // no key: greedy step toward the nearest other own lighthouse
    | RandomStep         // none of the above: a random king move

  function BranchOf(rd: Reading, me: int, turn: Turn): Branch
  {
    var cur := turn.position;
    var energy := EnergyDict(turn);
    var cands := Candidates(rd, me, turn);
    if turn.haveKey then
      if OnOwnLighthouse(me, turn) && |cands| > 0 then ConnectHere
      else if |cands| > 0 && GreedyStep(cur, Nearest(cands, cur), energy).Some? then ApproachToConnect
      else RandomStep
    else
      if OnOwnLighthouse(me, turn) && RichestStep(cur, energy).Some? then RichestNeighbour
      else if |cands| > 0 && GreedyStep(cur, Nearest(cands, cur), energy).Some? then ApproachForKey
      else RandomStep
  }

  /** The action the routine returns. */
  function Decide(rd: Reading, me: int, turn: Turn, connectPick: nat, movePick: nat): (r: Action)
    ensures r.kind == Connect || r.kind == Move
  {
    var cur := turn.position;
    var energy := EnergyDict(turn);
    match BranchOf(rd, me, turn)
    case ConnectHere =>
      var ts := Candidates(rd, me, turn);
      Action(Connect, ts[connectPick % |ts|])
    case ApproachToConnect => Action(Move, GreedyStep(cur, Target(rd, me, turn), energy).value)
    case RichestNeighbour => Action(Move, RichestStep(cur, energy).value)
    case ApproachForKey => Action(Move, GreedyStep(cur, Target(rd, me, turn), energy).value)
    case RandomStep => Action(Move, Step(cur, movePick % |Moves|))
  }

  /** CONNECT is returned only with the key, standing on an own lighthouse, and
      toward an own lighthouse of the turn elsewhere; under the intended reading
      also only toward one not yet connected to this one. */
  lemma ConnectOnlyWhenAllowed(rd: Reading, me: int, turn: Turn, connectPick: nat, movePick: nat)
    ensures Decide(rd, me, turn, connectPick, movePick).kind == Connect ==>
      turn.haveKey && OnOwnLighthouse(me, turn)
    ensures var dest := Decide(rd, me, turn, connectPick, movePick).destination;
      var lh := Get(LighthouseDict(turn), dest);
      Decide(rd, me, turn, connectPick, movePick).kind == Connect ==>
        && dest != turn.position
        && lh.Some? && lh.value.owner == me && lh.value in turn.lighthouses
        && (rd == Intended ==> turn.position !in lh.value.connections)
  {
    if Decide(rd, me, turn, connectPick, movePick).kind == Connect {
      var dest := Decide(rd, me, turn, connectPick, movePick).destination;
      assert dest in Candidates(rd, me, turn);
      CandidatesAre(rd, me, turn);
      LighthouseDictGet(turn, dest);
    }
  }

  /** The bot holds the key on its lighthouse at (0, 0); its other lighthouse,
      at (3, 3), already lists (0, 0) among its connections. */
  function ReconnectTurn(): Turn
  {
    Turn(Pos(0, 0), true, [Lighthouse(Pos(0, 0), 1, [Pos(3, 3)]), Lighthouse(Pos(3, 3), 1, [Pos(0, 0)])], [])
  }

  lemma ReconnectTurnTargets()
    ensures OnOwnLighthouse(1, ReconnectTurn())
    ensures Get(LighthouseDict(ReconnectTurn()), Pos(3, 3)).value.connections == [Pos(0, 0)]
    ensures KeyTargets(1, ReconnectTurn()) == [Pos(3, 3)]
  {
    var turn := ReconnectTurn();
    LighthouseDictInTurnOrder(turn);
    var d := LighthouseDict(turn);
    assert d[1..] == [d[1]] && d[1..][1..] == [];
    GetEntry(d, 0);
    GetEntry(d, 1);
  }

  /** As written, the bot connects again to a lighthouse already connected to
      the one it stands on: in `ReconnectTurn` every draw connects to (3, 3).
      The intended reading has nothing to connect and moves instead. */
  lemma ReconnectAsWritten(connectPick: nat, movePick: nat)
    ensures Get(LighthouseDict(ReconnectTurn()), Pos(3, 3)).value.connections == [Pos(0, 0)]
    ensures Decide(AsWritten, 1, ReconnectTurn(), connectPick, movePick) == Action(Connect, Pos(3, 3))
    ensures Decide(Intended, 1, ReconnectTurn(), connectPick, movePick).kind == Move
  {
    ReconnectTurnTargets();
    ReconnectConnects(connectPick);
    ReconnectIntendedMoves();
  }

  lemma ReconnectConnects(connectPick: nat)
    ensures BranchOf(AsWritten, 1, ReconnectTurn()) == ConnectHere
    ensures Candidates(AsWritten, 1, ReconnectTurn()) == [Pos(3, 3)]
    ensures connectPick % |Candidates(AsWritten, 1, ReconnectTurn())| == 0
  {
    var turn := ReconnectTurn();
    ReconnectTurnTargets();
    UnconnectedAsWrittenKeepsAll(LighthouseDict(turn), KeyTargets(1, turn), turn.position);
    SmallModulo(0, 1);
  }

  lemma ReconnectIntendedMoves()
    ensures BranchOf(Intended, 1, ReconnectTurn()) == RandomStep
  {
    var turn := ReconnectTurn();
    ReconnectTurnTargets();
    assert Candidates(Intended, 1, turn) == [];
  }

  /** Conversely, with the key on an own lighthouse the routine always connects
      when some lighthouse is a candidate, and every candidate is the
      destination for some draw. */
  lemma ConnectEveryCandidate(rd: Reading, me: int, turn: Turn, movePick: nat, p: Pos) returns (connectPick: nat)
    requires turn.haveKey && OnOwnLighthouse(me, turn) && IsCandidate(rd, me, turn, p)
    ensures Decide(rd, me, turn, connectPick, movePick) == Action(Connect, p)
  {
    CandidatesAre(rd, me, turn);
    var ts := Candidates(rd, me, turn);
    assert p in ts;
    var i :| 0 <= i < |ts| && ts[i] == p;
    connectPick := i;
    assert BranchOf(rd, me, turn) == ConnectHere;
    SmallModulo(i, |ts|);
  }

  /** The draw `i` picks the `i`-th element of a list longer than `i`. A lemma
      of its own keeps this `%` fact out of the decision's larger proof contexts. */
  lemma SmallModulo(i: nat, n: nat)
    requires i < n
    ensures i % n == i
  {
  }

  /** Every MOVE goes to one of the eight cells around the bot, never to its own cell. */
  lemma MoveIsKingStep(rd: Reading, me: int, turn: Turn, connectPick: nat, movePick: nat)
    ensures Decide(rd, me, turn, connectPick, movePick).kind == Move ==>
      Chebyshev(Decide(rd, me, turn, connectPick, movePick).destination, turn.position) == 1
  {
    var cur, energy := turn.position, EnergyDict(turn);
    var b := BranchOf(rd, me, turn);
    if b == ApproachToConnect || b == ApproachForKey {
      assert Decide(rd, me, turn, connectPick, movePick).destination == GreedyStep(cur, Target(rd, me, turn), energy).value;
    } else if b == RichestNeighbour {
      assert Decide(rd, me, turn, connectPick, movePick).destination == RichestStep(cur, energy).value;
    } else if b == RandomStep {
      assert Decide(rd, me, turn, connectPick, movePick).destination == Step(cur, movePick % |Moves|);
    }
  }

  /** Moves chosen by the three scoring loops stay on the board; only the
      random step may leave it. */
  lemma ScoredMovesOnBoard(rd: Reading, me: int, turn: Turn, connectPick: nat, movePick: nat)
    requires BranchOf(rd, me, turn) != RandomStep
    ensures var r := Decide(rd, me, turn, connectPick, movePick);
      r.kind == Connect || InBoard(r.destination)
  {
  }

  /** A bot on the board with some lighthouse to head for never falls back to a random step. */
  lemma NoRandomStepWithCandidate(rd: Reading, me: int, turn: Turn)
    requires InBoard(turn.position) && |Candidates(rd, me, turn)| > 0
    ensures BranchOf(rd, me, turn) != RandomStep
  {
    var _ := GreedyStepIsBest(turn.position, Target(rd, me, turn), EnergyDict(turn));
  }

  /** Without the key on an own lighthouse, with no negative cell energy and the
      bot on the board, the routine always steps to the richest neighbour. */
  lemma KeylessOnOwnStepsToRichest(rd: Reading, me: int, turn: Turn)
    requires !turn.haveKey && OnOwnLighthouse(me, turn) && InBoard(turn.position)
    requires forall i :: 0 <= i < |turn.cells| ==> turn.cells[i].energy >= 0
    ensures BranchOf(rd, me, turn) == RichestNeighbour
  {
    EnergyDictNonNegative(turn);
    RichestStepExists(turn.position, EnergyDict(turn));
  }

  /** The richest-neighbour move: the first neighbour on the board, in `Moves`
      order, whose energy is greatest, and that energy is not negative. */
  lemma RichestNeighbourMove(rd: Reading, me: int, turn: Turn, connectPick: nat, movePick: nat) returns (i: nat)
    requires BranchOf(rd, me, turn) == RichestNeighbour
    ensures IsFirstBest(turn.position, MostEnergy(EnergyDict(turn)), Some(-1), |Moves|, i)
    ensures Decide(rd, me, turn, connectPick, movePick) == Action(Move, Step(turn.position, i))
    ensures EnergyAt(EnergyDict(turn), Step(turn.position, i)) >= 0
  {
    i := RichestStepIsBest(turn.position, EnergyDict(turn));
  }

  /** The approach moves: the target is a candidate at least as close as every
      other candidate, and of the equally close ones the first in the
      `lighthouses` dictionary; the step is the first neighbour on the board
      maximising `(15 - dist) * 2 + energy` toward it. */
  lemma ApproachMove(rd: Reading, me: int, turn: Turn, connectPick: nat, movePick: nat) returns (i: nat)
    requires BranchOf(rd, me, turn) == ApproachToConnect || BranchOf(rd, me, turn) == ApproachForKey
    ensures |Candidates(rd, me, turn)| > 0
    ensures IsCandidate(rd, me, turn, Target(rd, me, turn))
    ensures forall q :: IsCandidate(rd, me, turn, q) ==>
      Manhattan(turn.position, Target(rd, me, turn)) <= Manhattan(turn.position, q)
    ensures forall q ::
      (IsCandidate(rd, me, turn, q) && Manhattan(turn.position, q) == Manhattan(turn.position, Target(rd, me, turn))) ==>
        Find(LighthouseDict(turn), Target(rd, me, turn)).value <= Find(LighthouseDict(turn), q).value
    ensures IsFirstBest(turn.position, TowardTarget(Target(rd, me, turn), EnergyDict(turn)), None, |Moves|, i)
    ensures Decide(rd, me, turn, connectPick, movePick) == Action(Move, Step(turn.position, i))
  {
    CandidatesAre(rd, me, turn);
    NearestFirstInKeyOrder(LighthouseDict(turn), Candidates(rd, me, turn), turn.position);
    i := GreedyStepIsBest(turn.position, Target(rd, me, turn), EnergyDict(turn));
  }

  /** In a list in dictionary order, `Nearest` picks, of the closest positions,
      the one that comes first in the dictionary. */
  lemma NearestFirstInKeyOrder(d: Dict<Lighthouse>, ps: seq<Pos>, cur: Pos)
    requires |ps| > 0 && InKeyOrder(d, ps)
    ensures forall q :: q in ps && Manhattan(cur, q) == Manhattan(cur, Nearest(ps, cur)) ==>
      Find(d, Nearest(ps, cur)).value <= Find(d, q).value
  {
    var i := NearestIsFirst(ps, cur);
    forall q | q in ps && Manhattan(cur, q) == Manhattan(cur, Nearest(ps, cur))
      ensures Find(d, Nearest(ps, cur)).value <= Find(d, q).value
    {
      var j :| 0 <= j < |ps| && ps[j] == q;
      assert !(j < i);
    }
  }

  /** The random step is not bounds-checked: from the corner (0, 0) with no
      lighthouse in sight, the first entry of `Moves` leaves the board. */
  lemma RandomStepMayLeaveBoard(rd: Reading, me: int)
    ensures var turn := Turn(Pos(0, 0), false, [], []);
      BranchOf(rd, me, turn) == RandomStep && Decide(rd, me, turn, 0, 0) == Action(Move, Pos(-1, -1))
  {
    var turn := Turn(Pos(0, 0), false, [], []);
    assert LighthouseDict(turn) == [];
    assert Candidates(rd, me, turn) == [];
  }
}
