/** The pure helpers of `DraftBoardGridView` (hsappsoccer/DraftBoardView.swift):
    which absolute pick number a team owns in a round, which player a pick cell
    shows, and how a cell is coloured. */
module BoardGrid {
  import opened Safe
  import opened Models

  /** The grid's own number of teams per round. */
  const GridTeams: int := 12

  /** `getPickForTeam`: snake numbering. Odd rounds go in draft-position
      order, even rounds in reverse. `round % 2 == 0` means the same for
      Swift's truncating `%` and Dafny's, so no conversion is needed. */
  function PickForTeam(draftPosition: int, round: int): (pick: int)
    ensures 1 <= draftPosition <= GridTeams && round >= 1 ==>
      (round - 1) * GridTeams + 1 <= pick <= round * GridTeams
  {
    var teamIndex := draftPosition - 1;
    if round % 2 == 0 then (round - 1) * GridTeams + (GridTeams - teamIndex)
    else (round - 1) * GridTeams + teamIndex + 1
  }

  /** The place of a pick within its round, 1..12. */
  function Offset(draftPosition: int, round: int): int {
    PickForTeam(draftPosition, round) - (round - 1) * GridTeams
  }

  /** The owner of an absolute pick number on the board: its draft position
      and round. An independent inverse of `PickForTeam`. */
  function OwnerOfPick(pick: int): (owner: (int, int))
    requires pick >= 1
    ensures 1 <= owner.0 <= GridTeams && owner.1 >= 1
  {
    var round := (pick - 1) / GridTeams + 1;
    var place := (pick - 1) % GridTeams + 1;
    (if round % 2 == 0 then GridTeams + 1 - place else place, round)
  }

  /** Every absolute pick number belongs to the team and round `OwnerOfPick`
      names. */
  lemma PickOwnerRoundTrip(pick: int)
    requires pick >= 1
    ensures PickForTeam(OwnerOfPick(pick).0, OwnerOfPick(pick).1) == pick
  {
    var round := (pick - 1) / GridTeams + 1;
    assert pick - 1 == (round - 1) * GridTeams + (pick - 1) % GridTeams;
  }

  /** Each (team, round) cell's pick number leads back to that team and round. */
  lemma TeamRoundTrip(draftPosition: int, round: int)
    requires 1 <= draftPosition <= GridTeams && round >= 1
    ensures OwnerOfPick(PickForTeam(draftPosition, round)) == (draftPosition, round)
  {
    var pick := PickForTeam(draftPosition, round);
    var place := pick - (round - 1) * GridTeams;
    assert 1 <= place <= GridTeams;
    assert pick - 1 == (round - 1) * GridTeams + (place - 1);
    assert (pick - 1) / GridTeams == round - 1;
    assert (pick - 1) % GridTeams == place - 1;
  }

  /** Within a round no two draft positions share a pick number. */
  lemma RoundIsInjective(p: int, q: int, round: int)
    requires 1 <= p <= GridTeams && 1 <= q <= GridTeams && round >= 1
    requires PickForTeam(p, round) == PickForTeam(q, round)
    ensures p == q
  {
    TeamRoundTrip(p, round);
    TeamRoundTrip(q, round);
  }

  /** Every pick number `(round - 1) * 12 + 1 .. round * 12` is owned, in
      round `round`, by one of the twelve draft positions. */
  lemma RoundCoversItsPicks(round: int)
    requires round >= 1
    ensures forall k :: (round - 1) * GridTeams + 1 <= k <= round * GridTeams ==>
      OwnerOfPick(k).1 == round && PickForTeam(OwnerOfPick(k).0, round) == k
  {
    forall k | (round - 1) * GridTeams + 1 <= k <= round * GridTeams
      ensures OwnerOfPick(k).1 == round && PickForTeam(OwnerOfPick(k).0, round) == k
    {
      PickOwnerRoundTrip(k);
      assert (k - 1) / GridTeams + 1 == round by {
        assert k - 1 == (round - 1) * GridTeams + (k - 1 - (round - 1) * GridTeams);
      }
    }
  }

  /** Snake shape: odd rounds give position `p` place `p`, even rounds place
      `13 - p`. */
  lemma SnakeOffsets(draftPosition: int, round: int)
    ensures Offset(draftPosition, round) == if round % 2 == 0 then GridTeams + 1 - draftPosition else draftPosition
  {
  }

  /** Two consecutive rounds of the same team have places summing to 13. */
  lemma ConsecutivePlacesSumTo13(draftPosition: int, round: int)
    ensures Offset(draftPosition, round) + Offset(draftPosition, round + 1) == GridTeams + 1
  {
    SnakeOffsets(draftPosition, round);
    SnakeOffsets(draftPosition, round + 1);
  }

  /** The team picking last in a round picks first in the next. */
  lemma LastPicksFirstNextRound(draftPosition: int, round: int)
    requires Offset(draftPosition, round) == GridTeams
    ensures Offset(draftPosition, round + 1) == 1
  {
    ConsecutivePlacesSumTo13(draftPosition, round);
  }

  /** Index of the first history entry recording pick number `pick`, or
      `|history|` when there is none. */
  function FirstEntryFor(history: seq<DraftPick>, pick: int): (k: nat)
    ensures k <= |history|
    ensures k < |history| ==> history[k].pick == pick
    ensures forall j :: 0 <= j < k ==> history[j].pick != pick
  {
    if |history| == 0 then 0
    else if history[0].pick == pick then 0
    else 1 + FirstEntryFor(history[1..], pick)
  }

  /** `getPlayerForPick`: the player of the first history entry whose pick
      number is `pick`, or `None` when no entry has it. */
  function PlayerForPick(history: seq<DraftPick>, pick: int): (r: Option<Player>)
    ensures r.None? <==> forall j :: 0 <= j < |history| ==> history[j].pick != pick
    ensures r.Some? ==> exists k :: 0 <= k < |history| && history[k].pick == pick && r.value == history[k].player
                          && forall j :: 0 <= j < k ==> history[j].pick != pick
  {
    var k := FirstEntryFor(history, pick);
    if k < |history| then Some(history[k].player) else None
  }

  /** An entry with the pick number and no earlier one with it is the one
      whose player the cell shows. */
  lemma FirstEntryShown(history: seq<DraftPick>, pick: int, k: int)
    requires 0 <= k < |history| && history[k].pick == pick
    requires forall j :: 0 <= j < k ==> history[j].pick != pick
    ensures PlayerForPick(history, pick) == Some(history[k].player)
  {
    var r := PlayerForPick(history, pick);
    var k' :| 0 <= k' < |history| && history[k'].pick == pick && r.value == history[k'].player
              && forall j :: 0 <= j < k' ==> history[j].pick != pick;
    assert k' == k;
  }

  /** The three colours of a pick cell. */
  datatype CellStatus = Current | Completed | Upcoming

  /** `getPickBackground`: the cell of the current pick, of an earlier pick
      number, or of a later one. */
  function PickBackground(pick: int, currentPick: int): (s: CellStatus)
    ensures s == Current <==> pick == currentPick
    ensures s == Completed <==> pick < currentPick
    ensures s == Upcoming <==> pick > currentPick
  {
    if pick == currentPick then Current
    else if pick < currentPick then Completed
    else Upcoming
  }

  /** A fixed current pick splits the pick numbers into completed ones below it
      and upcoming ones above it. */
  lemma BackgroundIsMonotone(a: int, b: int, currentPick: int)
    requires a < b
    ensures PickBackground(b, currentPick) == Completed ==> PickBackground(a, currentPick) == Completed
    ensures PickBackground(a, currentPick) == Upcoming ==> PickBackground(b, currentPick) == Upcoming
  {
  }

  /** When every recorded pick number is a within-round number (1..12), no cell
      of round 2 or later shows a player, and while the current pick is a
      within-round number too, every such cell is coloured as upcoming. */
  lemma LaterRoundCellsLookUndrafted(history: seq<DraftPick>, currentPick: int, draftPosition: int, round: int)
    requires forall j :: 0 <= j < |history| ==> 1 <= history[j].pick <= GridTeams
    requires currentPick <= GridTeams
    requires 1 <= draftPosition <= GridTeams && round >= 2
    ensures PlayerForPick(history, PickForTeam(draftPosition, round)) == None
    ensures PickBackground(PickForTeam(draftPosition, round), currentPick) == Upcoming
  {
  }
}
