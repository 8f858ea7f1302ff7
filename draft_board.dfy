/** The state and the operations of `DraftBoardView`
    (hsappsoccer/DraftBoardView.swift): setting up the draft, whose turn it is,
    drafting a player, advancing the turn, auto-drafting and the pick clock. */
module DraftBoard {
  import opened Safe
  import opened Schedule
  import opened Models
  import opened PlayerPool
  import opened BoardGrid

  /** Seconds on the clock when the view first appears. */
  const InitialClock: int := 60
  /** Seconds on the clock after every successful pick. */
  const PickClock: int := 90

  /** A history entry records the round, pick and team index of turn `t`. */
  predicate Records(e: DraftPick, t: Turn) {
    e.round == t.round && e.pick == t.pick && e.teamIndex == t.teamIndex
  }

  /** A draft reached from a fresh mock draft: `n` picks recorded, the
      counters at `TurnAt(n)`, and entry `i` recording turn `TurnAt(i)`. */
  ghost predicate WellFormed(d: Draft)
    reads d
  {
    d.TurnState() == TurnAt(|d.draftHistory|) && RecordsSchedule(d.draftHistory)
  }

  /** Entry `i` of `history` records turn `TurnAt(i)`. */
  predicate RecordsSchedule(history: seq<DraftPick>) {
    forall i :: 0 <= i < |history| ==> Records(history[i], TurnAt(i))
  }

  /** Recording the turn that is due keeps a history in schedule. */
  lemma RecordingNextTurn(history: seq<DraftPick>, e: DraftPick)
    requires RecordsSchedule(history) && Records(e, TurnAt(|history|))
    ensures RecordsSchedule(history + [e])
  {
    forall i | 0 <= i < |history| + 1
      ensures Records((history + [e])[i], TurnAt(i))
    {
      if i < |history| {
        assert (history + [e])[i] == history[i];
      }
    }
  }

  /** Swift's `"\(n)"` for a natural number. */
  function Decimal(n: nat): string {
    if n < 10 then [(48 + n) as char] else Decimal(n / 10) + [(48 + n % 10) as char]
  }

  /** Team `i` (1..12) as `createMockDraft` builds it. */
  predicate MockTeam(t: Team, i: int) {
    && 1 <= i <= TeamCount
    && t.id == "team" + Decimal(i)
    && t.name == "Team " + [(64 + i) as char]
    && t.owner == "Owner " + Decimal(i)
    && t.draftPosition == i
    && t.isUserTeam == (i == 1)
  }

  /** The twelve teams of a mock league, in draft-position order. */
  predicate MockLeague(l: League)
    reads l
  {
    && |l.teams| == TeamCount
    && forall i :: 0 <= i < |l.teams| ==> MockTeam(l.teams[i], i + 1)
  }

  /** The effect of one successful pick on a draft, the acting team and the
      drafted player. */
  twostate predicate PickTaken(d: Draft, team: Team, p: Player)
    reads d, team, p
  {
    && p.isDrafted
    && p.draftedBy == Some(team.name)
    && p.draftRound == Some(old(d.currentRound))
    && p.draftPick == Some(old(d.currentPick))
    && |d.draftHistory| == |old(d.draftHistory)| + 1
    && d.draftHistory[..|old(d.draftHistory)|] == old(d.draftHistory)
    && Records(d.draftHistory[|old(d.draftHistory)|], old(d.TurnState()))
    && d.draftHistory[|old(d.draftHistory)|].player == p
    && fresh(d.draftHistory[|old(d.draftHistory)|])
    && team.players == old(team.players) + [p]
    && d.TurnState() == Advance(old(d.TurnState()))
    && d.isActive == old(d.isActive)
  }

  /** The view. The three fetched collections of the store are fields; an
      insertion into the store appends to the matching one. */
  class DraftBoardView {
    var players: seq<Player>
    var teams: seq<Team>
    var drafts: seq<Draft>
    var currentDraft: Draft?
    var selectedPlayer: Player?
    var searchText: string
    var selectedPosition: string
    var timeRemaining: int
    var draftHistory: seq<DraftPick>
    var currentPick: int

    /** The view over the store's current contents, before it appears. */
    constructor(players: seq<Player>, teams: seq<Team>, drafts: seq<Draft>)
      ensures this.players == players && this.teams == teams && this.drafts == drafts
      ensures currentDraft == null && selectedPlayer == null
      ensures searchText == "" && selectedPosition == AllPositions
      ensures timeRemaining == InitialClock && draftHistory == [] && currentPick == 1
    {
      this.players := players;
      this.teams := teams;
      this.drafts := drafts;
      currentDraft := null;
      selectedPlayer := null;
      searchText := "";
      selectedPosition := AllPositions;
      timeRemaining := InitialClock;
      draftHistory := [];
      currentPick := 1;
    }

    /** The team whose turn it is: `nil` without a draft or when the team
        index is not an index of the league's teams. */
    function GetCurrentTeam(): (t: Team?)
      reads this, currentDraft, if currentDraft != null then {currentDraft.league} else {}
      ensures t == null <==> currentDraft == null
                             || !(0 <= currentDraft.currentTeamIndex < |currentDraft.league.teams|)
      ensures t != null ==> t == currentDraft.league.teams[currentDraft.currentTeamIndex]
    {
      if currentDraft == null then null
      else
        match SafeAt(currentDraft.league.teams, currentDraft.currentTeamIndex)
        case Some(team) => team
        case None => null
    }

    /** Whether the team on the clock is the user's. */
    function IsUserTurn(): (b: bool)
      reads this, currentDraft, if currentDraft != null then {currentDraft.league} else {}
      ensures b <==> GetCurrentTeam() != null && GetCurrentTeam().isUserTeam
    {
      if currentDraft == null then false
      else
        var team := GetCurrentTeam();
        team != null && team.isUserTeam
    }

    /** The guard of `draftPlayer`. */
    function CanDraft(): bool
      reads this, currentDraft, if currentDraft != null then {currentDraft.league} else {}
    {
      selectedPlayer != null && currentDraft != null && IsUserTurn()
    }

    /** The history and the current pick the grid is drawn from. */
    function BoardHistory(): seq<DraftPick>
      reads this, currentDraft
    {
      if currentDraft != null then currentDraft.draftHistory else []
    }

    function BoardCurrentPick(): int
      reads this, currentDraft
    {
      if currentDraft != null then currentDraft.currentPick else 1
    }

    /** The grid cell of `team` in `round`: occupant and colour. */
    function Cell(team: Team, round: int): (Option<Player>, CellStatus)
      reads this, currentDraft
    {
      var pick := PickForTeam(team.draftPosition, round);
      (PlayerForPick(BoardHistory(), pick), PickBackground(pick, BoardCurrentPick()))
    }

    /** `setupDraft`: adopt the first stored draft, or create a mock one. In
        both cases the current draft is then the first stored draft, so a
        second call adopts the same draft. */
    method SetupDraft()
      modifies this
      ensures |drafts| > 0 && currentDraft == drafts[0]
      ensures players == old(players) && selectedPlayer == old(selectedPlayer)
      ensures searchText == old(searchText) && selectedPosition == old(selectedPosition)
      ensures timeRemaining == old(timeRemaining)
      ensures old(|drafts|) > 0 ==>
        && drafts == old(drafts) && teams == old(teams)
        && currentDraft == old(drafts[0])
        && draftHistory == currentDraft.draftHistory && currentPick == currentDraft.currentPick
      ensures old(|drafts|) == 0 ==>
        && MockDraftCreated()
        && draftHistory == old(draftHistory) && currentPick == old(currentPick)
    {
      if |drafts| > 0 {
        currentDraft := drafts[0];
        draftHistory := currentDraft.draftHistory;
        currentPick := currentDraft.currentPick;
      } else {
        CreateMockDraft();
      }
    }

    /** What `createMockDraft` leaves: a fresh draft "draft1" of a fresh
        league "league1" holding the twelve mock teams, all with empty
        rosters; the teams and the draft are added to the store. */
    twostate predicate MockDraftCreated()
      reads this, currentDraft, if currentDraft != null then {currentDraft.league} else {},
        if currentDraft != null then currentDraft.league.teams else []
    {
      && currentDraft != null && fresh(currentDraft) && fresh(currentDraft.league)
      && currentDraft.id == "draft1" && currentDraft.isActive
      && currentDraft.league.id == "league1" && currentDraft.league.name == "PPR Soccer League"
      && !currentDraft.league.isActive
      && currentDraft.draftOrder == InitialOrder && currentDraft.availablePlayers == []
      && currentDraft.draftHistory == []
      && WellFormed(currentDraft)
      && MockLeague(currentDraft.league)
      && (forall t :: t in currentDraft.league.teams ==> fresh(t) && t.players == [])
      && teams == old(teams) + currentDraft.league.teams
      && drafts == old(drafts) + [currentDraft]
    }

    method CreateMockDraft()
      modifies this
      ensures MockDraftCreated()
      ensures players == old(players) && selectedPlayer == old(selectedPlayer)
      ensures searchText == old(searchText) && selectedPosition == old(selectedPosition)
      ensures timeRemaining == old(timeRemaining)
      ensures draftHistory == old(draftHistory) && currentPick == old(currentPick)
    {
      var league := new League("league1", "PPR Soccer League");
      for i := 1 to TeamCount + 1
        invariant |league.teams| == i - 1
        invariant forall k :: 0 <= k < |league.teams| ==>
          MockTeam(league.teams[k], k + 1) && fresh(league.teams[k]) && league.teams[k].players == []
        invariant teams == old(teams) + league.teams
        invariant players == old(players) && drafts == old(drafts) && currentDraft == old(currentDraft)
        invariant selectedPlayer == old(selectedPlayer) && timeRemaining == old(timeRemaining)
        invariant searchText == old(searchText) && selectedPosition == old(selectedPosition)
        invariant draftHistory == old(draftHistory) && currentPick == old(currentPick)
      {
        var team := new Team("team" + Decimal(i), "Team " + [(64 + i) as char], "Owner " + Decimal(i), i, i == 1);
        league.teams := league.teams + [team];
        teams := teams + [team];
      }
      var draft := new Draft("draft1", league);
      draft.isActive := true;
      draft.draftOrder := InitialOrder;
      drafts := drafts + [draft];
      currentDraft := draft;
    }

    /** `moveToNextPick`: the current draft's counters take one step of
        `Advance`; nothing else changes. */
    method MoveToNextPick()
      modifies currentDraft
      ensures currentDraft != null ==>
        && currentDraft.TurnState() == Advance(old(currentDraft.TurnState()))
        && currentDraft.draftHistory == old(currentDraft.draftHistory)
        && currentDraft.isActive == old(currentDraft.isActive)
    {
      if currentDraft == null {
        return;
      }
      var draft := currentDraft;
      draft.currentPick := draft.currentPick + 1;
      if draft.currentPick > TeamCount {
        draft.currentRound := draft.currentRound + 1;
        draft.currentPick := 1;
        draft.draftOrder := Reverse(draft.draftOrder);
      }
      draft.currentTeamIndex := SwiftRemainder(draft.currentTeamIndex + 1);
    }

    /** The view after a successful pick of `p` by `team`. */
    twostate predicate Drafted(p: Player, team: Team)
      reads this, currentDraft, p, team
    {
      && currentDraft == old(currentDraft) && currentDraft != null
      && PickTaken(currentDraft, team, p)
      && timeRemaining == PickClock && selectedPlayer == null
      && players == old(players) && teams == old(teams) && drafts == old(drafts)
      && searchText == old(searchText) && selectedPosition == old(selectedPosition)
      && draftHistory == old(draftHistory) && currentPick == old(currentPick)
    }

    /** `draftPlayer`: without a selection, a draft or the user's turn nothing
        changes; otherwise the selected player goes to the team on the clock,
        one entry is recorded, the turn advances and the clock is reset. The
        player's `isDrafted` flag is not consulted. */
    method DraftPlayer()
      modifies this, selectedPlayer, currentDraft, GetCurrentTeam()
      ensures !old(CanDraft()) ==>
        && unchanged(this)
        && (selectedPlayer != null ==> unchanged(selectedPlayer))
        && (currentDraft != null ==> unchanged(currentDraft))
        && (old(GetCurrentTeam()) != null ==> unchanged(old(GetCurrentTeam())))
      ensures old(CanDraft()) ==> Drafted(old(selectedPlayer), old(GetCurrentTeam()))
      ensures currentDraft == old(currentDraft)
      ensures old(currentDraft != null && WellFormed(currentDraft)) ==> WellFormed(currentDraft)
    {
      if !CanDraft() {
        return;
      }
      var player := selectedPlayer;
      var draft := currentDraft;
      ghost var n := |draft.draftHistory|;
      ghost var wellFormed := WellFormed(draft);
      var team := GetCurrentTeam();
      player.isDrafted := true;
      player.draftedBy := if team != null then Some(team.name) else None;
      player.draftRound := Some(draft.currentRound);
      player.draftPick := Some(draft.currentPick);
      var entry := new DraftPick(draft.currentRound, draft.currentPick, draft.currentTeamIndex, player);
      draft.draftHistory := draft.draftHistory + [entry];
      var acting := GetCurrentTeam();
      assert acting == team;
      if acting != null {
        acting.players := acting.players + [player];
      }
      MoveToNextPick();
      timeRemaining := PickClock;
      selectedPlayer := null;
      if wellFormed {
        AdvanceTurnAt(n);
        RecordingNextTurn(old(draft.draftHistory), entry);
      }
    }

    /** `autoDraft`: select the top player of the list as the current filters
        show it and try to draft it. On another team's turn only the selection
        changes; with an empty list nothing does. */
    method AutoDraft()
      modifies this, players, currentDraft, GetCurrentTeam()
      ensures var best := old(BestAvailable(players, selectedPosition, searchText));
        && (best.None? ==> Idle(old(GetCurrentTeam())))
        && (best.Some? && !old(IsUserTurn()) ==> OnlySelected(best.value, old(GetCurrentTeam())))
        && (best.Some? && old(IsUserTurn()) ==> Drafted(best.value, old(GetCurrentTeam())))
      ensures currentDraft == old(currentDraft)
      ensures old(currentDraft != null && WellFormed(currentDraft)) ==> WellFormed(currentDraft)
    {
      var best := BestAvailable(players, selectedPosition, searchText);
      if best.Some? {
        selectedPlayer := best.value;
        DraftPlayer();
      }
    }

    /** Nothing in the view, its draft, the team `acting` or the players
        changed. */
    twostate predicate Idle(acting: Team?)
      reads this, players, currentDraft, acting
    {
      && unchanged(this)
      && unchanged(players)
      && (currentDraft != null ==> unchanged(currentDraft))
      && (acting != null ==> unchanged(acting))
    }

    /** Only the selection changed, to `p`; the draft, the team `acting` and
        the players are as they were. */
    twostate predicate OnlySelected(p: Player, acting: Team?)
      reads this, players, currentDraft, acting
    {
      && selectedPlayer == p
      && players == old(players) && teams == old(teams) && drafts == old(drafts)
      && currentDraft == old(currentDraft)
      && searchText == old(searchText) && selectedPosition == old(selectedPosition)
      && timeRemaining == old(timeRemaining)
      && draftHistory == old(draftHistory) && currentPick == old(currentPick)
      && unchanged(players)
      && (currentDraft != null ==> unchanged(currentDraft))
      && (acting != null ==> unchanged(acting))
    }

    /** One tick of the pick clock: count down while time is left, otherwise
        auto-draft. The clock never becomes negative, and at 0 on another
        team's turn it stays at 0 with the draft unchanged. */
    method Tick()
      modifies this, players, currentDraft, GetCurrentTeam()
      ensures old(timeRemaining) > 0 ==>
        && timeRemaining == old(timeRemaining) - 1
        && players == old(players) && teams == old(teams) && drafts == old(drafts)
        && currentDraft == old(currentDraft) && selectedPlayer == old(selectedPlayer)
        && searchText == old(searchText) && selectedPosition == old(selectedPosition)
        && draftHistory == old(draftHistory) && currentPick == old(currentPick)
        && unchanged(players)
        && (currentDraft != null ==> unchanged(currentDraft))
        && (old(GetCurrentTeam()) != null ==> unchanged(old(GetCurrentTeam())))
      ensures old(timeRemaining) <= 0 ==>
        var best := old(BestAvailable(players, selectedPosition, searchText));
        && (best.None? ==> Idle(old(GetCurrentTeam())))
        && (best.Some? && !old(IsUserTurn()) ==> OnlySelected(best.value, old(GetCurrentTeam())))
        && (best.Some? && old(IsUserTurn()) ==> Drafted(best.value, old(GetCurrentTeam())))
      ensures old(timeRemaining) >= 0 ==> timeRemaining >= 0
      ensures old(timeRemaining) == 0 && !old(IsUserTurn()) ==>
        timeRemaining == 0 && (currentDraft != null ==> unchanged(currentDraft))
      ensures currentDraft == old(currentDraft)
      ensures old(currentDraft != null && WellFormed(currentDraft)) ==> WellFormed(currentDraft)
    {
      if timeRemaining > 0 {
        timeRemaining := timeRemaining - 1;
      } else {
        AutoDraft();
      }
    }
  }

  /** In a well-formed draft the counters are in range and count the recorded
      picks, the team index is the within-round pick minus one, and the order
      is `[1..12]` in odd rounds and its reversal in even ones. */
  lemma WellFormedCounters(d: Draft)
    requires WellFormed(d)
    ensures InRange(d.TurnState()) && Slot(d.TurnState()) == |d.draftHistory|
    ensures d.currentTeamIndex == d.currentPick - 1
    ensures d.currentRound == |d.draftHistory| / TeamCount + 1
    ensures d.draftOrder == if d.currentRound % 2 == 1 then InitialOrder else Reverse(InitialOrder)
  {
    TurnAtOrder(|d.draftHistory|);
  }

  /** Entry `i` of a well-formed draft's history carries round `i / 12 + 1`,
      the within-round pick `i % 12 + 1` and team index `i % 12`: the pick it
      stores is never an absolute pick number past 12. */
  lemma HistoryEntry(d: Draft, i: int)
    requires WellFormed(d) && 0 <= i < |d.draftHistory|
    ensures d.draftHistory[i].round == i / TeamCount + 1
    ensures d.draftHistory[i].pick == i % TeamCount + 1 && 1 <= d.draftHistory[i].pick <= TeamCount
    ensures d.draftHistory[i].teamIndex == i % TeamCount
  {
    assert Records(d.draftHistory[i], TurnAt(i));
  }

  /** With the mock league, the team on the clock is the one whose draft
      position is the within-round pick, whatever the round. */
  lemma TeamOnTheClock(v: DraftBoardView)
    requires v.currentDraft != null && WellFormed(v.currentDraft) && MockLeague(v.currentDraft.league)
    ensures v.GetCurrentTeam() != null
    ensures v.GetCurrentTeam().draftPosition == v.currentDraft.currentPick
  {
    WellFormedCounters(v.currentDraft);
    assert MockTeam(v.currentDraft.league.teams[v.currentDraft.currentTeamIndex], v.currentDraft.currentTeamIndex + 1);
  }

  /** With the mock league it is the user's turn exactly when the within-round
      pick is 1. Once the first pick is made that is never the case again
      (`StuckAfterFirstPick`). */
  lemma UserTurnOnlyAtFirstPick(v: DraftBoardView)
    requires v.currentDraft != null && WellFormed(v.currentDraft) && MockLeague(v.currentDraft.league)
    ensures v.IsUserTurn() <==> v.currentDraft.currentPick == 1
  {
    TeamOnTheClock(v);
    WellFormedCounters(v.currentDraft);
    assert MockTeam(v.currentDraft.league.teams[v.currentDraft.currentTeamIndex], v.currentDraft.currentTeamIndex + 1);
  }

  /** With the mock league the draft freezes after its first pick: for the
      rest of round 1 it is another team's turn, so neither the button nor
      auto-draft can draft, and `draftPlayer`, the only caller of
      `moveToNextPick`, never advances the turn again. */
  lemma StuckAfterFirstPick(v: DraftBoardView)
    requires v.currentDraft != null && WellFormed(v.currentDraft) && MockLeague(v.currentDraft.league)
    requires 1 <= |v.currentDraft.draftHistory| < TeamCount
    ensures !v.IsUserTurn() && !v.CanDraft()
  {
    UserTurnOnlyAtFirstPick(v);
    WellFormedCounters(v.currentDraft);
  }

  /** The turns are not snaked: for any well-formed draft, the grid gives the
      next absolute pick to the team on the clock in odd rounds only; in even
      rounds the grid's owner of that pick is a different team. A mock draft
      never gets past round 1, so only the odd half is reached there. */
  lemma ClockAgreesWithBoardOnlyInOddRounds(v: DraftBoardView)
    requires v.currentDraft != null && WellFormed(v.currentDraft) && MockLeague(v.currentDraft.league)
    ensures v.GetCurrentTeam() != null
    ensures var d := v.currentDraft;
      (OwnerOfPick(Slot(d.TurnState()) + 1) == (v.GetCurrentTeam().draftPosition, d.currentRound))
        <==> (d.currentRound % 2 == 1)
  {
    var d := v.currentDraft;
    TeamOnTheClock(v);
    WellFormedCounters(d);
    var pick := Slot(d.TurnState()) + 1;
    assert pick - 1 == (d.currentRound - 1) * TeamCount + (d.currentPick - 1);
    assert (pick - 1) / TeamCount == d.currentRound - 1;
    assert (pick - 1) % TeamCount == d.currentPick - 1;
  }

  /** The history and the current pick the grid reads are in the 1..12 range. */
  lemma BoardPicksWithinRound(v: DraftBoardView)
    requires v.currentDraft == null || WellFormed(v.currentDraft)
    ensures forall j :: 0 <= j < |v.BoardHistory()| ==> 1 <= v.BoardHistory()[j].pick <= TeamCount
    ensures 1 <= v.BoardCurrentPick() <= TeamCount
  {
    if v.currentDraft != null {
      WellFormedCounters(v.currentDraft);
      forall j | 0 <= j < |v.BoardHistory()|
        ensures 1 <= v.BoardHistory()[j].pick <= TeamCount
      {
        HistoryEntry(v.currentDraft, j);
      }
    }
  }

  /** Because the history stores within-round pick numbers and the grid looks
      cells up by absolute ones, no cell of round 2 or later shows a player or
      the current-pick colour in any well-formed draft, however far its
      counters have got. */
  lemma LaterRoundsLookEmpty(v: DraftBoardView, team: Team, round: int)
    requires v.currentDraft == null || WellFormed(v.currentDraft)
    requires 1 <= team.draftPosition <= TeamCount && round >= 2
    ensures v.Cell(team, round) == (None, Upcoming)
  {
    BoardPicksWithinRound(v);
    LaterRoundCellsLookUndrafted(v.BoardHistory(), v.BoardCurrentPick(), team.draftPosition, round);
  }

  /** The round-1 cell of the team at draft position `p` shows the player of
      history entry `p - 1` (the `p`-th pick of the first round) once it
      exists, and it has the current-pick colour exactly when the
      within-round pick is `p`. */
  lemma FirstRoundCell(v: DraftBoardView, team: Team)
    requires v.currentDraft == null || WellFormed(v.currentDraft)
    requires 1 <= team.draftPosition <= TeamCount
    ensures var h := v.BoardHistory();
      v.Cell(team, 1).0 == if team.draftPosition <= |h| then Some(h[team.draftPosition - 1].player) else None
    ensures v.Cell(team, 1).1 == Current <==> team.draftPosition == v.BoardCurrentPick()
  {
    var h := v.BoardHistory();
    var p := team.draftPosition;
    assert PickForTeam(p, 1) == p;
    forall j | 0 <= j < |h| && j < p - 1
      ensures h[j].pick != p
    {
      HistoryEntry(v.currentDraft, j);
    }
    if p <= |h| {
      HistoryEntry(v.currentDraft, p - 1);
      FirstEntryShown(h, p, p - 1);
    }
  }
}
