/** The persisted records of hsappsoccer/Item.swift. Each is a reference class
    whose fields the draft code changes in place. Fields that no part of the
    draft engine ever writes are `const`; the ones it does write are `var`. */
module Models {
  import opened Safe
  import Schedule

  /** A footballer in the catalog. The same object is shared by the catalog and,
      once drafted, by the roster of the team that drafted it. */
  class Player {
    const id: string
    const name: string
    const position: string
    /** The player's club (`team` in the source). */
    const team: string
    const league: string
    const points: int
    const goals: int
    const assists: int
    const passes: int
    const cleanSheets: int
    const saves: int
    const yellowCards: int
    const redCards: int
    var isDrafted: bool
    var draftedBy: Option<string>
    var draftRound: Option<int>
    var draftPick: Option<int>

    /** A new player is undrafted and carries no draft details; the stat
        counters a caller leaves out are 0. */
    constructor(id: string, name: string, position: string, team: string, league: string,
                points: int := 0, goals: int := 0, assists: int := 0, passes: int := 0,
                cleanSheets: int := 0, saves: int := 0, yellowCards: int := 0, redCards: int := 0)
      ensures this.id == id && this.name == name && this.position == position
      ensures this.team == team && this.league == league
      ensures this.points == points && this.goals == goals && this.assists == assists
      ensures this.passes == passes && this.cleanSheets == cleanSheets && this.saves == saves
      ensures this.yellowCards == yellowCards && this.redCards == redCards
      ensures !isDrafted && draftedBy == None && draftRound == None && draftPick == None
    {
      this.id := id;
      this.name := name;
      this.position := position;
      this.team := team;
      this.league := league;
      this.points := points;
      this.goals := goals;
      this.assists := assists;
      this.passes := passes;
      this.cleanSheets := cleanSheets;
      this.saves := saves;
      this.yellowCards := yellowCards;
      this.redCards := redCards;
      this.isDrafted := false;
      this.draftedBy := None;
      this.draftRound := None;
      this.draftPick := None;
    }
  }

  /** A fantasy team; its roster only grows during a draft. */
  class Team {
    const id: string
    const name: string
    const owner: string
    var players: seq<Player>
    const draftPosition: int
    const isUserTeam: bool

    /** A new team has an empty roster and keeps the given position and flag. */
    constructor(id: string, name: string, owner: string, draftPosition: int, isUserTeam: bool := false)
      ensures this.id == id && this.name == name && this.owner == owner
      ensures this.draftPosition == draftPosition && this.isUserTeam == isUserTeam
      ensures players == []
    {
      this.id := id;
      this.name := name;
      this.owner := owner;
      this.players := [];
      this.draftPosition := draftPosition;
      this.isUserTeam := isUserTeam;
    }
  }

  /** Default draft length. */
  const DefaultRounds: int := 15
  /** Default seconds per pick. */
  const DefaultTimePerPick: int := 90
  /** Default roster quota per position. */
  const DefaultPositionQuotas: map<string, int> := map["GK" := 2, "DEF" := 5, "MID" := 5, "FWD" := 3]

  /** Sum of the quotas of the four playing positions. */
  function QuotaTotal(quotas: map<string, int>): int {
    (if "GK" in quotas then quotas["GK"] else 0)
    + (if "DEF" in quotas then quotas["DEF"] else 0)
    + (if "MID" in quotas then quotas["MID"] else 0)
    + (if "FWD" in quotas then quotas["FWD"] else 0)
  }

  /** The default quotas fill exactly the default number of rounds. */
  lemma DefaultQuotasFillRounds()
    ensures QuotaTotal(DefaultPositionQuotas) == DefaultRounds
  {
  }

  class DraftSettings {
    const rounds: int
    const timePerPick: int
    const positions: map<string, int>

    constructor()
      ensures rounds == DefaultRounds && timePerPick == DefaultTimePerPick
      ensures positions == DefaultPositionQuotas
      ensures QuotaTotal(positions) == rounds
    {
      rounds := DefaultRounds;
      timePerPick := DefaultTimePerPick;
      positions := DefaultPositionQuotas;
    }
  }

  /** A league and its teams, in draft-position order once set up. */
  class League {
    const id: string
    const name: string
    var teams: seq<Team>
    const draftSettings: DraftSettings
    const isActive: bool

    /** A new league has no teams, is inactive and has default settings. */
    constructor(id: string, name: string)
      ensures this.id == id && this.name == name
      ensures teams == [] && !isActive
      ensures fresh(draftSettings)
      ensures draftSettings.rounds == DefaultRounds && draftSettings.timePerPick == DefaultTimePerPick
      ensures draftSettings.positions == DefaultPositionQuotas
    {
      this.id := id;
      this.name := name;
      this.teams := [];
      this.draftSettings := new DraftSettings();
      this.isActive := false;
    }
  }

  /** One recorded pick. Nothing ever changes it after it is recorded. */
  class DraftPick {
    const round: int
    const pick: int
    const teamIndex: int
    const player: Player

    /** Stores exactly what it is given. */
    constructor(round: int, pick: int, teamIndex: int, player: Player)
      ensures this.round == round && this.pick == pick
      ensures this.teamIndex == teamIndex && this.player == player
    {
      this.round := round;
      this.pick := pick;
      this.teamIndex := teamIndex;
      this.player := player;
    }
  }

  /** The draft of a league: the turn counters, the visitation order and the
      history of picks. */
  class Draft {
    const id: string
    const league: League
    var currentRound: int
    var currentPick: int
    var currentTeamIndex: int
    const isSnake: bool
    var isActive: bool
    var draftOrder: seq<int>
    const availablePlayers: seq<Player>
    var draftHistory: seq<DraftPick>

    /** A new draft: round 1, pick 1, team index 0, snake, inactive, and no
        order, available players or history yet. */
    constructor(id: string, league: League)
      ensures this.id == id && this.league == league
      ensures currentRound == 1 && currentPick == 1 && currentTeamIndex == 0
      ensures isSnake && !isActive
      ensures draftOrder == [] && availablePlayers == [] && draftHistory == []
    {
      this.id := id;
      this.league := league;
      this.currentRound := 1;
      this.currentPick := 1;
      this.currentTeamIndex := 0;
      this.isSnake := true;
      this.isActive := false;
      this.draftOrder := [];
      this.availablePlayers := [];
      this.draftHistory := [];
    }

    /** The scheduling fields as one value. */
    function TurnState(): Schedule.Turn
      reads this
    {
      Schedule.Turn(currentRound, currentPick, currentTeamIndex, draftOrder)
    }
  }
}
