/** The `filteredPlayers` pipeline of hsappsoccer/DraftBoardView.swift: drop
    drafted players, keep the selected position unless it is "ALL", keep the
    players whose name or club contains the search text (ignoring case) unless
    the text is empty, and sort by points, highest first. */
module PlayerPool {
  import opened Safe
  import opened Models

  /** The position filter that keeps every position. */
  const AllPositions: string := "ALL"

  /** ASCII case folding: upper-case letters to lower case. */
  function FoldCase(c: char): char {
    if 'A' <= c <= 'Z' then (c as int + 32) as char else c
  }

  /** `hay` starts with `needle`, ignoring case. */
  predicate StartsWithIgnoringCase(hay: string, needle: string) {
    |needle| <= |hay| && forall i :: 0 <= i < |needle| ==> FoldCase(hay[i]) == FoldCase(needle[i])
  }

  /** `hay` contains `needle`, ignoring case (the model of
      `localizedCaseInsensitiveContains`). */
  predicate ContainsIgnoringCase(hay: string, needle: string)
    decreases |hay|
  {
    StartsWithIgnoringCase(hay, needle) || (|hay| > 0 && ContainsIgnoringCase(hay[1..], needle))
  }

  /** `ContainsIgnoringCase` agrees with "some suffix starts with the needle". */
  lemma {:induction false} ContainsIgnoringCaseAt(hay: string, needle: string)
    ensures ContainsIgnoringCase(hay, needle) <==> exists k :: 0 <= k <= |hay| && StartsWithIgnoringCase(hay[k..], needle)
  {
    assert hay[0..] == hay;
    if |hay| > 0 {
      ContainsIgnoringCaseAt(hay[1..], needle);
      if ContainsIgnoringCase(hay, needle) && !StartsWithIgnoringCase(hay, needle) {
        var k :| 0 <= k <= |hay[1..]| && StartsWithIgnoringCase(hay[1..][k..], needle);
        assert hay[1..][k..] == hay[k + 1..];
      }
      if k :| 0 <= k <= |hay| && StartsWithIgnoringCase(hay[k..], needle) {
        if k > 0 {
          assert hay[1..][k - 1..] == hay[k..];
        }
      }
    }
  }

  /** Typing more search text can only lose matches. */
  lemma {:induction false} ContainsLongerNeedle(hay: string, needle: string, more: string)
    requires ContainsIgnoringCase(hay, needle + more)
    ensures ContainsIgnoringCase(hay, needle)
    decreases |hay|
  {
    if !StartsWithIgnoringCase(hay, needle + more) {
      ContainsLongerNeedle(hay[1..], needle, more);
    } else {
      forall i | 0 <= i < |needle|
        ensures FoldCase(hay[i]) == FoldCase(needle[i])
      {
        assert (needle + more)[i] == needle[i];
      }
    }
  }

  /** A player kept by the position filter and the search text. */
  predicate Admits(p: Player, position: string, text: string) {
    && (position != AllPositions ==> p.position == position)
    && (text != "" ==> ContainsIgnoringCase(p.name, text) || ContainsIgnoringCase(p.team, text))
  }

  /** `players.filter { !$0.isDrafted }` */
  function Undrafted(players: seq<Player>): (r: seq<Player>)
    reads players
    ensures |r| <= |players| && multiset(r) <= multiset(players)
    ensures forall i :: 0 <= i < |r| ==> !r[i].isDrafted
    ensures forall p :: p in players && !p.isDrafted ==> p in r
  {
    if |players| == 0 then []
    else
      assert players == [players[0]] + players[1..];
      (if players[0].isDrafted then [] else [players[0]]) + Undrafted(players[1..])
  }

  /** `available.filter { $0.position == selectedPosition }` */
  function AtPosition(players: seq<Player>, position: string): (r: seq<Player>)
    ensures |r| <= |players| && multiset(r) <= multiset(players)
    ensures forall i :: 0 <= i < |r| ==> r[i].position == position
    ensures forall p :: p in players && p.position == position ==> p in r
  {
    if |players| == 0 then []
    else
      assert players == [players[0]] + players[1..];
      (if players[0].position == position then [players[0]] else []) + AtPosition(players[1..], position)
  }

  /** The players whose name or club contains `text`, ignoring case. */
  function Matching(players: seq<Player>, text: string): (r: seq<Player>)
    ensures |r| <= |players| && multiset(r) <= multiset(players)
    ensures forall i :: 0 <= i < |r| ==> ContainsIgnoringCase(r[i].name, text) || ContainsIgnoringCase(r[i].team, text)
    ensures forall p :: p in players && (ContainsIgnoringCase(p.name, text) || ContainsIgnoringCase(p.team, text)) ==> p in r
  {
    if |players| == 0 then []
    else
      assert players == [players[0]] + players[1..];
      var p := players[0];
      (if ContainsIgnoringCase(p.name, text) || ContainsIgnoringCase(p.team, text) then [p] else [])
        + Matching(players[1..], text)
  }

  /** `Undrafted` keeps each undrafted player as often as it occurs. */
  lemma {:induction false} UndraftedCount(players: seq<Player>, p: Player)
    ensures multiset(Undrafted(players))[p] == if p.isDrafted then 0 else multiset(players)[p]
  {
    if |players| > 0 {
      assert players == [players[0]] + players[1..];
      UndraftedCount(players[1..], p);
    }
  }

  /** `AtPosition` keeps each player at the position as often as it occurs. */
  lemma {:induction false} AtPositionCount(players: seq<Player>, position: string, p: Player)
    ensures multiset(AtPosition(players, position))[p] == if p.position == position then multiset(players)[p] else 0
  {
    if |players| > 0 {
      assert players == [players[0]] + players[1..];
      AtPositionCount(players[1..], position, p);
    }
  }

  /** `Matching` keeps each matching player as often as it occurs. */
  lemma {:induction false} MatchingCount(players: seq<Player>, text: string, p: Player)
    ensures multiset(Matching(players, text))[p] ==
      if ContainsIgnoringCase(p.name, text) || ContainsIgnoringCase(p.team, text) then multiset(players)[p] else 0
  {
    if |players| > 0 {
      assert players == [players[0]] + players[1..];
      MatchingCount(players[1..], text, p);
    }
  }

  /** Every player has at least as many points as every later one. */
  predicate ByPointsDescending(s: seq<Player>) {
    forall i, j :: 0 <= i < j < |s| ==> s[i].points >= s[j].points
  }

  /** Insert `p` into a list already in descending order of points. */
  function InsertByPoints(p: Player, s: seq<Player>): (r: seq<Player>)
    requires ByPointsDescending(s)
    ensures ByPointsDescending(r)
    ensures multiset(r) == multiset(s) + multiset{p}
    ensures |r| > 0 && (r[0] == p || (|s| > 0 && r[0] == s[0]))
  {
    if |s| == 0 || p.points >= s[0].points then
      PrependKeepsOrder(p, s);
      [p] + s
    else
      assert s == [s[0]] + s[1..];
      var rest := InsertByPoints(p, s[1..]);
      assert |s| > 1 ==> s[0].points >= s[1].points;
      PrependKeepsOrder(s[0], rest);
      [s[0]] + rest
  }

  /** A player with at least the points of the head can go in front. */
  lemma PrependKeepsOrder(x: Player, s: seq<Player>)
    requires ByPointsDescending(s)
    requires |s| > 0 ==> x.points >= s[0].points
    ensures ByPointsDescending([x] + s)
  {
    var r := [x] + s;
    forall i, j | 0 <= i < j < |r|
      ensures r[i].points >= r[j].points
    {
      if i == 0 && j > 1 {
        assert r[j] == s[j - 1];
      }
    }
  }

  /** `sorted { $0.points > $1.points }`: a permutation in descending order of
      points. Nothing is promised about the order of players with equal points. */
  function SortByPoints(s: seq<Player>): (r: seq<Player>)
    ensures ByPointsDescending(r)
    ensures multiset(r) == multiset(s)
  {
    if |s| == 0 then []
    else
      assert s == [s[0]] + s[1..];
      InsertByPoints(s[0], SortByPoints(s[1..]))
  }

  /** The three filters of `filteredPlayers`, before sorting: exactly the
      undrafted players the two filters admit (`EligibleCount` shows each is
      kept as often as in `players`). */
  function Eligible(players: seq<Player>, position: string, text: string): (r: seq<Player>)
    reads players
    ensures multiset(r) <= multiset(players)
    ensures forall p :: p in r ==> p in players && !p.isDrafted && Admits(p, position, text)
    ensures forall p :: p in players && !p.isDrafted && Admits(p, position, text) ==> p in r
  {
    var available := Undrafted(players);
    var positionFiltered := if position == AllPositions then available else AtPosition(available, position);
    var searchFiltered := if text == "" then positionFiltered else Matching(positionFiltered, text);
    EligibleMembers(players, available, positionFiltered, searchFiltered, position, text);
    searchFiltered
  }

  lemma EligibleMembers(players: seq<Player>, available: seq<Player>, positionFiltered: seq<Player>,
                        searchFiltered: seq<Player>, position: string, text: string)
    requires available == Undrafted(players)
    requires positionFiltered == if position == AllPositions then available else AtPosition(available, position)
    requires searchFiltered == if text == "" then positionFiltered else Matching(positionFiltered, text)
    ensures multiset(searchFiltered) <= multiset(players)
    ensures forall p :: p in searchFiltered ==> p in players && !p.isDrafted && Admits(p, position, text)
    ensures forall p :: p in players && !p.isDrafted && Admits(p, position, text) ==> p in searchFiltered
  {
    MembersOf(available);
    MembersOf(positionFiltered);
    MembersOf(searchFiltered);
    MembersOf(players);
    forall p | p in searchFiltered
      ensures p in players && !p.isDrafted && Admits(p, position, text)
    {
      assert p in positionFiltered;
      assert p in available;
    }
  }

  /** Membership in a sequence and in its multiset coincide. */
  lemma MembersOf(s: seq<Player>)
    ensures forall p :: p in s <==> p in multiset(s)
  {
  }

  /** `filteredPlayers`: exactly the undrafted players the two filters admit,
      highest points first (`AvailableCount` shows each is kept as often as
      in `players`). */
  function Available(players: seq<Player>, position: string, text: string): (r: seq<Player>)
    reads players
    ensures multiset(r) <= multiset(players)
    ensures forall p :: p in r ==> p in players && !p.isDrafted && Admits(p, position, text)
    ensures forall p :: p in players && !p.isDrafted && Admits(p, position, text) ==> p in r
    ensures ByPointsDescending(r)
  {
    SortedEligible(players, position, text);
    SortByPoints(Eligible(players, position, text))
  }

  lemma SortedEligible(players: seq<Player>, position: string, text: string)
    ensures var r := SortByPoints(Eligible(players, position, text));
      && multiset(r) <= multiset(players)
      && (forall p :: p in r ==> p in players && !p.isDrafted && Admits(p, position, text))
      && (forall p :: p in players && !p.isDrafted && Admits(p, position, text) ==> p in r)
  {
    var eligible := Eligible(players, position, text);
    var r := SortByPoints(eligible);
    forall p | p in r
      ensures p in players && !p.isDrafted && Admits(p, position, text)
    {
      SortKeepsMember(eligible, p);
    }
    forall p | p in players && !p.isDrafted && Admits(p, position, text)
      ensures p in r
    {
      SortKeepsMember(eligible, p);
    }
  }

  /** The filters keep an admitted undrafted player as often as it occurs in
      `players` and drop every other player. */
  lemma EligibleCount(players: seq<Player>, position: string, text: string, p: Player)
    ensures multiset(Eligible(players, position, text))[p] ==
      if !p.isDrafted && Admits(p, position, text) then multiset(players)[p] else 0
  {
    var available := Undrafted(players);
    var positionFiltered := if position == AllPositions then available else AtPosition(available, position);
    UndraftedCount(players, p);
    if position != AllPositions {
      AtPositionCount(available, position, p);
    }
    if text != "" {
      MatchingCount(positionFiltered, text, p);
    }
  }

  /** `filteredPlayers` holds each admitted undrafted player as often as
      `players` does, and no other player. */
  lemma AvailableCount(players: seq<Player>, position: string, text: string, p: Player)
    ensures multiset(Available(players, position, text))[p] ==
      if !p.isDrafted && Admits(p, position, text) then multiset(players)[p] else 0
  {
    EligibleCount(players, position, text, p);
  }

  /** `filteredPlayers.first`, the player auto-draft picks: `None` exactly when
      no undrafted player is admitted, otherwise an undrafted admitted player
      with at least as many points as every other one. */
  function BestAvailable(players: seq<Player>, position: string, text: string): (r: Option<Player>)
    reads players
    ensures r.None? <==> forall p :: p in players ==> p.isDrafted || !Admits(p, position, text)
    ensures r.Some? ==> r.value in players && !r.value.isDrafted && Admits(r.value, position, text)
    ensures r.Some? ==> forall p :: p in players && !p.isDrafted && Admits(p, position, text) ==> r.value.points >= p.points
  {
    var ranked := Available(players, position, text);
    if |ranked| == 0 then None
    else
      assert ranked[0] in ranked;
      FirstHasMostPoints(ranked);
      Some(ranked[0])
  }

  /** Choosing a position never lengthens the list shown for "ALL". */
  lemma NarrowingPositionShrinks(players: seq<Player>, position: string, text: string)
    ensures |Available(players, position, text)| <= |Available(players, AllPositions, text)|
  {
    var available := Undrafted(players);
    if position != AllPositions && text != "" {
      MatchingAtPositionShrinks(available, position, text);
    }
    SortKeepsLength(Eligible(players, position, text));
    SortKeepsLength(Eligible(players, AllPositions, text));
  }

  /** Searching never lengthens the list shown with an empty search text. */
  lemma SearchingShrinks(players: seq<Player>, position: string, text: string)
    ensures |Available(players, position, text)| <= |Available(players, position, "")|
  {
    SortKeepsLength(Eligible(players, position, text));
    SortKeepsLength(Eligible(players, position, ""));
  }

  /** Typing more search text never lengthens the list. */
  lemma ExtendingSearchShrinks(players: seq<Player>, position: string, text: string, more: string)
    ensures |Available(players, position, text + more)| <= |Available(players, position, text)|
  {
    var available := Undrafted(players);
    var positionFiltered := if position == AllPositions then available else AtPosition(available, position);
    if text == "" {
      assert text + more == more;
      SearchingShrinks(players, position, more);
    } else {
      assert text + more != "";
      MatchingLongerText(positionFiltered, text, more);
      SortKeepsLength(Eligible(players, position, text));
      SortKeepsLength(Eligible(players, position, text + more));
    }
  }

  lemma SortKeepsMember(s: seq<Player>, p: Player)
    ensures p in SortByPoints(s) <==> p in s
  {
    assert p in s <==> p in multiset(s);
    assert p in SortByPoints(s) <==> p in multiset(SortByPoints(s));
  }

  lemma FirstHasMostPoints(s: seq<Player>)
    requires ByPointsDescending(s) && |s| > 0
    ensures forall p :: p in s ==> s[0].points >= p.points
  {
    forall p | p in s ensures s[0].points >= p.points {
      var j :| 0 <= j < |s| && s[j] == p;
      if j > 0 { assert s[0].points >= s[j].points; }
    }
  }

  lemma SortKeepsLength(s: seq<Player>)
    ensures |SortByPoints(s)| == |s|
  {
    assert |multiset(SortByPoints(s))| == |multiset(s)|;
  }

  lemma {:induction false} MatchingAtPositionShrinks(s: seq<Player>, position: string, text: string)
    ensures |Matching(AtPosition(s, position), text)| <= |Matching(s, text)|
  {
    if |s| > 0 {
      MatchingAtPositionShrinks(s[1..], position, text);
      var kept := AtPosition(s, position);
      if s[0].position == position {
        assert kept == [s[0]] + AtPosition(s[1..], position);
        assert kept[0] == s[0] && kept[1..] == AtPosition(s[1..], position);
      } else {
        assert kept == AtPosition(s[1..], position);
      }
    }
  }

  lemma {:induction false} MatchingLongerText(s: seq<Player>, text: string, more: string)
    ensures |Matching(s, text + more)| <= |Matching(s, text)|
  {
    if |s| > 0 {
      MatchingLongerText(s[1..], text, more);
      var p := s[0];
      if ContainsIgnoringCase(p.name, text + more) {
        ContainsLongerNeedle(p.name, text, more);
      }
      if ContainsIgnoringCase(p.team, text + more) {
        ContainsLongerNeedle(p.team, text, more);
      }
    }
  }
}
