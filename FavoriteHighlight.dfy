/** The favourites panel: height and date formatting, the team picked from a search, the form
    badges, and the state the panel's lookups step through. */
module FavoriteHighlight {
  import opened Wrappers
  import opened Text
  import opened Numbers

  /** JavaScript `Number(s)` on the strings the model covers: "" reads as 0, a digit string as its
      value, anything else as NaN (`None`). */
  function JsNumber(s: string): (r: Option<nat>)
    ensures s == "" ==> r == Some(0)
  {
    if AllDigits(s) then Some(DigitsValue(s)) else None
  }

  /** `Number` reads back every numeral JavaScript prints for a non-negative integer. */
  lemma JsNumberReadsNumeral(n: nat)
    ensures JsNumber(NatToString(n)) == Some(n)
  {
    NatToStringRoundTrip(n);
  }

  /** In this model, one character other than a digit anywhere makes the string NaN, as `Number`
      does for "6'", "6ft" and "-". */
  lemma JsNumberNaN(s: string, i: nat)
    requires i < |s| && !IsDigit(s[i])
    ensures JsNumber(s) == None
  {
  }

  /** `Math.round(feet * 30.48 + inches * 2.54)`. */
  function HeightCm(feet: nat, inches: nat): (cm: nat)
    ensures -0.5 < cm as real - (feet as real * 30.48 + inches as real * 2.54) <= 0.5
  {
    var n := MathRound(feet as real * 30.48 + inches as real * 2.54);
    assert n >= 0;
    n
  }

  /** `convertHeight`: "N/A" when the height is missing or empty; the height itself when the part
      before the first '-' or the part after it is not a number (a missing second part is
      `Number(undefined)`, NaN); otherwise `F'I" (C cm)`. */
  function ConvertHeight(height: Option<string>): (r: string)
    ensures height.None? || height == Some("") ==> r == "N/A"
  {
    if height.None? || height.value == "" then "N/A"
    else
      var parts := Split(height.value, '-');
      var feet := JsNumber(parts[0]);
      var inches := if |parts| >= 2 then JsNumber(parts[1]) else None;
      if feet.None? || inches.None? then height.value
      else HeightText(feet.value, inches.value)
  }

  /** The text shown for a numeric height. */
  function HeightText(feet: nat, inches: nat): string {
    NatToString(feet) + "'" + NatToString(inches) + "\" (" + NatToString(HeightCm(feet, inches)) + " cm)"
  }

  /** A height without any '-' is handed back as it is, digits or not. */
  lemma HeightWithoutDash(h: string)
    requires h != "" && '-' !in h
    ensures ConvertHeight(Some(h)) == h
  {
    SplitNoSeparator(h, '-');
  }

  /** A height whose first or second part is not a number is handed back as it is. */
  lemma HeightNotNumeric(feet: string, inches: string, tail: string)
    requires '-' !in feet && '-' !in inches
    requires tail == "" || tail[0] == '-'
    requires !AllDigits(feet) || !AllDigits(inches)
    ensures ConvertHeight(Some(feet + "-" + inches + tail)) == feet + "-" + inches + tail
  {
    SplitTwo(feet, inches, tail);
  }

  /** For digit parts F and I, the text is `F'I" (C cm)` with C the rounded centimetres; any parts
      after the second are ignored. */
  lemma HeightNumeric(feet: string, inches: string, tail: string)
    requires AllDigits(feet) && AllDigits(inches)
    requires tail == "" || tail[0] == '-'
    ensures '-' !in feet && '-' !in inches
    ensures ConvertHeight(Some(feet + "-" + inches + tail)) == HeightText(DigitsValue(feet), DigitsValue(inches))
  {
    assert forall i :: 0 <= i < |feet| ==> feet[i] != '-';
    assert forall i :: 0 <= i < |inches| ==> inches[i] != '-';
    SplitTwo(feet, inches, tail);
  }

  /** The first two parts of `feet-inches[-…]`. */
  lemma SplitTwo(feet: string, inches: string, tail: string)
    requires '-' !in feet && '-' !in inches
    requires tail == "" || tail[0] == '-'
    ensures var parts := Split(feet + "-" + inches + tail, '-');
      |parts| >= 2 && parts[0] == feet && parts[1] == inches
  {
    SplitPrefix(feet, inches + tail, '-');
    assert feet + "-" + inches + tail == feet + ['-'] + (inches + tail);
    if tail == "" {
      assert inches + tail == inches;
      SplitNoSeparator(inches, '-');
    } else {
      SplitPrefix(inches, tail[1..], '-');
      assert inches + tail == inches + ['-'] + tail[1..];
    }
  }

  /** The centimetres in integer arithmetic: `(3048 F + 254 I + 50) div 100`. */
  lemma HeightCmExact(feet: nat, inches: nat)
    ensures HeightCm(feet, inches) == (3048 * feet + 254 * inches + 50) / 100
  {
    var k := 3048 * feet + 254 * inches + 50;
    var q, r := k / 100, k % 100;
    assert k == 100 * q + r && 0 <= r < 100;
    var y := feet as real * 30.48 + inches as real * 2.54 + 0.5;
    assert y == k as real / 100.0;
    assert y == q as real + r as real / 100.0;
    assert q as real <= y < q as real + 1.0;
    var n := HeightCm(feet, inches);
    assert n == y.Floor;
  }

  /** Six foot eight reads as 203 cm. */
  lemma SixFootEight()
    ensures ConvertHeight(Some("6-8")) == "6'8\" (203 cm)"
  {
    HeightNumeric("6", "8", "");
    assert "6" + "-" + "8" + "" == "6-8";
    SingleDigits();
    SixEightText();
  }

  lemma SingleDigits()
    ensures DigitsValue("6") == 6 && DigitsValue("8") == 8
  {
    assert "6"[..0] == "" && "8"[..0] == "";
  }

  lemma SixEightText()
    ensures HeightText(6, 8) == "6'8\" (203 cm)"
  {
    HeightCmExact(6, 8);
    assert HeightCm(6, 8) == 203;
    Numeral203();
    assert NatToString(6) == "6" && NatToString(8) == "8";
  }

  lemma Numeral203()
    ensures NatToString(203) == "203"
  {
    assert NatToString(2) == "2";
    assert NatToString(20) == NatToString(2) + [DigitChar(0)];
    assert NatToString(203) == NatToString(20) + [DigitChar(3)];
  }

  /** `formatDate`: "N/A" when the date is missing or empty, otherwise the en-GB date with every '/'
      turned into '.'. `localeDate` stands for `new Date(iso).toLocaleDateString("en-GB")`. */
  function FormatDate(iso: Option<string>, localeDate: string -> string): (r: string)
    ensures iso.None? || iso == Some("") ==> r == "N/A"
    ensures iso.Some? && iso.value != "" ==> |r| == |localeDate(iso.value)| && '/' !in r
    ensures iso.Some? && iso.value != "" ==> forall i :: 0 <= i < |r| ==>
      r[i] == if localeDate(iso.value)[i] == '/' then '.' else localeDate(iso.value)[i]
  {
    if iso.None? || iso.value == "" then "N/A"
    else
      var d := localeDate(iso.value);
      seq(|d|, i requires 0 <= i < |d| => if d[i] == '/' then '.' else d[i])
  }

  /** A team search result. */
  datatype Team = Team(fullName: Option<string>, id: int, logoUrl: Option<string>)

  /** `t.full_name?.toLowerCase() === name.toLowerCase()` (ASCII case folding only). */
  predicate NameMatches(t: Team, name: string) {
    t.fullName.Some? && ToLowerAscii(t.fullName.value) == ToLowerAscii(name)
  }

  /** `results.find(…)`: the index of the first exact (case-insensitive) match. */
  function FindExact(results: seq<Team>, name: string): (r: Option<nat>)
    ensures r.Some? ==> r.value < |results| && NameMatches(results[r.value], name)
    ensures r.Some? ==> forall j :: 0 <= j < r.value ==> !NameMatches(results[j], name)
    ensures r.None? ==> forall j :: 0 <= j < |results| ==> !NameMatches(results[j], name)
  {
    if results == [] then None
    else if NameMatches(results[0], name) then Some(0)
    else
      match FindExact(results[1..], name)
      case None => None
      case Some(i) => Some(i + 1)
  }

  /** `find(…) || response[0]`: the first exact match, else the first result; `None` for an empty
      list, where reading `exact.logo_url` throws. */
  function SelectTeam(results: seq<Team>, name: string): (r: Option<Team>)
    ensures r.None? <==> results == []
    ensures r.Some? ==> r.value in results
    ensures (exists j :: 0 <= j < |results| && NameMatches(results[j], name)) ==>
      r.Some? && NameMatches(r.value, name)
    ensures results != [] && (forall j :: 0 <= j < |results| ==> !NameMatches(results[j], name)) ==>
      r == Some(results[0])
  {
    match FindExact(results, name)
    case Some(i) => Some(results[i])
    case None => if results == [] then None else Some(results[0])
  }

  /** Among several exact matches the earliest wins. */
  lemma SelectTeamEarliest(results: seq<Team>, name: string, i: nat)
    requires i < |results| && NameMatches(results[i], name)
    requires forall j :: 0 <= j < i ==> !NameMatches(results[j], name)
    ensures SelectTeam(results, name) == Some(results[i])
  {
    var r := FindExact(results, name);
    assert r.Some?;
    if r.value < i {
    } else if r.value > i {
    }
  }

  const WinColour := "#297b04"
  const LossColour := "#8d0404"

  /** One circle of the "Last 10 Games" strip. */
  datatype Badge = Badge(letter: char, colour: string)

  /** `form.split("").map(…)`: one badge per character, "W" in the win colour, anything else in
      the loss colour. */
  function Badges(form: string): seq<Badge> {
    seq(|form|, i requires 0 <= i < |form| => Badge(form[i], if form[i] == 'W' then WinColour else LossColour))
  }

  function Letters(badges: seq<Badge>): string {
    seq(|badges|, i requires 0 <= i < |badges| => badges[i].letter)
  }

  function Count<T(==)>(xs: seq<T>, x: T): nat {
    if xs == [] then 0 else Count(xs[..|xs| - 1], x) + (if xs[|xs| - 1] == x then 1 else 0)
  }

  function Colours(badges: seq<Badge>): seq<string> {
    seq(|badges|, i requires 0 <= i < |badges| => badges[i].colour)
  }

  /** The badges spell the form string back, in order. */
  lemma BadgesSpellForm(form: string)
    ensures Letters(Badges(form)) == form
  {
  }

  /** As many win-coloured badges as wins, and every other badge is loss-coloured. */
  lemma {:induction false} WinBadgeCount(form: string)
    ensures Count(Colours(Badges(form)), WinColour) == Count(form, 'W')
    ensures Count(Colours(Badges(form)), LossColour) == |form| - Count(form, 'W')
  {
    if form != [] {
      var init := form[..|form| - 1];
      WinBadgeCount(init);
      assert Colours(Badges(form))[..|form| - 1] == Colours(Badges(init));
      CountAtMost(init, 'W');
    }
  }

  lemma {:induction false} CountAtMost<T>(xs: seq<T>, x: T)
    ensures Count(xs, x) <= |xs|
  {
    if xs != [] {
      CountAtMost(xs[..|xs| - 1], x);
    }
  }

  /** A name is falsy when it is missing or empty. */
  predicate Present(name: Option<string>) { name.Some? && name.value != "" }

  /** A `player_id` is truthy when present and non-zero. */
  predicate HasId(id: Option<int>) { id.Some? && id.value != 0 }

  /** What the panel asks the back end for. */
  datatype Request = TeamSearch(name: string) | TeamDataFor(teamId: int)
                   | PlayerImage(playerName: string) | PlayerDataFor(playerId: int)

  /** The team data the panel renders; only the form string is modelled. */
  datatype TeamData = TeamData(form: string)

  /** The player-image lookup's answer. */
  datatype PlayerLookup = PlayerLookup(imageUrl: Option<string>, playerId: Option<int>)

  /** The panel's state. Each lookup is split at its `await`: `Start…` runs up to the request,
      `Finish…` runs the rest, including the `finally`. */
  class FavoritePanel {
    var teamLogo: Option<string>
    var playerImg: Option<string>
    var loadingTeam: bool
    var loadingPlayer: bool
    var loadingTeamData: bool
    var loadingPlayerData: bool
    var teamData: Option<TeamData>
    var playerData: Option<string>
    var requests: seq<Request>

    constructor ()
      ensures teamLogo == None && playerImg == None && teamData == None && playerData == None
      ensures !loadingTeam && !loadingPlayer && !loadingTeamData && !loadingPlayerData
      ensures requests == []
    {
      teamLogo, playerImg, teamData, playerData := None, None, None, None;
      loadingTeam, loadingPlayer, loadingTeamData, loadingPlayerData := false, false, false, false;
      requests := [];
    }

    /** The team effect up to its request; skipped when the favourite team is falsy. */
    method StartTeamLookup(favouriteTeam: Option<string>)
      modifies this
      ensures Present(favouriteTeam) ==> loadingTeam && requests == old(requests) + [TeamSearch(favouriteTeam.value)]
      ensures !Present(favouriteTeam) ==> loadingTeam == old(loadingTeam) && requests == old(requests)
      ensures teamLogo == old(teamLogo) && playerImg == old(playerImg) && loadingPlayer == old(loadingPlayer)
      ensures loadingTeamData == old(loadingTeamData) && loadingPlayerData == old(loadingPlayerData)
      ensures teamData == old(teamData) && playerData == old(playerData)
    {
      if !Present(favouriteTeam) {
        return;
      }
      loadingTeam := true;
      requests := requests + [TeamSearch(favouriteTeam.value)];
    }

    /** The team search's answer: with status 200 and an array, the selected team's logo is shown and
        its data requested; an empty array throws before that. The loading flag is cleared in every
        case. `results == None` is a non-array body. */
    method FinishTeamLookup(favouriteTeam: string, status: int, results: Option<seq<Team>>)
      modifies this
      ensures !loadingTeam
      ensures var chosen := if status == 200 && results.Some? then SelectTeam(results.value, favouriteTeam) else None;
        && (chosen.Some? ==> teamLogo == chosen.value.logoUrl && loadingTeamData
                             && requests == old(requests) + [TeamDataFor(chosen.value.id)])
        && (chosen.None? ==> teamLogo == old(teamLogo) && loadingTeamData == old(loadingTeamData)
                             && requests == old(requests))
      ensures playerImg == old(playerImg) && loadingPlayer == old(loadingPlayer)
      ensures loadingPlayerData == old(loadingPlayerData)
      ensures teamData == old(teamData) && playerData == old(playerData)
    {
      if status == 200 && results.Some? {
        var chosen := SelectTeam(results.value, favouriteTeam);
        if chosen.Some? {
          teamLogo := chosen.value.logoUrl;
          loadingTeamData := true;
          requests := requests + [TeamDataFor(chosen.value.id)];
        }
      }
      loadingTeam := false;
    }

    /** The team data's answer: stored only with status 200; loading cleared either way. */
    method FinishTeamData(status: int, response: TeamData)
      modifies this
      ensures !loadingTeamData
      ensures teamData == if status == 200 then Some(response) else old(teamData)
      ensures teamLogo == old(teamLogo) && playerImg == old(playerImg) && loadingTeam == old(loadingTeam)
      ensures loadingPlayer == old(loadingPlayer) && loadingPlayerData == old(loadingPlayerData)
      ensures playerData == old(playerData) && requests == old(requests)
    {
      if status == 200 {
        teamData := Some(response);
      }
      loadingTeamData := false;
    }

    /** The player effect up to its request; skipped when the favourite player is falsy. */
    method StartPlayerLookup(favouritePlayer: Option<string>)
      modifies this
      ensures Present(favouritePlayer) ==> loadingPlayer && requests == old(requests) + [PlayerImage(favouritePlayer.value)]
      ensures !Present(favouritePlayer) ==> loadingPlayer == old(loadingPlayer) && requests == old(requests)
      ensures teamLogo == old(teamLogo) && playerImg == old(playerImg) && loadingTeam == old(loadingTeam)
      ensures loadingTeamData == old(loadingTeamData) && loadingPlayerData == old(loadingPlayerData)
      ensures teamData == old(teamData) && playerData == old(playerData)
    {
      if !Present(favouritePlayer) {
        return;
      }
      loadingPlayer := true;
      requests := requests + [PlayerImage(favouritePlayer.value)];
    }

    /** The player-image answer: with status 200 a truthy image URL is shown, and a truthy
        `player_id` starts the player-data request. Loading is cleared in every case. */
    method FinishPlayerLookup(status: int, response: PlayerLookup)
      modifies this
      ensures !loadingPlayer
      ensures playerImg == if status == 200 && Present(response.imageUrl) then response.imageUrl else old(playerImg)
      ensures status == 200 && HasId(response.playerId) ==>
        loadingPlayerData && requests == old(requests) + [PlayerDataFor(response.playerId.value)]
      ensures !(status == 200 && HasId(response.playerId)) ==>
        loadingPlayerData == old(loadingPlayerData) && requests == old(requests)
      ensures teamLogo == old(teamLogo) && loadingTeam == old(loadingTeam) && loadingTeamData == old(loadingTeamData)
      ensures teamData == old(teamData) && playerData == old(playerData)
    {
      if status == 200 && Present(response.imageUrl) {
        playerImg := response.imageUrl;
      }
      if status == 200 && HasId(response.playerId) {
        loadingPlayerData := true;
        requests := requests + [PlayerDataFor(response.playerId.value)];
      }
      loadingPlayer := false;
    }

    /** The player data's answer: stored only with status 200; loading cleared either way. */
    method FinishPlayerData(status: int, response: string)
      modifies this
      ensures !loadingPlayerData
      ensures playerData == if status == 200 then Some(response) else old(playerData)
      ensures teamLogo == old(teamLogo) && playerImg == old(playerImg) && loadingTeam == old(loadingTeam)
      ensures loadingPlayer == old(loadingPlayer) && loadingTeamData == old(loadingTeamData)
      ensures teamData == old(teamData) && requests == old(requests)
    {
      if status == 200 {
        playerData := Some(response);
      }
      loadingPlayerData := false;
    }
  }
}
