/** The set-up page: a team search box and a player search box, each keeping a committed choice, the
    text typed, the last results and a dropdown flag, plus the submit gate. The 300 ms debounce is a
    pending lookup that a `DebounceElapsed` event fires; no time passes in the model. */
module Setup {
  import opened Wrappers
  import opened Text

  /** A search result: its id and the name shown and chosen. */
  datatype Item = Item(id: int, name: string)

  /** One search box (`team`/`searchTerm`/`teams`/`loading`/`showDropdown`, or the player
      counterparts). `requests` lists the search terms sent, in order. */
  class SearchBox {
    var committed: string
    var query: string
    var results: seq<Item>
    var loading: bool
    var dropdown: bool
    var pending: Option<string>
    var requests: seq<string>

    /** A scheduled lookup is always for the current, non-blank query text. */
    predicate Valid()
      reads this
    {
      pending.Some? ==> pending.value == query && !IsBlank(query)
    }

    constructor ()
      ensures Valid()
      ensures committed == "" && query == "" && results == [] && !loading && !dropdown
      ensures pending == None && requests == []
    {
      committed, query, results := "", "", [];
      loading, dropdown := false, false;
      pending, requests := None, [];
    }

    /** Setting the query text and, when it changed, re-running the `[searchTerm]` effect: the
        previous timer is cleared; a blank query empties the results, any other schedules a lookup. */
    method SetQuery(value: string)
      requires Valid()
      modifies this
      ensures Valid()
      ensures query == value
      ensures value == old(query) ==> results == old(results) && pending == old(pending)
      ensures value != old(query) && IsBlank(value) ==> results == [] && pending == None
      ensures value != old(query) && !IsBlank(value) ==> results == old(results) && pending == Some(value)
      ensures committed == old(committed) && loading == old(loading) && dropdown == old(dropdown)
      ensures requests == old(requests)
    {
      if value == query {
        return;
      }
      query := value;
      if IsBlank(value) {
        results := [];
        pending := None;
      } else {
        pending := Some(value);
      }
    }

    /** `onChange`: the query becomes the typed text and the dropdown opens. */
    method Type(value: string)
      requires Valid()
      modifies this
      ensures Valid()
      ensures query == value && dropdown
      ensures value == old(query) ==> results == old(results) && pending == old(pending)
      ensures value != old(query) && IsBlank(value) ==> results == [] && pending == None
      ensures value != old(query) && !IsBlank(value) ==> results == old(results) && pending == Some(value)
      ensures committed == old(committed) && loading == old(loading) && requests == old(requests)
    {
      SetQuery(value);
      dropdown := true;
    }

    /** `onFocus`: the dropdown opens. */
    method Focus()
      requires Valid()
      modifies this
      ensures Valid()
      ensures dropdown
      ensures committed == old(committed) && query == old(query) && results == old(results)
      ensures loading == old(loading) && pending == old(pending) && requests == old(requests)
    {
      dropdown := true;
    }

    /** A result's `onClick`: it becomes both the committed value and the query text, and the dropdown
        closes. The changed query schedules a lookup for the chosen name, as in the page. */
    method Select(item: Item)
      requires Valid()
      modifies this
      ensures Valid()
      ensures committed == item.name && query == item.name && !dropdown
      ensures item.name == old(query) ==> results == old(results) && pending == old(pending)
      ensures item.name != old(query) && IsBlank(item.name) ==> results == [] && pending == None
      ensures item.name != old(query) && !IsBlank(item.name) ==> results == old(results) && pending == Some(item.name)
      ensures loading == old(loading) && requests == old(requests)
    {
      committed := item.name;
      SetQuery(item.name);
      dropdown := false;
    }

    /** `handleClickOutside`: the dropdown closes and the query falls back to the committed value
        (`team || ""`), which itself is kept. */
    method ClickOutside()
      requires Valid()
      modifies this
      ensures Valid()
      ensures !dropdown && query == old(committed) && committed == old(committed)
      ensures old(committed) == old(query) ==> results == old(results) && pending == old(pending)
      ensures old(committed) != old(query) && IsBlank(old(committed)) ==> results == [] && pending == None
      ensures old(committed) != old(query) && !IsBlank(old(committed)) ==>
        results == old(results) && pending == Some(old(committed))
      ensures loading == old(loading) && requests == old(requests)
    {
      SetQuery(committed);
      dropdown := false;
    }

    /** The debounce timer fires: the scheduled lookup is sent and loading shows. */
    method DebounceElapsed()
      requires Valid()
      modifies this
      ensures Valid()
      ensures old(pending).Some? ==> loading && requests == old(requests) + [old(pending).value] && pending == None
      ensures old(pending).None? ==> loading == old(loading) && requests == old(requests) && pending == None
      ensures committed == old(committed) && query == old(query) && results == old(results)
      ensures dropdown == old(dropdown)
    {
      if pending.Some? {
        loading := true;
        requests := requests + [pending.value];
        pending := None;
      }
    }

    /** A lookup's answer: the results are replaced only with status 200; loading ends either way. */
    method Respond(status: int, data: seq<Item>)
      requires Valid()
      modifies this
      ensures Valid()
      ensures results == (if status == 200 then data else old(results)) && !loading
      ensures committed == old(committed) && query == old(query) && dropdown == old(dropdown)
      ensures pending == old(pending) && requests == old(requests)
    {
      if status == 200 {
        results := data;
      }
      loading := false;
    }
  }

  /** Where a mousedown lands. */
  datatype Target = InTeamBox | InPlayerBox | Elsewhere

  /** The whole page. The boxes are separate objects, so an event on one leaves the other as it was. */
  class SetupPage {
    const team: SearchBox
    const player: SearchBox
    var submitted: bool

    predicate Valid()
      reads this, team, player
    {
      team != player && team.Valid() && player.Valid()
    }

    constructor ()
      ensures Valid() && fresh(team) && fresh(player) && !submitted
      ensures team.committed == "" && team.query == "" && team.results == [] && !team.loading && !team.dropdown
      ensures team.pending == None && team.requests == []
      ensures player.committed == "" && player.query == "" && player.results == [] && !player.loading
      ensures !player.dropdown && player.pending == None && player.requests == []
    {
      team := new SearchBox();
      player := new SearchBox();
      submitted := false;
    }

    /** Typing in the team box leaves the player box and the submit flag alone. */
    method TypeTeam(value: string)
      requires Valid()
      modifies team
      ensures Valid()
      ensures team.query == value && team.dropdown && team.committed == old(team.committed)
      ensures value == old(team.query) ==> team.results == old(team.results) && team.pending == old(team.pending)
      ensures value != old(team.query) && IsBlank(value) ==> team.results == [] && team.pending == None
      ensures value != old(team.query) && !IsBlank(value) ==>
        team.results == old(team.results) && team.pending == Some(value)
      ensures team.loading == old(team.loading) && team.requests == old(team.requests)
      ensures unchanged(player) && submitted == old(submitted)
    {
      team.Type(value);
    }

    /** Typing in the player box leaves the team box and the submit flag alone. */
    method TypePlayer(value: string)
      requires Valid()
      modifies player
      ensures Valid()
      ensures player.query == value && player.dropdown && player.committed == old(player.committed)
      ensures value == old(player.query) ==> player.results == old(player.results) && player.pending == old(player.pending)
      ensures value != old(player.query) && IsBlank(value) ==> player.results == [] && player.pending == None
      ensures value != old(player.query) && !IsBlank(value) ==>
        player.results == old(player.results) && player.pending == Some(value)
      ensures player.loading == old(player.loading) && player.requests == old(player.requests)
      ensures unchanged(team) && submitted == old(submitted)
    {
      player.Type(value);
    }

    /** Choosing a team leaves the player box alone. */
    method SelectTeam(item: Item)
      requires Valid()
      modifies team
      ensures Valid()
      ensures team.committed == item.name && team.query == item.name && !team.dropdown
      ensures item.name == old(team.query) ==> team.results == old(team.results) && team.pending == old(team.pending)
      ensures item.name != old(team.query) && IsBlank(item.name) ==> team.results == [] && team.pending == None
      ensures item.name != old(team.query) && !IsBlank(item.name) ==>
        team.results == old(team.results) && team.pending == Some(item.name)
      ensures team.loading == old(team.loading) && team.requests == old(team.requests)
      ensures unchanged(player) && submitted == old(submitted)
    {
      team.Select(item);
    }

    /** Choosing a player leaves the team box alone. */
    method SelectPlayer(item: Item)
      requires Valid()
      modifies player
      ensures Valid()
      ensures player.committed == item.name && player.query == item.name && !player.dropdown
      ensures item.name == old(player.query) ==> player.results == old(player.results) && player.pending == old(player.pending)
      ensures item.name != old(player.query) && IsBlank(item.name) ==> player.results == [] && player.pending == None
      ensures item.name != old(player.query) && !IsBlank(item.name) ==>
        player.results == old(player.results) && player.pending == Some(item.name)
      ensures player.loading == old(player.loading) && player.requests == old(player.requests)
      ensures unchanged(team) && submitted == old(submitted)
    {
      player.Select(item);
    }

    /** A document mousedown. Each box's listener sees a click anywhere but inside that box as
        outside; after submitting, the form is gone, its refs are null and nothing happens. No choice
        is changed. */
    method MouseDown(target: Target)
      requires Valid()
      modifies team, player
      ensures Valid()
      ensures team.committed == old(team.committed) && player.committed == old(player.committed)
      ensures old(submitted) || target == InTeamBox ==> unchanged(team)
      ensures old(submitted) || target == InPlayerBox ==> unchanged(player)
      ensures !old(submitted) && target != InTeamBox ==> !team.dropdown && team.query == old(team.committed)
      ensures !old(submitted) && target != InTeamBox && old(team.committed) == old(team.query) ==>
        team.results == old(team.results) && team.pending == old(team.pending)
      ensures !old(submitted) && target != InTeamBox && old(team.committed) != old(team.query) && IsBlank(old(team.committed)) ==>
        team.results == [] && team.pending == None
      ensures !old(submitted) && target != InTeamBox && old(team.committed) != old(team.query) && !IsBlank(old(team.committed)) ==>
        team.results == old(team.results) && team.pending == Some(old(team.committed))
      ensures team.loading == old(team.loading) && team.requests == old(team.requests)
      ensures !old(submitted) && target != InPlayerBox ==> !player.dropdown && player.query == old(player.committed)
      ensures !old(submitted) && target != InPlayerBox && old(player.committed) == old(player.query) ==>
        player.results == old(player.results) && player.pending == old(player.pending)
      ensures !old(submitted) && target != InPlayerBox && old(player.committed) != old(player.query) && IsBlank(old(player.committed)) ==>
        player.results == [] && player.pending == None
      ensures !old(submitted) && target != InPlayerBox && old(player.committed) != old(player.query) && !IsBlank(old(player.committed)) ==>
        player.results == old(player.results) && player.pending == Some(old(player.committed))
      ensures player.loading == old(player.loading) && player.requests == old(player.requests)
      ensures submitted == old(submitted)
    {
      if submitted {
        return;
      }
      if target != InTeamBox {
        team.ClickOutside();
      }
      if target != InPlayerBox {
        player.ClickOutside();
      }
    }

    /** `handleSubmit`: the page switches to the summary only when both choices are made; otherwise
        nothing changes. */
    method Submit()
      requires Valid()
      modifies this
      ensures Valid()
      ensures submitted == (old(submitted) || (team.committed != "" && player.committed != ""))
      ensures unchanged(team) && unchanged(player)
    {
      if team.committed != "" && player.committed != "" {
        submitted := true;
      }
    }

    /** The Edit button: back to the form, choices kept. */
    method Edit()
      requires Valid()
      modifies this
      ensures Valid()
      ensures !submitted
      ensures unchanged(team) && unchanged(player)
    {
      submitted := false;
    }
  }
}
