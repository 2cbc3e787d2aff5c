/** The location chips and the sort menu of the filter panel (src/components/SearchFilters.tsx).
    The panel owns only the text being typed; the filter values belong to the page, so a handler's
    effect on them is the `FilterChange` it emits through `onFilterChange`. */
module SearchFilters {
  import opened Wrappers
  import opened Text
  import opened Seqs

  /** The `(name, value)` pair passed to `onFilterChange`. */
  datatype FilterChange = FilterChange(name: string, value: string)

  /** `filters.location ? filters.location.split(',').filter(Boolean) : []`: the chips shown. */
  function Locations(location: string): (r: seq<string>)
    ensures forall k :: 0 <= k < |r| ==> r[k] != "" && ',' !in r[k]
    ensures location == "" ==> r == []
  {
    if location != "" then SplitNonEmpty(location, ',') else []
  }

  /** The value emitted when Enter adds the chip typed in `input`: `[...locations, input.trim()].join(',')`. */
  function AddedLocation(location: string, input: string): string {
    Join(Locations(location) + [Trim(input)], ',')
  }

  /** Whether a chip differs from the one being removed: `loc !== locationToRemove`. */
  function Other(toRemove: string): string -> bool {
    loc => loc != toRemove
  }

  /** The chips left once `toRemove` is removed, in their order. */
  function RemainingLocations(location: string, toRemove: string): seq<string> {
    Filter(Locations(location), Other(toRemove))
  }

  /** The value emitted by `removeLocation(toRemove)`. */
  function RemovedLocation(location: string, toRemove: string): string {
    Join(RemainingLocations(location, toRemove), ',')
  }

  /** `handleLocationKeyDown` acts only on Enter with an input that is not blank. */
  predicate Adds(key: string, input: string) {
    key == "Enter" && Trim(input) != ""
  }

  /** The text typed into the location box (`locationInput`). */
  class LocationBox {
    var locationInput: string

    /** `useState('')`. */
    constructor ()
      ensures locationInput == ""
    {
      locationInput := "";
    }

    /** `onChange`: the box holds what was typed. */
    method SetLocationInput(value: string)
      modifies this
      ensures locationInput == value
    {
      locationInput := value;
    }

    /** `handleLocationKeyDown`: on Enter with a non-blank input, emits the chips with the trimmed
        input appended and clears the box; otherwise emits nothing and leaves the box alone. */
    method HandleLocationKeyDown(key: string, location: string) returns (change: Option<FilterChange>)
      modifies this
      ensures Adds(key, old(locationInput)) ==>
                change == Some(FilterChange("location", AddedLocation(location, old(locationInput))))
                && locationInput == ""
      ensures !Adds(key, old(locationInput)) ==> change == None && locationInput == old(locationInput)
    {
      if key == "Enter" && Trim(locationInput) != "" {
        var newLocations := Locations(location) + [Trim(locationInput)];
        change := Some(FilterChange("location", Join(newLocations, ',')));
        locationInput := "";
      } else {
        change := None;
      }
    }

    /** `removeLocation`: emits the chips without `toRemove`; the box is untouched. */
    method RemoveLocation(location: string, toRemove: string) returns (change: FilterChange)
      ensures change == FilterChange("location", RemovedLocation(location, toRemove))
    {
      var newLocations := Filter(Locations(location), Other(toRemove));
      change := FilterChange("location", Join(newLocations, ','));
    }
  }

  /** The `value`s of the sort menu, in menu order. */
  const SortOptions: seq<string> := ["followers", "repositories", "joined", "stars", "active", "inactive"]

  // ---------------------------------------------------------------- round trips

  /** Trimming takes a slice, so it adds no character. */
  lemma TrimKeepsAbsent(s: string, c: char)
    requires c !in s
    ensures c !in Trim(s)
  {
    var i, j :| 0 <= i <= j <= |s| && Trim(s) == s[i..j];
    assert forall k :: 0 <= k < j - i ==> s[i..j][k] == s[i + k];
  }

  /** A list of non-empty, comma-free chips joined with commas parses back to itself. */
  lemma Reparse(xs: seq<string>)
    requires forall k :: 0 <= k < |xs| ==> xs[k] != "" && ',' !in xs[k]
    ensures Locations(Join(xs, ',')) == xs
  {
    if |xs| == 0 {
    } else {
      SplitJoin(xs, ',');
      FilterKeepsAll(xs, NonEmpty);
      assert SplitNonEmpty(Join(xs, ','), ',') == xs;
      assert SplitNonEmpty("", ',') == [];
    }
  }

  /** Adding a chip without a comma shows the old chips with the trimmed input appended. */
  lemma AddThenParse(location: string, input: string)
    requires Trim(input) != "" && ',' !in input
    ensures Locations(AddedLocation(location, input)) == Locations(location) + [Trim(input)]
  {
    TrimKeepsAbsent(input, ',');
    var xs := Locations(location) + [Trim(input)];
    assert forall k :: 0 <= k < |xs| ==> xs[k] != "" && ',' !in xs[k];
    Reparse(xs);
  }

  /** Removing a chip shows the other chips, in order, each as often as before, and not the removed one. */
  lemma RemoveThenParse(location: string, toRemove: string)
    ensures var r := Locations(RemovedLocation(location, toRemove));
      && IsSubsequence(r, Locations(location))
      && toRemove !in r
      && forall y :: y != toRemove ==> multiset(r)[y] == multiset(Locations(location))[y]
  {
    var rest := RemainingLocations(location, toRemove);
    assert forall k :: 0 <= k < |rest| ==> rest[k] != "" && ',' !in rest[k];
    Reparse(rest);
    forall y | y != toRemove ensures multiset(rest)[y] == multiset(Locations(location))[y] {
      FilterCount(Locations(location), Other(toRemove), y);
    }
  }

  /** Removing a chip that was just added, and was not there before, restores the chips. */
  lemma AddThenRemove(location: string, input: string)
    requires Trim(input) != "" && ',' !in input && Trim(input) !in Locations(location)
    ensures Locations(RemovedLocation(AddedLocation(location, input), Trim(input))) == Locations(location)
  {
    var old_ := Locations(location);
    var t := Trim(input);
    AddThenParse(location, input);
    FilterAppend(old_, [t], Other(t));
    FilterKeepsAll(old_, Other(t));
    assert Filter([t], Other(t)) == [];
    assert RemainingLocations(AddedLocation(location, input), t) == old_;
    Reparse(old_);
  }
}
