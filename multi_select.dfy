/**
 * components/leetcode/MultiSelect.tsx and
 * components/leetcode/CreatableMultiSelect.tsx: a set of checkboxes over the
 * known options plus a text box for new values. Both components hold the
 * same state (`selected` and `customInput`), change it with the same
 * `toggle` and `addCustom`, and list the same `allOptions`; they differ only
 * in how the hidden form field carries the selection (comma-joined here,
 * JSON in the creatable one) and in the `allowCreate` switch.
 */
module MultiSelect {
  import opened Wrappers
  import opened Text
  import opened Seqs
  import opened StrOrder

  /** The state of one select: its props and its two pieces of React state. */
  class Selection {
    const options: seq<string>
    const required: bool
    const allowCreate: bool
    var selected: seq<string>
    var customInput: string
    /** Whether the default value was duplicate-free. */
    ghost const distinctStart: bool

    /** A duplicate-free default value keeps the selection duplicate-free. */
    ghost predicate Valid()
      reads this
    {
      distinctStart ==> Distinct(selected)
    }

    /** The props with their defaults: no default value, not required, creating allowed. */
    constructor (options: seq<string>, defaultValue: Option<seq<string>>, required: Option<bool>, allowCreate: Option<bool>)
      ensures this.options == options && this.required == required.GetOr(false) && this.allowCreate == allowCreate.GetOr(true)
      ensures selected == defaultValue.GetOr([]) && customInput == ""
      ensures distinctStart == Distinct(defaultValue.GetOr([]))
      ensures Valid()
    {
      this.options := options;
      this.required := required.GetOr(false);
      this.allowCreate := allowCreate.GetOr(true);
      selected := defaultValue.GetOr([]);
      customInput := "";
      distinctStart := Distinct(defaultValue.GetOr([]));
    }

    /** Typing into the text box. */
    method SetInput(s: string)
      modifies this
      ensures customInput == s && selected == old(selected)
    {
      customInput := s;
    }

    /**
     * `toggle(value)`: a selected value is removed, the others keeping their
     * order; an unselected one is appended at the end.
     */
    method Toggle(value: string)
      requires Valid()
      modifies this
      ensures Valid()
      ensures selected == Toggled(old(selected), value)
      ensures value in old(selected) ==> value !in selected && forall x :: x != value ==> (x in selected <==> x in old(selected))
      ensures value !in old(selected) ==> selected == old(selected) + [value]
      ensures customInput == old(customInput)
    {
      if distinctStart {
        ToggledDistinct(selected, value);
      }
      forall x | x != value
        ensures x in Toggled(selected, value) <==> x in selected
      {
        ToggledMembers(selected, value, x);
      }
      selected := Toggled(selected, value);
    }

    /**
     * `addCustom()`: the trimmed input is appended and the box cleared,
     * unless it is blank or already selected, in which case nothing changes
     * and the input stays.
     */
    method AddCustom()
      requires Valid()
      modifies this
      ensures Valid()
      ensures var v := Trim(old(customInput));
              if v != "" && v !in old(selected) then selected == old(selected) + [v] && customInput == ""
              else selected == old(selected) && customInput == old(customInput)
      ensures selected != old(selected) ==> !ShowsRequiredError()
    {
      var v := Trim(customInput);
      if v != "" && v !in selected {
        selected := selected + [v];
        customInput := "";
      }
    }

    /** `Array.from(new Set([...options, ...selected])).sort()`: the options and the selection, once each, sorted. */
    function AllOptions(): (r: seq<string>)
      reads this
      ensures StrictlySorted(r)
      ensures forall x :: x in r <==> x in options || x in selected
    {
      SortedUnique(options + selected)
    }

    /** The hidden field of MultiSelect: the selection joined with ",". */
    function HiddenValue(): string
      reads this
    {
      Join(selected, ',')
    }

    /** "请至少选择一项": shown when a selection is required and nothing is selected. */
    predicate ShowsRequiredError()
      reads this
    {
      required && |selected| == 0
    }
  }

  /** The server splits the hidden field on "," and reads back the selection, when no selected value holds a comma. */
  lemma HiddenValueRoundTrip(s: Selection)
    requires s.selected != [] && forall i :: 0 <= i < |s.selected| ==> ',' !in s.selected[i]
    ensures Split(s.HiddenValue(), ',') == s.selected
  {
    SplitJoin(s.selected, ',');
  }

  /** An unselected value toggled twice leaves the selection as it was, in order. */
  lemma ToggleTwiceRestores(s: Selection, value: string)
    requires value !in s.selected
    ensures Toggled(Toggled(s.selected, value), value) == s.selected
  {
    ToggleTwice(s.selected, value);
  }
}
