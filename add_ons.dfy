/** The bookkeeping inside the add-ons screen: the running total of selected
    add-ons, the label of the continue button, and the shipping-country picker. */
module AddOns {
  import opened Streams
  import opened Strings
  import opened LinkedMaps
  import opened ShippingRules

  const DefaultCountry: string := "United States"

  /** An add-on reward, compared by value as the map keys are. */
  datatype AddOn = AddOn(id: int, title: Option<string>, limit: Option<int>)

  // ---------------------------------------------------------------------------
  // The continue button.

  datatype PluralForm = One | Many

  /** The button text: the skip label, a quantity label formatted with the count,
      or the empty text when no string formatter is available. */
  datatype Label = SkipAddOns | ContinueWithQuantity(form: PluralForm, quantityCount: int) | Blank

  /** The text of the continue button for `addOnCount` selected add-ons;
      `hasKsString` tells whether the environment provides a formatter. */
  function ButtonLabel(addOnCount: int, hasKsString: bool): (l: Label)
    ensures l == SkipAddOns <==> addOnCount <= 0
    ensures addOnCount == 1 && hasKsString ==> l == ContinueWithQuantity(One, 1)
    ensures addOnCount > 1 && hasKsString ==> l == ContinueWithQuantity(Many, addOnCount)
    ensures addOnCount > 0 && !hasKsString ==> l == Blank
    ensures l.ContinueWithQuantity? ==> l.quantityCount == addOnCount
  {
    if addOnCount == 0 then SkipAddOns
    else if addOnCount == 1 then (if hasKsString then ContinueWithQuantity(One, addOnCount) else Blank)
    else if addOnCount > 1 then (if hasKsString then ContinueWithQuantity(Many, addOnCount) else Blank)
    else SkipAddOns
  }

  // ---------------------------------------------------------------------------
  // The total of the selections.

  function Sum(s: seq<int>): int {
    if s == [] then 0 else Sum(s[..|s| - 1]) + s[|s| - 1]
  }

  lemma SumSnoc(s: seq<int>, v: int)
    ensures Sum(s + [v]) == Sum(s) + v
  {
    assert (s + [v])[..|s|] == s;
  }

  /** Replacing one element changes the sum by the difference. */
  lemma {:induction false} SumUpdate(s: seq<int>, i: nat, v: int)
    requires i < |s|
    ensures Sum(s[i := v]) == Sum(s) - s[i] + v
    decreases |s|
  {
    var t := s[i := v];
    var n := |s| - 1;
    if i == n {
      assert t[..n] == s[..n];
    } else {
      assert t[..n] == s[..n][i := v];
      SumUpdate(s[..n], i, v);
    }
  }

  /** What one `rewardSelections[reward] = count` does to the total: the entry of
      `reward` is replaced, not added to. */
  lemma PutSum(m: LinkedMap<AddOn, int>, k: AddOn, v: int)
    requires LinkedMaps.Valid(m)
    ensures Sum(Values(Put(m, k, v))) == Sum(Values(m)) - (if k in m.entries then m.entries[k] else 0) + v
  {
    PutValues(m, k, v);
    if k in m.entries {
      SumUpdate(Values(m), IndexOf(m.keys, k), v);
    } else {
      SumSnoc(Values(m), v);
    }
  }

  /** The `forEach` that recounts the total. */
  method Total(values: seq<int>) returns (totalRewardsCount: int)
    ensures totalRewardsCount == Sum(values)
  {
    totalRewardsCount := 0;
    var i := 0;
    while i < |values|
      invariant 0 <= i <= |values|
      invariant totalRewardsCount == Sum(values[..i])
    {
      assert values[..i + 1] == values[..i] + [values[i]];
      SumSnoc(values[..i], values[i]);
      totalRewardsCount := totalRewardsCount + values[i];
      i := i + 1;
    }
    assert values[..i] == values;
  }

  // ---------------------------------------------------------------------------
  // The country picker.

  /** The name a shipping rule is listed under, when it has one. */
  function DisplayableName(rule: ShippingRule): (n: Option<string>)
    ensures n.Some? <==> rule.location.Some? && rule.location.value.displayableName.Some?
    ensures n.Some? ==> n.value == rule.location.value.displayableName.value
  {
    match rule.location
    case None => None
    case Some(l) => l.displayableName
  }

  /** `location()?.displayableName()?.lowercase()?.contains(input.lowercase()) ?: false` */
  function NameMatches(input: string): ShippingRule -> bool {
    rule => DisplayableName(rule).Some? && ContainsIgnoringCase(DisplayableName(rule).value, input)
  }

  /** The countries listed under the input: every rule for an empty input,
      otherwise the named rules whose name contains the input, ignoring case. */
  function ShownCountries(countryList: seq<ShippingRule>, countryInput: string): (r: seq<ShippingRule>)
    ensures countryInput == [] ==> r == countryList
    ensures countryInput != [] ==> forall x :: x in r <==>
              && x in countryList
              && DisplayableName(x).Some?
              && ContainsSpec(Lower(DisplayableName(x).value), Lower(countryInput))
  {
    if countryInput != [] then Filter(NameMatches(countryInput), countryList) else countryList
  }

  /** Only an empty input lists the rules without a name: for any other input
      they are left out. */
  lemma UnnamedOnlyForEmptyInput(countryList: seq<ShippingRule>, countryInput: string, rule: ShippingRule)
    requires rule in countryList && DisplayableName(rule).None?
    ensures rule in ShownCountries(countryList, countryInput) <==> countryInput == []
  {
  }

  /** The input is matched regardless of case. */
  lemma ShownCountriesIgnoreCase(countryList: seq<ShippingRule>, a: string, b: string)
    requires a != [] && Lower(a) == Lower(b)
    ensures ShownCountries(countryList, a) == ShownCountries(countryList, b)
  {
    assert |b| == |a|;
    FilterAgrees(NameMatches(a), NameMatches(b), countryList);
  }

  /** One composition of the screen, with its remembered state. */
  class AddOnsScreen {
    const countryList: seq<ShippingRule>
    /** Whether the environment provides a string formatter. */
    const hasKsString: bool

    var countryInput: string
    var countryListExpanded: bool
    var addOnCount: int
    var rewardSelections: LinkedMap<AddOn, int>

    /** The calls made to `onShippingRuleSelected` and `onItemAddedOrRemoved`. */
    var selectedRules: seq<ShippingRule>
    var reportedSelections: seq<LinkedMap<AddOn, int>>

    /** The add-on count is the total of the selections. */
    ghost predicate Valid()
      reads this
    {
      LinkedMaps.Valid(rewardSelections) && addOnCount == Sum(Values(rewardSelections))
    }

    /** The countries on screen: none while the list is collapsed. */
    function VisibleCountries(): (r: seq<ShippingRule>)
      reads this
      ensures !countryListExpanded ==> r == []
      ensures countryListExpanded ==> r == ShownCountries(countryList, countryInput)
    {
      if countryListExpanded then ShownCountries(countryList, countryInput) else []
    }

    /** The continue button's current text. */
    function ContinueLabel(): (l: Label)
      reads this
      ensures l == SkipAddOns <==> addOnCount <= 0
    {
      ButtonLabel(addOnCount, hasKsString)
    }

    constructor (countryList: seq<ShippingRule>, hasKsString: bool, initialCountryInput: Option<string>)
      ensures Valid()
      ensures this.countryList == countryList && this.hasKsString == hasKsString
      ensures countryInput == initialCountryInput.GetOr(DefaultCountry)
      ensures !countryListExpanded && addOnCount == 0 && rewardSelections == Empty()
      ensures selectedRules == [] && reportedSelections == []
    {
      this.countryList := countryList;
      this.hasKsString := hasKsString;
      countryInput := initialCountryInput.GetOr(DefaultCountry);
      countryListExpanded := false;
      addOnCount := 0;
      rewardSelections := Empty();
      selectedRules, reportedSelections := [], [];
    }

    /** Typing into the country field shows the list. */
    method CountryInputChanged(text: string)
      requires Valid()
      modifies this`countryInput, this`countryListExpanded
      ensures Valid()
      ensures countryInput == text && countryListExpanded
    {
      countryInput := text;
      countryListExpanded := true;
    }

    /** Clicking outside the field hides the list. */
    method OutsideClicked()
      requires Valid()
      modifies this`countryListExpanded
      ensures Valid()
      ensures !countryListExpanded
    {
      countryListExpanded := false;
    }

    /** Choosing a listed country puts its name in the field, hides the list and
        reports the rule. */
    method CountrySelected(rule: ShippingRule)
      requires Valid()
      requires rule in VisibleCountries()
      modifies this`countryInput, this`countryListExpanded, this`selectedRules
      ensures Valid()
      ensures countryInput == DisplayableName(rule).GetOr("")
      ensures !countryListExpanded
      ensures selectedRules == old(selectedRules) + [rule]
    {
      countryInput := DisplayableName(rule).GetOr("");
      countryListExpanded := false;
      selectedRules := selectedRules + [rule];
    }

    /** `onItemAddedOrRemoved(count)` for `reward`: the selection is recorded, the
        total is recounted over every selection, and the selections are reported. */
    method ItemAddedOrRemoved(reward: AddOn, count: int)
      requires Valid()
      modifies this`rewardSelections, this`addOnCount, this`reportedSelections
      ensures Valid()
      ensures rewardSelections == Put(old(rewardSelections), reward, count)
      ensures addOnCount == Sum(Values(rewardSelections))
      ensures addOnCount == old(addOnCount)
                - (if reward in old(rewardSelections).entries then old(rewardSelections).entries[reward] else 0) + count
      ensures reportedSelections == old(reportedSelections) + [rewardSelections]
    {
      PutSum(rewardSelections, reward, count);
      rewardSelections := Put(rewardSelections, reward, count);
      addOnCount := Total(Values(rewardSelections));
      reportedSelections := reportedSelections + [rewardSelections];
    }
  }
}
