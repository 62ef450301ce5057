/**
 * The widget browser (`browse.py`): its older result list, which submits
 * at most five lookups per `fetchMore`, and the filter toolbar whose rules
 * become the query criteria.
 */
module Browse {
  import opened Wrappers
  import opened TigerIds
  import opened Presentation

  /** `asset.get('xt', '')` and then `.any()` of it: the record's id, '' when it has none. */
  function XtId(a: Asset): (id: string)
    ensures a.xt.Some? ==> id == a.xt.value
    ensures a.xt.None? ==> !IsTiger(id)
  {
    match a.xt
    case None => ""
    case Some(id) => id
  }

  /** A record without an `xt` attribute is skipped like any other untagged id. */
  lemma NoXtIsSkipped(a: Asset)
    requires a.xt.None?
    ensures SubmissionFor(a, XtId) == []
  {
  }

  /** How many lookups one `fetchMore` submits at most. */
  const BatchSize: int := 5

  class ResultList {
    const source: seq<Asset>              // the sorted records behind `_unfiltered`
    var cursor: nat                       // how far `_unfiltered` has been advanced
    var submitted: seq<Submission<Asset>> // every `bithorde_querier(...)` call, in order
    var posted: seq<Asset>                // records of posted, not yet handled, events
    var items: seq<ViewItem>              // `_list`

    /** The resolver has been asked for exactly the tagged records among those consumed, in order. */
    ghost predicate Valid()
      reads this
    {
      cursor <= |source| && submitted == Submissions(source, cursor, XtId)
    }

    constructor (results: seq<Asset>)
      ensures Valid() && source == results
      ensures cursor == 0 && submitted == [] && posted == [] && items == []
    {
      source := results;
      cursor, submitted, posted, items := 0, [], [], [];
    }

    /**
     * `canFetchMore` returns `bool(self._unfiltered)`; an iterator object is
     * always true, so the view is always told there is more, even after the
     * source has run out.
     */
    function CanFetchMore(): (more: bool)
      ensures more
    {
      true
    }

    /**
     * `fetchMore`: walk the source until five lookups are submitted. The loop
     * guard tests the iterator object, which is always true, so running out
     * of records before the fifth submission ends the call with StopIteration;
     * the submissions made before that stay made.
     */
    method FetchMore() returns (r: Result<(), Exception>)
      requires Valid()
      modifies this`cursor, this`submitted
      ensures Valid()
      ensures var p := Pump(source, old(cursor), BatchSize, XtId);
              && cursor == p.next
              && submitted == old(submitted) + p.sent
              && (r.Err? <==> p.slots > 0)
      ensures |submitted| <= |old(submitted)| + BatchSize
      ensures r.Err? ==> r.error == StopIteration && cursor == |source|
    {
      var i := 0;
      var next, log := cursor, submitted;
      while i < BatchSize
        invariant 0 <= i <= BatchSize
        invariant Resumes(source, XtId, old(cursor), BatchSize, old(submitted), next, BatchSize - i, log)
        decreases |source| - next
      {
        if next == |source| {
          ResumesDone(source, XtId, old(cursor), BatchSize, old(submitted), next, BatchSize - i, log);
          PumpExtendsLog(source, old(cursor), BatchSize, XtId);
          PumpBounds(source, old(cursor), BatchSize, XtId);
          cursor, submitted := next, log;
          return Err(StopIteration);
        }
        var asset := source[next];
        ResumesStep(source, XtId, old(cursor), BatchSize, old(submitted), next, BatchSize - i, log);
        next := next + 1;
        var id := XtId(asset);
        if !IsTiger(id) {
          continue;
        }
        log := log + [Submission(Strip(id), asset)];  // bithorde_querier(id minus the prefix, _queueAppend, asset)
        i := i + 1;
      }
      ResumesDone(source, XtId, old(cursor), BatchSize, old(submitted), next, BatchSize - i, log);
      PumpExtendsLog(source, old(cursor), BatchSize, XtId);
      PumpBounds(source, old(cursor), BatchSize, XtId);
      cursor, submitted := next, log;
      r := Ok(());
    }

    /** `_queueAppend`, the completion callback: post an event carrying the record. */
    method QueueAppend(asset: Asset)
      modifies this`posted
      ensures posted == old(posted) + [asset]
    {
      posted := posted + [asset];
    }

    /** `_append`: the value becomes the new last row; earlier rows stay as they were. */
    method Append(val: ViewItem) returns (pos: nat)
      modifies this`items
      ensures pos == |old(items)| && items == old(items) + [val]
    {
      pos := |items|;
      items := items + [val];
    }

    /**
     * `event`: handle the oldest posted event, presenting its record and
     * appending the result; when no presentation matches, the assertion
     * escapes and nothing is appended.
     */
    method Event() returns (r: Result<nat, Exception>)
      requires posted != []
      modifies this`posted, this`items
      ensures posted == old(posted)[1..]
      ensures var v := Present(old(posted)[0]);
              && (v.Ok? ==> r == Ok(|old(items)|) && items == old(items) + [v.value])
              && (v.Err? ==> r == Err(v.error) && items == old(items))
    {
      var asset := posted[0];
      posted := posted[1..];
      var view := MapToView(asset);
      if view.Err? {
        return Err(view.error);
      }
      var pos := Append(view.value);
      r := Ok(pos);
    }
  }

  /** A filter value: `db.ANY` ("is present") or one listed value. */
  datatype FilterValue = AnyValue | Value(value: string)

  /** What `getRule` returns: the selected key (None for '- filter key -') and value. */
  datatype Rule = Rule(key: Option<string>, value: FilterValue)

  const BlankRule: Rule := Rule(None, AnyValue)

  /** Python's `if k:` on a key: None and the empty string both count as no key. */
  predicate Selected(key: Option<string>)
  {
    key.Some? && key.value != ""
  }

  /** The listed values as value-box entries, in order. */
  function AsValues(vs: seq<string>): seq<FilterValue>
  {
    if vs == [] then [] else AsValues(vs[..|vs| - 1]) + [Value(vs[|vs| - 1])]
  }

  /** Each listed value becomes exactly one entry, at the same position. */
  lemma {:induction false} AsValuesAt(vs: seq<string>)
    ensures |AsValues(vs)| == |vs|
    ensures forall k :: 0 <= k < |vs| ==> AsValues(vs)[k] == Value(vs[k])
  {
    if vs != [] {
      AsValuesAt(vs[..|vs| - 1]);
    }
  }

  /** What the value box offers for a key: "is present" first, then the key's values if a key is selected. */
  function Offered(key: Option<string>, listValues: string -> seq<string>): seq<FilterValue>
  {
    [AnyValue] + if Selected(key) then AsValues(listValues(key.value)) else []
  }

  /**
   * "is present" is always the first choice and is the only one without a
   * selected key; with one, every listed value follows, in order.
   */
  lemma OfferedChoices(key: Option<string>, listValues: string -> seq<string>)
    ensures Offered(key, listValues)[0] == AnyValue
    ensures !Selected(key) ==> Offered(key, listValues) == [AnyValue]
    ensures Selected(key) ==> && |Offered(key, listValues)| == 1 + |listValues(key.value)|
                              && forall k :: 0 <= k < |listValues(key.value)| ==>
                                   Offered(key, listValues)[k + 1] == Value(listValues(key.value)[k])
  {
    if Selected(key) {
      AsValuesAt(listValues(key.value));
    }
  }

  /** The text of the key box's first entry, the one standing for "no key". */
  const Placeholder: string := "- filter key -"

  /** The entries of a key box (their userData): '- filter key -' (no key), then every key. */
  function KeyChoices(keys: seq<string>): seq<Option<string>>
  {
    if keys == [] then [None] else KeyChoices(keys[..|keys| - 1]) + [Some(keys[|keys| - 1])]
  }

  /** Entry 0 selects no key and entry k + 1 selects the k-th key. */
  lemma {:induction false} KeyChoicesAt(keys: seq<string>)
    ensures |KeyChoices(keys)| == |keys| + 1 && KeyChoices(keys)[0] == None
    ensures forall k :: 0 <= k < |keys| ==> KeyChoices(keys)[k + 1] == Some(keys[k])
  {
    if keys != [] {
      KeyChoicesAt(keys[..|keys| - 1]);
    }
  }

  class FilterRule {
    var keyTexts: seq<string>             // the key box's entries (their text)
    var keyChoices: seq<Option<string>>   // the key box's entries (their userData)
    var keyIndex: nat                     // the key box's current index
    var valueChoices: seq<FilterValue>    // the value box's entries
    var valueIndex: nat                   // the value box's current index
    var emitted: nat                      // how often onChanged has been emitted

    /** Both boxes show an entry; the key box's first entry selects no key, every other one its own text. */
    ghost predicate Valid()
      reads this
    {
      && keyIndex < |keyChoices| == |keyTexts| && valueIndex < |valueChoices|
      && keyChoices[0] == None
      && forall i :: 0 < i < |keyChoices| ==> keyChoices[i] == Some(keyTexts[i])
    }

    /** A new rule selects no key and "is present". */
    constructor (keys: seq<string>)
      ensures Valid() && keyChoices == KeyChoices(keys) && keyTexts == [Placeholder] + keys
      ensures valueChoices == [AnyValue] && valueIndex == 0
      ensures GetRule() == BlankRule && emitted == 0
    {
      keyTexts := [Placeholder];
      keyChoices := [None];
      keyIndex := 0;
      valueChoices := [AnyValue];
      valueIndex := 0;
      emitted := 0;
      new;
      for j := 0 to |keys|
        invariant keyChoices == KeyChoices(keys[..j]) && keyTexts == [Placeholder] + keys[..j]
        invariant keyIndex == 0 && |keyChoices| == j + 1 && keyChoices[0] == None && emitted == 0
        invariant forall i :: 0 < i < |keyChoices| ==> keyChoices[i] == Some(keyTexts[i])
        invariant valueChoices == [AnyValue] && valueIndex == 0
      {
        assert keys[..j + 1] == keys[..j] + [keys[j]];
        keyTexts := keyTexts + [keys[j]];
        keyChoices := keyChoices + [Some(keys[j])];
      }
      assert keys[..|keys|] == keys;
      PopulateValuesForKey(None, _ => []);
    }

    /**
     * `populateValuesForKey`: refill the value box with "is present" and,
     * when a key is selected, the values `db.list_values(key)` gives; the
     * box then shows "is present".
     */
    method PopulateValuesForKey(key: Option<string>, listValues: string -> seq<string>)
      requires Valid()
      modifies this`valueChoices, this`valueIndex
      ensures Valid()
      ensures valueChoices == Offered(key, listValues)
      ensures GetRule().value == AnyValue && GetRule().key == old(GetKey())
    {
      valueChoices := [AnyValue];
      valueIndex := 0;
      if Selected(key) {
        var vs := listValues(key.value);
        for j := 0 to |vs|
          invariant valueChoices == [AnyValue] + AsValues(vs[..j]) && valueIndex == 0
        {
          assert vs[..j + 1][..j] == vs[..j];
          valueChoices := valueChoices + [Value(vs[j])];
        }
        assert vs[..|vs|] == vs;
      }
    }

    /** `getKey`: the userData of the key box's current entry: no key for the placeholder, else the entry's text. */
    function GetKey(): (key: Option<string>)
      reads this
      requires Valid()
      ensures key.None? <==> keyIndex == 0
      ensures key.Some? ==> key.value == keyTexts[keyIndex]
    {
      keyChoices[keyIndex]
    }

    /** `getRule`: the current key and the current value, which is one the value box offers. */
    function GetRule(): (rule: Rule)
      reads this
      requires Valid()
      ensures rule.key.None? <==> keyIndex == 0
      ensures rule.key.Some? ==> rule.key.value == keyTexts[keyIndex]
      ensures rule.value in valueChoices
    {
      Rule(GetKey(), valueChoices[valueIndex])
    }

    /**
     * `onKeyChanged`: the user picks key entry `index`. The handler gets the
     * entry's text, refills the value box for it and emits onChanged. The
     * text of the placeholder entry is not empty, so its values are listed too,
     * while the rule itself still selects no key.
     */
    method OnKeyChanged(index: nat, listValues: string -> seq<string>)
      requires Valid() && index < |keyChoices|
      modifies this`keyIndex, this`valueChoices, this`valueIndex, this`emitted
      ensures Valid() && keyIndex == index
      ensures valueChoices == Offered(Some(keyTexts[index]), listValues)
      ensures GetRule() == Rule(keyChoices[index], AnyValue)
      ensures emitted == old(emitted) + 1
    {
      keyIndex := index;
      PopulateValuesForKey(Some(keyTexts[index]), listValues);
      emitted := emitted + 1;
    }
  }

  /** Reference fold of `criteria()`: rule by rule, a selected key is set to its value. */
  function CriteriaOf(rules: seq<Rule>): map<string, FilterValue>
  {
    if rules == [] then map[]
    else
      var last := rules[|rules| - 1];
      var res := CriteriaOf(rules[..|rules| - 1]);
      if Selected(last.key) then res[last.key.value := last.value] else res
  }

  /** The criteria hold exactly the keys some rule selects. */
  lemma {:induction false} CriteriaKeys(rules: seq<Rule>, k: string)
    ensures k in CriteriaOf(rules) <==> exists i :: 0 <= i < |rules| && rules[i].key == Some(k) && k != ""
  {
    if rules != [] {
      var init := rules[..|rules| - 1];
      CriteriaKeys(init, k);
      if exists i :: 0 <= i < |rules| && rules[i].key == Some(k) && k != "" {
        var i :| 0 <= i < |rules| && rules[i].key == Some(k) && k != "";
        if i < |rules| - 1 {
          assert init[i] == rules[i];
        }
      }
      if exists i :: 0 <= i < |init| && init[i].key == Some(k) && k != "" {
        var i :| 0 <= i < |init| && init[i].key == Some(k) && k != "";
        assert rules[i] == init[i];
      }
    }
  }

  /** A key maps to the value of the LAST rule that selects it: later rules win. */
  lemma {:induction false} CriteriaLaterWins(rules: seq<Rule>, i: nat)
    requires i < |rules| && Selected(rules[i].key)
    requires forall j :: i < j < |rules| ==> rules[j].key != rules[i].key
    ensures rules[i].key.value in CriteriaOf(rules)
    ensures CriteriaOf(rules)[rules[i].key.value] == rules[i].value
  {
    var init := rules[..|rules| - 1];
    if i < |rules| - 1 {
      forall j | i < j < |init| ensures init[j].key != init[i].key {
        assert init[j] == rules[j];
      }
      CriteriaLaterWins(init, i);
    }
  }

  /** How many rules have no selected key. */
  function BlankCount(rules: seq<Rule>): nat
  {
    if rules == [] then 0
    else BlankCount(rules[..|rules| - 1]) + if Selected(rules[|rules| - 1].key) then 0 else 1
  }

  /** No blank rule means every rule selects a key. */
  lemma {:induction false} NoBlankMeansAllSelected(rules: seq<Rule>)
    ensures BlankCount(rules) == 0 <==> forall i :: 0 <= i < |rules| ==> Selected(rules[i].key)
  {
    if rules != [] {
      var init := rules[..|rules| - 1];
      NoBlankMeansAllSelected(init);
      assert forall i :: 0 <= i < |init| ==> init[i] == rules[i];
    }
  }

  /** `_onRuleChanged` on the rules: a blank rule is added when none is blank. */
  function AfterRuleChanged(rules: seq<Rule>): (after: seq<Rule>)
    ensures |rules| <= |after| <= |rules| + 1 && after[..|rules|] == rules
  {
    if BlankCount(rules) == 0 then rules + [BlankRule] else rules
  }

  /**
   * After a change at least one rule is blank, and a rule is added exactly
   * when every rule selected a key.
   */
  lemma AfterRuleChangedKeepsABlank(rules: seq<Rule>)
    ensures BlankCount(AfterRuleChanged(rules)) >= 1
    ensures |AfterRuleChanged(rules)| == |rules| + 1 <==> forall i :: 0 <= i < |rules| ==> Selected(rules[i].key)
  {
    NoBlankMeansAllSelected(rules);
  }

  /**
   * Blank rules are never removed, so more than one can pile up: select a key
   * in the only rule, then one in the rule added for it, then clear the first.
   */
  lemma BlanksAccumulate()
    ensures var r1 := AfterRuleChanged([Rule(Some("genre"), AnyValue)]);
            var r2 := AfterRuleChanged(r1[1 := Rule(Some("year"), AnyValue)]);
            var r3 := AfterRuleChanged(r2[0 := BlankRule]);
            r3 == [BlankRule, Rule(Some("year"), AnyValue), BlankRule] && BlankCount(r3) == 2
  {
    var genre, year := Rule(Some("genre"), AnyValue), Rule(Some("year"), AnyValue);
    assert BlankCount([genre]) == 0 by { assert [genre][..0] == []; }
    var r1 := [genre, BlankRule];
    var r2 := [genre, year, BlankRule];
    assert r1[1 := year] == [genre, year];
    assert BlankCount([genre, year]) == 0 by { assert [genre, year][..1] == [genre]; }
    assert r2[0 := BlankRule] == [BlankRule, year, BlankRule];
    var r3 := [BlankRule, year, BlankRule];
    assert BlankCount([BlankRule]) == 1 by { assert [BlankRule][..0] == []; }
    assert BlankCount([BlankRule, year]) == 1 by { assert [BlankRule, year][..1] == [BlankRule]; }
    assert r3[..2] == [BlankRule, year];
  }

  class FilterList {
    var rules: seq<Rule>        // the FilterRule children, in creation order, by their current rule
    var changeSignals: nat      // how often onChanged has been emitted

    /** `__init__` adds one filter rule. */
    constructor ()
      ensures rules == [BlankRule] && changeSignals == 0
    {
      rules := [BlankRule];
      changeSignals := 0;
    }

    /** `addFilter`: a new, blank rule at the end. */
    method AddFilter()
      modifies this`rules
      ensures rules == old(rules) + [BlankRule]
    {
      rules := rules + [BlankRule];
    }

    /** `criteria()`: the loop that builds the key-to-value map. */
    method Criteria() returns (res: map<string, FilterValue>)
      ensures res == CriteriaOf(rules)
    {
      res := map[];
      for j := 0 to |rules|
        invariant res == CriteriaOf(rules[..j])
      {
        assert rules[..j + 1][..j] == rules[..j];
        var rule := rules[j];
        if Selected(rule.key) {
          res := res[rule.key.value := rule.value];
        }
      }
      assert rules[..|rules|] == rules;
    }

    /** The counting loop of `_onRuleChanged`. */
    method CountBlank() returns (empty: nat)
      ensures empty == BlankCount(rules)
    {
      empty := 0;
      for j := 0 to |rules|
        invariant empty == BlankCount(rules[..j])
      {
        assert rules[..j + 1][..j] == rules[..j];
        if !Selected(rules[j].key) {
          empty := empty + 1;
        }
      }
      assert rules[..|rules|] == rules;
    }

    /** `_onRuleChanged`: add a blank rule when none is blank, then emit onChanged. */
    method OnRuleChanged()
      modifies this
      ensures rules == AfterRuleChanged(old(rules))
      ensures changeSignals == old(changeSignals) + 1
    {
      var empty := CountBlank();
      if empty == 0 {
        AddFilter();
      }
      changeSignals := changeSignals + 1;
    }

    /** A rule's boxes change (its onChanged fires), which runs `_onRuleChanged`. */
    method RuleEdited(i: nat, rule: Rule)
      requires i < |rules|
      modifies this
      ensures rules == AfterRuleChanged(old(rules)[i := rule])
      ensures changeSignals == old(changeSignals) + 1
    {
      rules := rules[i := rule];
      OnRuleChanged();
    }
  }
}
