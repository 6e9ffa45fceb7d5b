/**
 * The fully-controlled Autocomplete demo: the application owns the selected
 * key, the input text and the visible items, and recomputes all three in
 * three updater functions over a fixed registry of thirteen animals.
 */
module FullyControlled {
  import opened Wrappers
  import opened PrefixFilter

  /** One registry entry. */
  datatype Animal = Animal(text: string, key: string, description: string)

  /**
   * The state the application keeps. `selectedKey` is `React.Key | null`;
   * `None` stands for `null`.
   */
  datatype FieldState = FieldState(selectedKey: Option<string>, inputValue: string, items: seq<Animal>)

  /** How the menu was asked to open. */
  datatype MenuTriggerAction = Focus | Input | Manual

  /** The fixed registry, in display order. */
  const Animals: seq<Animal> := [
    Animal("Cat", "cat", "The second most popular pet in the world"),
    Animal("Dog", "dog", "The most popular pet in the world"),
    Animal("Elephant", "elephant", "The largest land animal"),
    Animal("Lion", "lion", "The king of the jungle"),
    Animal("Tiger", "tiger", "The largest cat species"),
    Animal("Giraffe", "giraffe", "The tallest land animal"),
    Animal("Dolphin", "dolphin", "A widely distributed and diverse group of aquatic mammals"),
    Animal("Penguin", "penguin", "A group of aquatic flightless birds"),
    Animal("Zebra", "zebra", "A several species of African equids"),
    Animal("Shark", "shark", "A group of elasmobranch fish characterized by a cartilaginous skeleton"),
    Animal("Whale", "whale", "Diverse group of fully aquatic placental marine mammals"),
    Animal("Otter", "otter", "A carnivorous mammal in the subfamily Lutrinae"),
    Animal("Crocodile", "crocodile", "A large semiaquatic reptile")
  ]

  // ---------------------------------------------------------------------
  // Registry helpers: keys, subsequences, `find` and prefix `filter`
  // ---------------------------------------------------------------------

  /** No two entries share a key. */
  ghost predicate UniqueKeys(s: seq<Animal>)
  {
    forall i, j :: 0 <= i < j < |s| ==> s[i].key != s[j].key
  }

  /** `a` is an order-preserving subsequence of `b`. */
  ghost predicate IsSubsequence(a: seq<Animal>, b: seq<Animal>)
    decreases |b|
  {
    if a == [] then true
    else if b == [] then false
    else if a[0] == b[0] then IsSubsequence(a[1..], b[1..])
    else IsSubsequence(a, b[1..])
  }

  /** `items.find(option => option.key === key)`: the first entry whose key is `key`. */
  function FindByKey(items: seq<Animal>, key: Option<string>): (r: Option<Animal>)
    ensures r.Some? ==> r.value in items && key == Some(r.value.key)
    ensures r.Some? ==>
      (exists i :: 0 <= i < |items| && items[i] == r.value
         && forall j :: 0 <= j < i ==> key != Some(items[j].key))
    ensures r.None? ==> forall a :: a in items ==> key != Some(a.key)
  {
    if items == [] then None
    else if key == Some(items[0].key) then Some(items[0])
    else
      var r := FindByKey(items[1..], key);
      assert r.Some? ==>
        (exists i :: 1 <= i < |items| && items[i] == r.value
           && forall j :: 0 <= j < i ==> key != Some(items[j].key)) by {
        if r.Some? {
          var i :| 0 <= i < |items[1..]| && items[1..][i] == r.value
            && forall j :: 0 <= j < i ==> key != Some(items[1..][j].key);
          assert forall j :: 0 <= j < i + 1 ==> key != Some(items[j].key) by {
            forall j | 0 <= j < i + 1 ensures key != Some(items[j].key) {
              if j > 0 { assert items[j] == items[1..][j - 1]; }
            }
          }
        }
      }
      r
  }

  /** `items.filter(item => startsWith(item.label, query))`. */
  function FilterByPrefix(items: seq<Animal>, query: string): (r: seq<Animal>)
    ensures |r| <= |items|
    ensures forall a :: a in r ==> a in items && StartsWith(a.text, query)
  {
    if items == [] then []
    else if StartsWith(items[0].text, query) then [items[0]] + FilterByPrefix(items[1..], query)
    else FilterByPrefix(items[1..], query)
  }

  // ---------------------------------------------------------------------
  // The three updaters and the initial state
  // ---------------------------------------------------------------------

  /** The state the component starts with. */
  function Initial(): (s: FieldState)
    ensures s.selectedKey == Some("") && s.inputValue == "" && s.items == Animals
  {
    FieldState(Some(""), "", Animals)
  }

  /**
   * `onSelectionChange(key)`: look the key up among the CURRENT items; take
   * its label (or `""`) as the new text, and filter the registry by it.
   */
  function OnSelectionChange(prev: FieldState, key: Option<string>): (s: FieldState)
    ensures s.selectedKey == key
    ensures forall a :: a in s.items ==> a in Animals && StartsWith(a.text, s.inputValue)
    ensures FindByKey(prev.items, key).None? ==> s.inputValue == ""
    ensures FindByKey(prev.items, key).Some? ==> s.inputValue == FindByKey(prev.items, key).value.text
  {
    var selectedItem := FindByKey(prev.items, key);
    var text := if selectedItem.Some? then selectedItem.value.text else "";
    FieldState(key, text, FilterByPrefix(Animals, text))
  }

  /**
   * `onInputChange(value)`: take the text, clear the selection only when the
   * text becomes empty, and filter the registry by the text.
   */
  function OnInputChange(prev: FieldState, value: string): (s: FieldState)
    ensures s.inputValue == value
    ensures s.selectedKey == (if value == "" then None else prev.selectedKey)
    ensures forall a :: a in s.items ==> a in Animals && StartsWith(a.text, value)
  {
    FieldState(if value == "" then None else prev.selectedKey, value, FilterByPrefix(Animals, value))
  }

  /** `onOpenChange(isOpen, trigger)`: opening the menu by hand shows the whole registry. */
  function OnOpenChange(prev: FieldState, isOpen: bool, trigger: MenuTriggerAction): (s: FieldState)
    ensures s.inputValue == prev.inputValue && s.selectedKey == prev.selectedKey
    ensures isOpen && trigger == Manual ==> s.items == Animals
    ensures !(isOpen && trigger == Manual) ==> s == prev
  {
    if trigger == Manual && isOpen then FieldState(prev.selectedKey, prev.inputValue, Animals) else prev
  }

  /** One user event as the Autocomplete reports it. */
  datatype Event =
    | SelectionChange(key: Option<string>)
    | InputChange(value: string)
    | OpenChange(isOpen: bool, trigger: MenuTriggerAction)

  /** Apply one event's updater. */
  function Step(s: FieldState, e: Event): FieldState
  {
    match e
    case SelectionChange(k) => OnSelectionChange(s, k)
    case InputChange(v) => OnInputChange(s, v)
    case OpenChange(o, t) => OnOpenChange(s, o, t)
  }

  /** Apply a sequence of events, in order. */
  function Run(s: FieldState, events: seq<Event>): FieldState
    decreases |events|
  {
    if events == [] then s else Run(Step(s, events[0]), events[1..])
  }

  // ---------------------------------------------------------------------
  // Properties
  // ---------------------------------------------------------------------

  /** The visible items are the registry filtered by the current text, or the whole registry. */
  ghost predicate Consistent(s: FieldState)
  {
    s.items == FilterByPrefix(Animals, s.inputValue) || s.items == Animals
  }

  /** The registry's keys are distinct. */
  lemma AnimalsHaveUniqueKeys()
    ensures UniqueKeys(Animals)
  {
    forall i, j | 0 <= i < j < |Animals| ensures Animals[i].key != Animals[j].key {
      assert Animals[i].key[0] != Animals[j].key[0] || |Animals[i].key| != |Animals[j].key|;
    }
  }

  /** Filtering keeps exactly the matching entries, in their original order. */
  lemma {:induction false} FilterIsExact(items: seq<Animal>, query: string)
    ensures IsSubsequence(FilterByPrefix(items, query), items)
    ensures forall i :: 0 <= i < |items| && StartsWith(items[i].text, query) ==> items[i] in FilterByPrefix(items, query)
    ensures forall a :: a in items && StartsWith(a.text, query) ==>
      multiset(FilterByPrefix(items, query))[a] == multiset(items)[a]
  {
    if items != [] {
      FilterIsExact(items[1..], query);
      var r := FilterByPrefix(items, query);
      if StartsWith(items[0].text, query) {
        assert r[0] == items[0] && r[1..] == FilterByPrefix(items[1..], query);
      } else {
        SubsequenceOfTail(r, items);
      }
      forall i | 0 <= i < |items| && StartsWith(items[i].text, query) ensures items[i] in r {
        if i > 0 {
          assert items[i] == items[1..][i - 1];
        }
      }
      assert items == [items[0]] + items[1..];
      if StartsWith(items[0].text, query) {
        assert r == [items[0]] + FilterByPrefix(items[1..], query);
      }
    }
  }

  /** A subsequence of the tail is a subsequence of the whole. */
  lemma {:induction false} SubsequenceOfTail(a: seq<Animal>, b: seq<Animal>)
    requires b != []
    requires IsSubsequence(a, b[1..])
    ensures IsSubsequence(a, b)
    decreases |b|, 0
  {
    if a != [] && a[0] == b[0] {
      SubsequenceDropHead(a, b[1..]);
    }
  }

  /** Dropping the first element of a subsequence keeps it a subsequence. */
  lemma {:induction false} SubsequenceDropHead(a: seq<Animal>, b: seq<Animal>)
    requires a != []
    requires IsSubsequence(a, b)
    ensures IsSubsequence(a[1..], b)
    decreases |b|, 1
  {
    assert b != [];
    if a[0] == b[0] {
      if a[1..] != [] {
        SubsequenceOfTail(a[1..], b);
      }
    } else {
      SubsequenceDropHead(a, b[1..]);
      if a[1..] != [] {
        SubsequenceOfTail(a[1..], b);
      }
    }
  }

  /** Filtering by the empty text gives back the list unchanged. */
  lemma {:induction false} FilterByEmptyIsIdentity(items: seq<Animal>)
    ensures FilterByPrefix(items, "") == items
  {
    if items != [] {
      EmptyQueryMatchesAll(items[0].text);
      FilterByEmptyIsIdentity(items[1..]);
    }
  }

  /** Clearing the text restores the full registry and clears the selection. */
  lemma InputClearedRestoresAll(prev: FieldState)
    ensures OnInputChange(prev, "") == FieldState(None, "", Animals)
  {
    FilterByEmptyIsIdentity(Animals);
  }

  /** Text edits filter the registry exactly: the matching animals, in registry order. */
  lemma InputChangeFiltersExactly(prev: FieldState, value: string)
    ensures IsSubsequence(OnInputChange(prev, value).items, Animals)
    ensures forall i :: 0 <= i < |Animals| ==>
      (Animals[i] in OnInputChange(prev, value).items <==> StartsWith(Animals[i].text, value))
  {
    FilterIsExact(Animals, value);
  }

  /** Selecting an item from the current list: its key, its label, and it stays visible. */
  lemma SelectionFound(prev: FieldState, key: Option<string>)
    requires forall a :: a in prev.items ==> a in Animals
    requires FindByKey(prev.items, key).Some?
    ensures var a := FindByKey(prev.items, key).value;
      var s := OnSelectionChange(prev, key);
      s.selectedKey == key && s.inputValue == a.text && a in s.items
      && forall i :: 0 <= i < |Animals| ==> (Animals[i] in s.items <==> StartsWith(Animals[i].text, a.text))
    ensures IsSubsequence(OnSelectionChange(prev, key).items, Animals)
  {
    var a := FindByKey(prev.items, key).value;
    FilterIsExact(Animals, a.text);
    LabelMatchesItself(a.text);
    var i :| 0 <= i < |Animals| && Animals[i] == a;
  }

  /** Selecting a key that is not in the current list (such as `null`) resets everything but the key. */
  lemma SelectionNotFound(prev: FieldState, key: Option<string>)
    requires FindByKey(prev.items, key).None?
    ensures OnSelectionChange(prev, key) == FieldState(key, "", Animals)
  {
    FilterByEmptyIsIdentity(Animals);
  }

  /** Two registry entries with the same key are the same entry. */
  lemma SameKeySameAnimal(a: Animal, b: Animal)
    requires a in Animals && b in Animals && a.key == b.key
    ensures a == b
  {
    AnimalsHaveUniqueKeys();
    var i :| 0 <= i < |Animals| && Animals[i] == a;
    var j :| 0 <= j < |Animals| && Animals[j] == b;
    assert !(i < j) && !(j < i);
  }

  /** The key of no registry entry. */
  predicate NotARegistryKey(key: Option<string>)
  {
    forall a :: a in Animals ==> key != Some(a.key)
  }

  /** Selecting a key found in the current list a second time changes nothing. */
  lemma SelectionFoundIdempotent(prev: FieldState, key: Option<string>)
    requires forall a :: a in prev.items ==> a in Animals
    requires FindByKey(prev.items, key).Some?
    ensures OnSelectionChange(OnSelectionChange(prev, key), key) == OnSelectionChange(prev, key)
  {
    var a := FindByKey(prev.items, key).value;
    SelectionFound(prev, key);
    var once := OnSelectionChange(prev, key);
    var again := FindByKey(once.items, key);
    assert again.Some?;
    SameKeySameAnimal(again.value, a);
  }

  /** Selecting a key of no animal a second time changes nothing. */
  lemma SelectionUnknownIdempotent(prev: FieldState, key: Option<string>)
    requires forall a :: a in prev.items ==> a in Animals
    requires NotARegistryKey(key)
    ensures OnSelectionChange(OnSelectionChange(prev, key), key) == OnSelectionChange(prev, key)
  {
    NotFoundAmong(prev.items, key);
    SelectionNotFound(prev, key);
    NotFoundAmong(Animals, key);
  }

  /** A key of no animal is not found in any list drawn from the registry. */
  lemma {:induction false} NotFoundAmong(items: seq<Animal>, key: Option<string>)
    requires forall a :: a in items ==> a in Animals
    requires NotARegistryKey(key)
    ensures FindByKey(items, key).None?
  {
    if items != [] {
      assert items[0] in Animals;
      NotFoundAmong(items[1..], key);
    }
  }

  /** Every registry entry has a non-empty label. */
  lemma LabelsNonEmpty(a: Animal)
    requires a in Animals
    ensures a.text != ""
  {
  }

  /**
   * Without that condition selecting twice always differs: the key of an
   * animal that the current list hides is not found the first time, which
   * resets the list to the whole registry, where the second call finds it.
   */
  lemma SelectionNotIdempotentForHiddenKey(prev: FieldState, key: Option<string>)
    requires FindByKey(prev.items, key).None? && !NotARegistryKey(key)
    ensures OnSelectionChange(OnSelectionChange(prev, key), key) != OnSelectionChange(prev, key)
  {
    SelectionNotFound(prev, key);
    var once := OnSelectionChange(prev, key);
    var again := FindByKey(once.items, key);
    assert again.Some?;
    LabelsNonEmpty(again.value);
    assert OnSelectionChange(once, key).inputValue != once.inputValue;
  }

  /** Every updater leaves a state whose items are the filter of its text or the whole registry. */
  lemma StepKeepsConsistent(s: FieldState, e: Event)
    requires Consistent(s)
    ensures Consistent(Step(s, e))
  {
    match e
    case SelectionChange(k) =>
    case InputChange(v) =>
    case OpenChange(o, t) =>
  }

  /** After any sequence of events from the initial state, the items are a consistent subsequence of the registry. */
  lemma {:induction false} RunKeepsItemsInRegistry(s: FieldState, events: seq<Event>)
    requires Consistent(s)
    ensures Consistent(Run(s, events))
    ensures IsSubsequence(Run(s, events).items, Animals)
    decreases |events|
  {
    if events == [] {
      FilterIsExact(Animals, s.inputValue);
      if s.items == Animals {
        SubsequenceReflexive(Animals);
      }
    } else {
      StepKeepsConsistent(s, events[0]);
      RunKeepsItemsInRegistry(Step(s, events[0]), events[1..]);
    }
  }

  /** Every sequence is a subsequence of itself. */
  lemma {:induction false} SubsequenceReflexive(a: seq<Animal>)
    ensures IsSubsequence(a, a)
  {
    if a != [] {
      SubsequenceReflexive(a[1..]);
    }
  }

  /** The initial state is consistent, so every reachable state's items lie in the registry. */
  lemma ReachableItemsInRegistry(events: seq<Event>)
    ensures IsSubsequence(Run(Initial(), events).items, Animals)
  {
    RunKeepsItemsInRegistry(Initial(), events);
  }

  /** Every reachable state meets the `requires` of the selection lemmas: its items are registry entries. */
  lemma ReachableMeetsSelectionRequires(events: seq<Event>)
    ensures forall a :: a in Run(Initial(), events).items ==> a in Animals
  {
    RunKeepsItemsInRegistry(Initial(), events);
  }

  /** Exactly Dog and Dolphin start with "d". */
  lemma MatchesOfD(k: nat)
    requires k < |Animals|
    ensures StartsWith(Animals[k].text, "d") <==> k == 1 || k == 6
  {
    OneCharQuery(Animals[k].text, 'd');
  }

  /** Exactly Dog starts with "Dog". */
  lemma MatchesOfDog(k: nat)
    requires k < |Animals|
    ensures StartsWith(Animals[k].text, "Dog") <==> k == 1
  {
    if k == 1 {
      LabelMatchesItself("Dog");
    } else if k == 6 {
      assert Fold(Animals[6].text[..3])[2] == 'l';
    } else {
      MatchesOfD(k);
    }
  }

  /** The animals from index `k` on that start with "d". */
  lemma {:induction false} FilterTailD(k: nat)
    requires k <= |Animals|
    ensures FilterByPrefix(Animals[k..], "d")
      == if k <= 1 then [Animals[1], Animals[6]] else if k <= 6 then [Animals[6]] else []
    decreases |Animals| - k
  {
    if k < |Animals| {
      FilterTailD(k + 1);
      MatchesOfD(k);
      var tail := Animals[k..];
      assert tail[0] == Animals[k] && tail[1..] == Animals[k + 1..];
      FilterStep(tail, "d");
      if k == 1 || k == 6 {
        assert FilterByPrefix(tail, "d") == [Animals[k]] + FilterByPrefix(Animals[k + 1..], "d");
      } else {
        assert FilterByPrefix(tail, "d") == FilterByPrefix(Animals[k + 1..], "d");
      }
    }
  }

  /** The animals from index `k` on that start with "Dog". */
  lemma {:induction false} FilterTailDog(k: nat)
    requires k <= |Animals|
    ensures FilterByPrefix(Animals[k..], "Dog") == if k <= 1 then [Animals[1]] else []
    decreases |Animals| - k
  {
    if k < |Animals| {
      FilterTailDog(k + 1);
      MatchesOfDog(k);
      var tail := Animals[k..];
      assert tail[0] == Animals[k] && tail[1..] == Animals[k + 1..];
      FilterStep(tail, "Dog");
    }
  }

  /** Typing "d" shows Dog and Dolphin; picking the dog then shows only the animals starting with "Dog". */
  lemma ScenarioTypeThenSelect()
    ensures var typed := OnInputChange(Initial(), "d");
      typed.items == [Animals[1], Animals[6]]
      && OnSelectionChange(typed, Some("dog")) == FieldState(Some("dog"), "Dog", [Animals[1]])
  {
    FilterTailD(0);
    FilterTailDog(0);
    assert Animals[0..] == Animals;
  }

  /** One step of the filter. */
  lemma FilterStep(items: seq<Animal>, query: string)
    requires items != []
    ensures FilterByPrefix(items, query)
      == (if StartsWith(items[0].text, query) then [items[0]] else []) + FilterByPrefix(items[1..], query)
  {
  }
}
