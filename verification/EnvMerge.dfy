/** replaceOrAppendEnvValues (runtime/firecrackeroci/vm.go): an image's environment with overrides merged in. */
module EnvMerge {
  import opened Outcomes
  import opened Text

  /** What stands before the first "=", or everything. */
  function Key(entry: string): string {
    entry[..IndexOf(entry, '=')]
  }

  predicate Assigns(entry: string) {
    '=' in entry
  }

  // ----- the code -----

  method ReplaceOrAppendEnvValues(defaults: seq<string>, overrides: seq<string>) returns (results: seq<string>)
    ensures results == Merged(defaults, overrides)
  {
    hide CacheOf, Slots, Appended, DropEmpty, Key;
    var cache: map<string, nat> := map[];
    results := [];
    EmptyCache();
    for i := 0 to |defaults|
      invariant results == defaults[..i]
      invariant CacheOf(defaults[..i], cache)
    {
      CacheStep(defaults[..i], cache, defaults[i]);
      assert defaults[..i + 1] == defaults[..i] + [defaults[i]];
      results := results + [defaults[i]];
      cache := cache[Key(defaults[i]) := i];
    }
    assert defaults[..|defaults|] == defaults;
    NoOverrides(defaults);
    for i := 0 to |overrides|
      invariant results == Slots(defaults, overrides[..i]) + Appended(defaults, overrides[..i])
    {
      var value := overrides[i];
      assert overrides[..i + 1] == overrides[..i] + [value];
      OverrideStep(defaults, overrides[..i], value, cache);
      if '=' !in value {
        if value in cache {
          results := results[cache[value] := ""];
        }
      } else {
        var key := Key(value);
        if key in cache {
          results := results[cache[key] := value];
        } else {
          results := results + [value];
        }
      }
    }
    assert overrides[..|overrides|] == overrides;
    ghost var before := results;
    var i := 0;
    while i < |results|
      invariant 0 <= i <= |results|
      invariant DropEmpty(results) == DropEmpty(before)
      invariant forall k :: 0 <= k < i ==> results[k] != ""
      decreases |results| - i
    {
      if results[i] == "" {
        DropEmptyAt(results, i);
        results := results[..i] + results[i + 1..];
      } else {
        i := i + 1;
      }
    }
    DropEmptyNone(results);
  }

  // ----- what it computes -----

  /** Slot `i` is the last default with its key. */
  predicate IsLastSlot(defaults: seq<string>, i: nat)
    requires i < |defaults|
  {
    forall j :: i < j < |defaults| ==> Key(defaults[j]) != Key(defaults[i])
  }

  predicate HasKey(defaults: seq<string>, key: string) {
    exists i :: 0 <= i < |defaults| && Key(defaults[i]) == key
  }

  /** What the last override for a key leaves in its slot: the override itself, or nothing if it unsets. */
  function LastOverride(overrides: seq<string>, key: string): Option<string> {
    if overrides == [] then None
    else
      var value := overrides[|overrides| - 1];
      if Key(value) == key then Some(if Assigns(value) then value else "")
      else LastOverride(overrides[..|overrides| - 1], key)
  }

  /** The default slots after the overrides: only the last slot of each key is ever overridden. */
  function Slot(defaults: seq<string>, overrides: seq<string>, i: nat): string
    requires i < |defaults|
  {
    if !IsLastSlot(defaults, i) then defaults[i]
    else match LastOverride(overrides, Key(defaults[i]))
      case None => defaults[i]
      case Some(value) => value
  }

  function Slots(defaults: seq<string>, overrides: seq<string>): (r: seq<string>)
    ensures |r| == |defaults|
    ensures forall i :: 0 <= i < |r| ==> r[i] == Slot(defaults, overrides, i)
  {
    seq(|defaults|, i requires 0 <= i < |defaults| => Slot(defaults, overrides, i))
  }

  /** The assignments to keys that are no defaults, in order. */
  function Appended(defaults: seq<string>, overrides: seq<string>): seq<string> {
    if overrides == [] then []
    else
      var value := overrides[|overrides| - 1];
      Appended(defaults, overrides[..|overrides| - 1]) + (if Assigns(value) && !HasKey(defaults, Key(value)) then
          [value] else [])
  }

  function DropEmpty(s: seq<string>): seq<string> {
    if s == [] then []
    else (if s[0] == "" then [] else [s[0]]) + DropEmpty(s[1..])
  }

  /** The result: the slots that were not emptied, then the new assignments. */
  function Merged(defaults: seq<string>, overrides: seq<string>): seq<string> {
    DropEmpty(Slots(defaults, overrides) + Appended(defaults, overrides))
  }

  // ----- lemmas for the loops -----

  ghost predicate CacheOf(defaults: seq<string>, cache: map<string, nat>) {
    && (forall key :: key in cache ==> cache[key] < |defaults| && Key(defaults[cache[key]]) == key)
    && (forall i :: 0 <= i < |defaults| ==> Key(defaults[i]) in cache && i <= cache[Key(defaults[i])])
  }

  lemma EmptyCache()
    ensures CacheOf([], map[])
  {
  }

  lemma CacheStep(defaults: seq<string>, cache: map<string, nat>, entry: string)
    requires CacheOf(defaults, cache)
    ensures CacheOf(defaults + [entry], cache[Key(entry) := |defaults|])
  {
  }

  /** The cache knows the last slot of every default key, and no other keys. */
  lemma CacheIsLast(defaults: seq<string>, cache: map<string, nat>, key: string)
    requires CacheOf(defaults, cache)
    ensures key in cache <==> HasKey(defaults, key)
    ensures key in cache ==>
        cache[key] < |defaults| && IsLastSlot(defaults, cache[key]) && Key(defaults[cache[key]]) == key
    ensures forall i :: 0 <= i < |defaults| && IsLastSlot(defaults, i) && Key(defaults[i]) == key ==>
        key in cache && i == cache[key]
  {
  }

  lemma NoOverrides(defaults: seq<string>)
    ensures Slots(defaults, []) + Appended(defaults, []) == defaults
  {
  }

  /** One more override changes the last slot of its key, if there is one. */
  lemma SlotsStep(defaults: seq<string>, overrides: seq<string>, value: string)
    ensures var next := overrides + [value];
            forall i :: 0 <= i < |defaults| ==>
              Slots(defaults, next)[i] ==
                if IsLastSlot(defaults, i) && Key(defaults[i]) == Key(value) then (if Assigns(value) then value else "")
                else Slots(defaults, overrides)[i]
  {
  }

  lemma AppendedStep(defaults: seq<string>, overrides: seq<string>, value: string)
    ensures Appended(defaults, overrides + [value]) ==
              Appended(defaults, overrides) + (if Assigns(value) && !HasKey(defaults, Key(value)) then [value] else [])
  {
  }

  lemma OverrideStep(defaults: seq<string>, overrides: seq<string>, value: string, cache: map<string, nat>)
    requires CacheOf(defaults, cache)
    ensures var results := Slots(defaults, overrides) + Appended(defaults, overrides);
            var next := overrides + [value];
            var key := Key(value);
            && (!Assigns(value) ==> key == value)
            && (key in cache ==> cache[key] < |results|)
            && Slots(defaults, next) + Appended(defaults, next) ==
                 if key in cache then results[cache[key] := if Assigns(value) then value else ""]
                 else if Assigns(value) then results + [value]
                 else results
  {
    hide Slots, Appended, Key, CacheOf, IsLastSlot, HasKey, Assigns;
    KeyOfUnassigned(value);
    SlotsUpdated(defaults, overrides, value, cache);
    AppendedStep(defaults, overrides, value);
    CacheIsLast(defaults, cache, Key(value));
    var i := if Key(value) in cache then cache[Key(value)] else 0;
    ConcatSteps(Slots(defaults, overrides), Appended(defaults, overrides), i, if Assigns(value) then value else "");
  }

  lemma ConcatSteps(a: seq<string>, b: seq<string>, i: nat, v: string)
    ensures i < |a| ==> (a + b)[i := v] == a[i := v] + b
    ensures (a + b) + [v] == a + (b + [v]) && a + (b + []) == a + b
  {
  }

  lemma KeyOfUnassigned(value: string)
    ensures !Assigns(value) ==> Key(value) == value
  {
  }

  lemma SlotsUpdated(defaults: seq<string>, overrides: seq<string>, value: string, cache: map<string, nat>)
    requires CacheOf(defaults, cache)
    ensures var key, slots := Key(value), Slots(defaults, overrides);
            && (key in cache ==> cache[key] < |slots|)
            && Slots(defaults, overrides + [value]) ==
                 if key in cache then slots[cache[key] := if Assigns(value) then value else ""] else slots
  {
    SlotsStep(defaults, overrides, value);
    CacheIsLast(defaults, cache, Key(value));
    hide Slots, Appended, Key, CacheOf, IsLastSlot, HasKey, Assigns;
  }

  lemma {:induction false} DropEmptyConcat(a: seq<string>, b: seq<string>)
    ensures DropEmpty(a + b) == DropEmpty(a) + DropEmpty(b)
  {
    if a == [] {
      assert a + b == b;
    } else {
      assert (a + b)[1..] == a[1..] + b;
      DropEmptyConcat(a[1..], b);
    }
  }

  lemma DropEmptyAt(s: seq<string>, i: nat)
    requires i < |s| && s[i] == ""
    ensures DropEmpty(s[..i] + s[i + 1..]) == DropEmpty(s)
  {
    assert s == s[..i] + ([""] + s[i + 1..]);
    DropEmptyConcat(s[..i], [""] + s[i + 1..]);
    DropEmptyConcat(s[..i], s[i + 1..]);
  }

  lemma {:induction false} DropEmptyNone(s: seq<string>)
    requires forall k :: 0 <= k < |s| ==> s[k] != ""
    ensures DropEmpty(s) == s
  {
    if s != [] {
      DropEmptyNone(s[1..]);
    }
  }

  // ----- what the result means -----

  /** The entry a process sees for a key: the last one. */
  function Lookup(env: seq<string>, key: string): Option<string> {
    if env == [] then None
    else if Key(env[|env| - 1]) == key then Some(env[|env| - 1])
    else Lookup(env[..|env| - 1], key)
  }

  /** What the overrides, taken one after the other, should leave for a key. Unsetting a key that is not among the
      defaults does nothing. */
  function Folded(defaults: seq<string>, overrides: seq<string>, key: string): Option<string> {
    if overrides == [] then Lookup(DropEmpty(defaults), key)
    else
      var value, before := overrides[|overrides| - 1], overrides[..|overrides| - 1];
      if Key(value) != key then Folded(defaults, before, key)
      else if Assigns(value) then Some(value)
      else if HasKey(defaults, key) then None
      else Folded(defaults, before, key)
  }

  /** Only the last slot of a key holds anything. In particular this holds if the default keys are distinct. */
  ghost predicate Unshadowed(defaults: seq<string>) {
    forall i, j :: 0 <= i < j < |defaults| && Key(defaults[i]) == Key(defaults[j]) ==> defaults[i] == ""
  }

  predicate Counts(entry: string, key: string) {
    entry != "" && Key(entry) == key
  }

  /** Lookup among the entries that are not empty. */
  function LookupNonEmpty(env: seq<string>, key: string): Option<string> {
    if env == [] then None
    else if Counts(env[|env| - 1], key) then Some(env[|env| - 1])
    else LookupNonEmpty(env[..|env| - 1], key)
  }

  lemma {:induction false} LookupDropEmpty(env: seq<string>, key: string)
    ensures Lookup(DropEmpty(env), key) == LookupNonEmpty(env, key)
  {
    if env != [] {
      var init, last := env[..|env| - 1], env[|env| - 1];
      assert env == init + [last];
      DropEmptyConcat(init, [last]);
      LookupDropEmpty(init, key);
      assert [last][1..] == [];
      if last == "" {
        assert DropEmpty(env) == DropEmpty(init) + [] == DropEmpty(init);
      } else {
        var dropped := DropEmpty(init) + [last];
        assert DropEmpty(env) == dropped && dropped[..|dropped| - 1] == DropEmpty(init);
      }
    }
  }

  /** `i` is the last entry that counts for the key. */
  lemma {:induction false} LookupAt(env: seq<string>, key: string, i: nat)
    requires i < |env| && Counts(env[i], key) && forall j :: i < j < |env| ==> !Counts(env[j], key)
    ensures LookupNonEmpty(env, key) == Some(env[i])
    decreases |env|
  {
    if i < |env| - 1 {
      LookupAt(env[..|env| - 1], key, i);
    }
  }

  lemma {:induction false} LookupNothing(env: seq<string>, key: string)
    requires forall j :: 0 <= j < |env| ==> !Counts(env[j], key)
    ensures LookupNonEmpty(env, key) == None
    decreases |env|
  {
    if env != [] {
      LookupNothing(env[..|env| - 1], key);
    }
  }

  lemma {:induction false} LookupConcat(a: seq<string>, b: seq<string>, key: string)
    ensures LookupNonEmpty(a + b, key) ==
              if LookupNonEmpty(b, key).Some? then LookupNonEmpty(b, key) else LookupNonEmpty(a, key)
    decreases |b|
  {
    if b == [] {
      assert a + b == a;
    } else {
      assert (a + b)[..|a + b| - 1] == a + b[..|b| - 1];
      LookupConcat(a, b[..|b| - 1], key);
    }
  }

  /** A slot that is not empty keeps the key of its default. */
  lemma {:induction false} LastOverrideKey(overrides: seq<string>, key: string)
    ensures LastOverride(overrides, key).Some? && LastOverride(overrides, key).value != "" ==>
              Key(LastOverride(overrides, key).value) == key
  {
    if overrides != [] {
      LastOverrideKey(overrides[..|overrides| - 1], key);
    }
  }

  lemma SlotKey(defaults: seq<string>, overrides: seq<string>, i: nat)
    requires i < |defaults|
    ensures Slots(defaults, overrides)[i] != "" ==> Key(Slots(defaults, overrides)[i]) == Key(defaults[i])
  {
    LastOverrideKey(overrides, Key(defaults[i]));
  }

  lemma {:induction false} AppendedForNewKey(defaults: seq<string>, overrides: seq<string>, key: string)
    requires !HasKey(defaults, key)
    ensures LookupNonEmpty(Appended(defaults, overrides), key) ==
              if Folded(defaults, overrides, key).Some? then Folded(defaults, overrides, key) else None
  {
    if overrides == [] {
      LookupDropEmpty(defaults, key);
      LookupNothing(defaults, key);
    } else {
      var value, before := overrides[|overrides| - 1], overrides[..|overrides| - 1];
      AppendedForNewKey(defaults, before, key);
      var extra := if Assigns(value) && !HasKey(defaults, Key(value)) then [value] else [];
      LookupConcat(Appended(defaults, before), extra, key);
      assert LookupNonEmpty([value], key) == if Counts(value, key) then Some(value)
          else LookupNonEmpty([value][..0], key);
    }
  }

  lemma {:induction false} AppendedForDefaultKey(defaults: seq<string>, overrides: seq<string>, key: string)
    requires HasKey(defaults, key)
    ensures LookupNonEmpty(Appended(defaults, overrides), key) == None
  {
    if overrides != [] {
      var value, before := overrides[|overrides| - 1], overrides[..|overrides| - 1];
      AppendedForDefaultKey(defaults, before, key);
      var extra := if Assigns(value) && !HasKey(defaults, Key(value)) then [value] else [];
      LookupConcat(Appended(defaults, before), extra, key);
      LookupNothing(extra, key);
    }
  }

  lemma {:induction false} FoldedForDefaultKey(defaults: seq<string>, overrides: seq<string>, key: string)
    requires HasKey(defaults, key)
    ensures Folded(defaults, overrides, key) ==
              match LastOverride(overrides, key)
              case None => LookupNonEmpty(defaults, key)
              case Some(value) => if value == "" then None else Some(value)
  {
    if overrides == [] {
      LookupDropEmpty(defaults, key);
    } else {
      FoldedForDefaultKey(defaults, overrides[..|overrides| - 1], key);
    }
  }

  lemma {:induction false} LastSlotOf(defaults: seq<string>, key: string, n: nat) returns (i: nat)
    requires n <= |defaults| && exists k :: 0 <= k < n && Key(defaults[k]) == key
    requires forall j :: n <= j < |defaults| ==> Key(defaults[j]) != key
    ensures i < |defaults| && IsLastSlot(defaults, i) && Key(defaults[i]) == key
  {
    if Key(defaults[n - 1]) == key {
      i := n - 1;
    } else {
      i := LastSlotOf(defaults, key, n - 1);
    }
  }

  /** If only the last slot of each key holds anything, a process sees exactly what folding the overrides gives. */
  lemma MergedIsFolded(defaults: seq<string>, overrides: seq<string>, key: string)
    requires Unshadowed(defaults)
    ensures Lookup(Merged(defaults, overrides), key) == Folded(defaults, overrides, key)
  {
    var slots, appended := Slots(defaults, overrides), Appended(defaults, overrides);
    LookupDropEmpty(slots + appended, key);
    LookupConcat(slots, appended, key);
    forall i | 0 <= i < |slots| ensures slots[i] != "" ==> Key(slots[i]) == Key(defaults[i]) {
      SlotKey(defaults, overrides, i);
    }
    if HasKey(defaults, key) {
      AppendedForDefaultKey(defaults, overrides, key);
      FoldedForDefaultKey(defaults, overrides, key);
      var i := LastSlotOf(defaults, key, |defaults|);
      SlotsForDefaultKey(defaults, overrides, key, i);
    } else {
      AppendedForNewKey(defaults, overrides, key);
      LookupNothing(slots, key);
    }
  }

  lemma SlotsForDefaultKey(defaults: seq<string>, overrides: seq<string>, key: string, i: nat)
    requires Unshadowed(defaults) && i < |defaults| && IsLastSlot(defaults, i) && Key(defaults[i]) == key
    ensures LookupNonEmpty(Slots(defaults, overrides), key) ==
              match LastOverride(overrides, key)
              case None => LookupNonEmpty(defaults, key)
              case Some(value) => if value == "" then None else Some(value)
  {
    var slots := Slots(defaults, overrides);
    forall j | 0 <= j < |slots| && j != i ensures !Counts(slots[j], key) && !Counts(defaults[j], key) {
      SlotKey(defaults, overrides, j);
      if Key(defaults[j]) == key {
        assert j < i && !IsLastSlot(defaults, j);
      }
    }
    SlotKey(defaults, overrides, i);
    if slots[i] == "" { LookupNothing(slots, key); } else { LookupAt(slots, key, i); }
    if defaults[i] == "" { LookupNothing(defaults, key); } else { LookupAt(defaults, key, i); }
  }

  /** A key that two slots share is not unset by an override when the earlier slot holds something. */
  lemma ShadowedNotUnset(defaults: seq<string>, i: nat, j: nat)
    requires i < j < |defaults| && Key(defaults[i]) == Key(defaults[j]) && defaults[i] != ""
    ensures var key := Key(defaults[i]);
            Folded(defaults, [key], key) == None && Lookup(Merged(defaults, [key]), key).Some?
  {
    var key := Key(defaults[i]);
    assert Key(key) == key && !Assigns(key);
    var slots, appended := Slots(defaults, [key]), Appended(defaults, [key]);
    assert slots[i] == defaults[i];
    assert Counts(slots[i], key);
    SomeCounts(slots, key, i);
    LookupDropEmpty(slots + appended, key);
    LookupConcat(slots, appended, key);
  }

  lemma {:induction false} SomeCounts(env: seq<string>, key: string, i: nat)
    requires i < |env| && Counts(env[i], key)
    ensures LookupNonEmpty(env, key).Some?
    decreases |env|
  {
    if i < |env| - 1 {
      SomeCounts(env[..|env| - 1], key, i);
    }
  }

  /** The key of an assignment is what stands before the first "="; an entry without one is its own key. */
  lemma KeyIs(key: string, value: string)
    requires '=' !in key
    ensures Key(key + "=" + value) == key && Assigns(key + "=" + value)
    ensures Key(key) == key && !Assigns(key)
  {
    assert key + "=" + value == key + ("=" + value);
    IndexOfPrefix(key, '=', "=" + value);
    IndexOfPrefix(key, '=', "");
    assert key + "" == key;
    assert (key + "=" + value)[|key|] == '=';
  }

  /** Whatever the defaults and the overrides before it are: after an assignment "key=value" as the last override, a
      process sees that entry for the key. */
  lemma AssignmentWins(defaults: seq<string>, overrides: seq<string>, key: string, value: string)
    requires '=' !in key
    ensures var entry := key + "=" + value; Lookup(Merged(defaults, overrides + [entry]), key) == Some(entry)
  {
    var entry := key + "=" + value;
    KeyIs(key, value);
    var all := overrides + [entry];
    assert all[..|all| - 1] == overrides;
    var slots, appended := Slots(defaults, all), Appended(defaults, all);
    LookupDropEmpty(slots + appended, key);
    LookupConcat(slots, appended, key);
    hide DropEmpty, Key;
    if HasKey(defaults, key) {
      AppendedForDefaultKey(defaults, all, key);
      var i := LastSlotOf(defaults, key, |defaults|);
      forall j | i < j < |slots| ensures !Counts(slots[j], key) {
        SlotKey(defaults, all, j);
      }
      assert slots[i] == entry;
      LookupAt(slots, key, i);
    } else {
      AppendedStep(defaults, overrides, entry);
      LookupAt(appended, key, |appended| - 1);
    }
  }

  /** Assignments to keys that are no defaults come after all defaults, in their own order, and change none of them. */
  lemma {:induction false} NewKeysAreAppended(defaults: seq<string>, overrides: seq<string>)
    requires "" !in defaults && forall value <- overrides :: Assigns(value) && !HasKey(defaults, Key(value))
    ensures Merged(defaults, overrides) == defaults + overrides
  {
    NothingOverridden(defaults, overrides);
    assert Slots(defaults, overrides) == defaults;
    forall k | 0 <= k < |defaults + overrides| ensures (defaults + overrides)[k] != "" {
      assert k < |defaults| ==> defaults[k] in defaults;
      assert k >= |defaults| ==> Assigns(overrides[k - |defaults|]);
    }
    hide Slots, Appended;
    DropEmptyNone(defaults + overrides);
  }

  lemma {:induction false} NothingOverridden(defaults: seq<string>, overrides: seq<string>)
    requires forall value <- overrides :: Assigns(value) && !HasKey(defaults, Key(value))
    ensures Appended(defaults, overrides) == overrides
    ensures forall i :: 0 <= i < |defaults| ==> Slot(defaults, overrides, i) == defaults[i]
    decreases |overrides|
  {
    if overrides != [] {
      var init, last := overrides[..|overrides| - 1], overrides[|overrides| - 1];
      assert overrides == init + [last] && last in overrides;
      NothingOverridden(defaults, init);
      SlotsStep(defaults, init, last);
      AppendedStep(defaults, init, last);
    }
  }

  /** The merge means folding the overrides, for all overrides and keys, exactly when only the last slot of each
      default key holds anything. */
  lemma FoldedIffUnshadowed(defaults: seq<string>)
    ensures Unshadowed(defaults) <==>
              forall overrides, key :: Lookup(Merged(defaults, overrides), key) == Folded(defaults, overrides, key)
  {
    if Unshadowed(defaults) {
      forall overrides, key ensures Lookup(Merged(defaults, overrides), key) == Folded(defaults, overrides, key) {
        MergedIsFolded(defaults, overrides, key);
      }
    } else {
      var i, j :| 0 <= i < j < |defaults| && Key(defaults[i]) == Key(defaults[j]) && defaults[i] != "";
      ShadowedNotUnset(defaults, i, j);
    }
  }
}
