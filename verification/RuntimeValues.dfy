/**
 The allowlisted runtime overrides: construction, lookup, patches and whole-map
 replacement. Keys and values are UTF-8 bytes, one `char` per byte. A rejection carries
 no key here, so it does not depend on the order in which entries are checked.
 */
module RuntimeValues {
  import opened Outcomes
  import opened Distinctness

  const MAX_RUNTIME_KEYS := 64
  const MAX_RUNTIME_KEY_BYTES := 128
  const MAX_RUNTIME_VALUE_BYTES := 16384

  type Key = string
  type Values = map<Key, string>

  datatype ValueError = InvalidConfig | UpdateRejected

  /** `value == None` removes the override. */
  datatype Update = Update(key: Key, value: Option<string>)

  // ----- Keys

  predicate EndsWith(s: string, suffix: string) {
    |s| >= |suffix| && s[|s| - |suffix|..] == suffix
  }

  /** The parts with the separator between them. */
  function Join(parts: seq<string>, separator: char): string
    requires |parts| > 0
  {
    if |parts| == 1 then parts[0] else parts[0] + [separator] + Join(parts[1..], separator)
  }

  /** The pieces of `s` between separators: joined again they are `s`, and none contains the separator. */
  function Split(s: string, separator: char): (parts: seq<string>)
    ensures |parts| > 0 && Join(parts, separator) == s
    ensures forall i | 0 <= i < |parts| :: separator !in parts[i]
  {
    if |s| == 0 then [""]
    else
      var rest := Split(s[1..], separator);
      if s[0] == separator then
        assert ([""] + rest)[1..] == rest;
        [""] + rest
      else
        var parts := [[s[0]] + rest[0]] + rest[1..];
        assert parts[1..] == rest[1..];
        parts
  }

  /** `part` stands in `key` between underscores or the ends of the key. */
  ghost predicate StandsIn(key: Key, part: string, i: nat) {
    && i + |part| <= |key| && key[i..i + |part|] == part && '_' !in part
    && (i == 0 || key[i - 1] == '_')
    && (i + |part| == |key| || key[i + |part|] == '_')
  }

  lemma {:induction false} LaterPart(key: Key, part: string, i: nat)
    requires StandsIn(key, part, i) && i > 0
    ensures part in Split(key, '_')[1..]
  {
    var rest := Split(key[1..], '_');
    assert key[1..][i - 1..i - 1 + |part|] == part;
    assert StandsIn(key[1..], part, i - 1);
    if i == 1 {
      FrontPart(key[1..], part);
      assert Split(key, '_')[1..] == rest;
    } else {
      LaterPart(key[1..], part, i - 1);
      assert Split(key, '_')[1..] == if key[0] == '_' then rest else rest[1..];
    }
  }

  lemma {:induction false} FrontPart(key: Key, part: string)
    requires StandsIn(key, part, 0)
    ensures Split(key, '_')[0] == part
  {
    if |part| > 0 {
      assert key[0] == part[0] != '_';
      assert key[1..][0..|part| - 1] == part[1..];
      FrontPart(key[1..], part[1..]);
      assert [key[0]] + part[1..] == part;
    }
  }

  /** A key with a sensitive component anywhere between underscores is never mutable. */
  lemma {:induction false} SensitiveComponentIsRefused(key: Key, part: string, i: nat)
    requires StandsIn(key, part, i)
    requires part in {"PASSWORD", "PASS", "TOKEN", "SECRET", "CREDENTIAL", "CREDENTIALS", "COOKIE", "PRIVATE", "AUTHORIZATION"}
    ensures IsSensitive(key) && !ValidKey(key)
  {
    if i == 0 {
      FrontPart(key, part);
    } else {
      LaterPart(key, part, i);
    }
    assert part in Split(key, '_') && part in SENSITIVE_PARTS;
  }

  const SENSITIVE_PARTS: set<string> := {
    "PASSWORD", "PASS", "TOKEN", "SECRET", "CREDENTIAL", "CREDENTIALS", "COOKIE", "PRIVATE", "AUTHORIZATION" }

  predicate IsSensitive(key: Key) {
    || key == "REDIS_URL" || key == "DATABASE_URL"
    || EndsWith(key, "_DSN") || EndsWith(key, "_KEY")
    || exists i | 0 <= i < |Split(key, '_')| :: Split(key, '_')[i] in SENSITIVE_PARTS
  }

  predicate KeyByte(b: char) {
    'A' <= b <= 'Z' || '0' <= b <= '9' || b == '_'
  }

  predicate ValidKey(key: Key) {
    && 0 < |key| <= MAX_RUNTIME_KEY_BYTES
    && ('A' <= key[0] <= 'Z' || key[0] == '_')
    && (forall i | 0 <= i < |key| :: KeyByte(key[i]))
    && !IsSensitive(key)
  }

  /** A mutable key is an upper-case identifier of at most 128 bytes that is not sensitive. */
  lemma KeyIsValidIff(key: Key)
    ensures ValidKey(key) <==>
            && 1 <= |key| <= 128 && !('0' <= key[0] <= '9')
            && (forall i | 0 <= i < |key| :: 'A' <= key[i] <= 'Z' || '0' <= key[i] <= '9' || key[i] == '_')
            && !IsSensitive(key)
  {
    hide IsSensitive;
    if |key| > 0 && forall i | 0 <= i < |key| :: KeyByte(key[i]) {
      assert KeyByte(key[0]);
    }
  }

  lemma EndsWithIff(s: string, suffix: string)
    ensures EndsWith(s, suffix) <==> exists front :: s == front + suffix
  {
    if EndsWith(s, suffix) {
      assert s == s[..|s| - |suffix|] + suffix;
    }
  }

  /** Connection strings and every key or data-source name are never mutable. */
  lemma SensitiveNamesAreRefused(key: Key, front: string)
    requires key == "REDIS_URL" || key == "DATABASE_URL" || key == front + "_KEY" || key == front + "_DSN"
    ensures IsSensitive(key) && !ValidKey(key)
  {
    hide Split, SENSITIVE_PARTS, EndsWith;
    EndsWithIff(key, "_KEY");
    EndsWithIff(key, "_DSN");
  }

  predicate ValidUpdate(mutable: set<Key>, key: Key, value: Option<string>) {
    ValidKey(key) && key in mutable && (value.Some? ==> |value.value| <= MAX_RUNTIME_VALUE_BYTES)
  }

  predicate ValidEntries(mutable: set<Key>, entries: Values) {
    forall k | k in entries :: ValidUpdate(mutable, k, Some(entries[k]))
  }

  // ----- Patches

  /** The fold of `validate_patch`, with the keys already seen. */
  function CheckUpdates(mutable: set<Key>, updates: seq<Update>, seen: set<Key>): Option<ValueError> {
    if |updates| == 0 then None
    else if updates[0].key in seen || !ValidUpdate(mutable, updates[0].key, updates[0].value) then
      Some(UpdateRejected)
    else CheckUpdates(mutable, updates[1..], seen + {updates[0].key})
  }

  function ValidatePatch(mutable: set<Key>, updates: seq<Update>): Option<ValueError> {
    if |updates| > MAX_RUNTIME_KEYS then Some(InvalidConfig) else CheckUpdates(mutable, updates, {})
  }

  predicate DistinctKeys(updates: seq<Update>) {
    forall i, j | 0 <= i < j < |updates| :: updates[i].key != updates[j].key
  }

  lemma {:induction false} CheckUpdatesIff(mutable: set<Key>, updates: seq<Update>, seen: set<Key>)
    ensures CheckUpdates(mutable, updates, seen).None? <==>
            && DistinctKeys(updates)
            && forall i | 0 <= i < |updates| ::
                 updates[i].key !in seen && ValidUpdate(mutable, updates[i].key, updates[i].value)
  {
    if |updates| > 0 {
      var rest, seen' := updates[1..], seen + {updates[0].key};
      CheckUpdatesIff(mutable, rest, seen');
      assert forall i | 0 < i < |updates| :: updates[i] == rest[i - 1];
      assert forall i | 0 <= i < |rest| :: rest[i] == updates[i + 1];
    }
  }

  /** A patch is accepted exactly when it is bounded, names each key once, and every update is allowed. */
  lemma ValidatePatchIff(mutable: set<Key>, updates: seq<Update>)
    ensures ValidatePatch(mutable, updates).None? <==>
            && |updates| <= MAX_RUNTIME_KEYS
            && DistinctKeys(updates)
            && forall i | 0 <= i < |updates| :: ValidUpdate(mutable, updates[i].key, updates[i].value)
  {
    CheckUpdatesIff(mutable, updates, {});
  }

  predicate Names(updates: seq<Update>, key: Key) {
    exists i | 0 <= i < |updates| :: updates[i].key == key
  }

  /** The entries the patch sets, collected in order, later ones winning. */
  function SetEntries(updates: seq<Update>): Values {
    if |updates| == 0 then map[]
    else
      var last := updates[|updates| - 1];
      var before := SetEntries(updates[..|updates| - 1]);
      if last.value.Some? then before[last.key := last.value.value] else before
  }

  /** `patched`: drop every patched key, then add back what the patch sets. */
  function Patched(current: Values, updates: seq<Update>): Values {
    (map k | k in current && !Names(updates, k) :: current[k]) + SetEntries(updates)
  }

  function ApplyOne(current: Values, update: Update): Values {
    if update.value.Some? then current[update.key := update.value.value] else current - {update.key}
  }

  /** The updates applied one after the other. */
  function ApplyInOrder(current: Values, updates: seq<Update>): Values {
    if |updates| == 0 then current
    else ApplyOne(ApplyInOrder(current, updates[..|updates| - 1]), updates[|updates| - 1])
  }

  /** What a key maps to after a patch that names each key at most once. */
  ghost predicate PatchResult(current: Values, updates: seq<Update>, result: Values) {
    && (forall i | 0 <= i < |updates| :: UpdateShows(updates[i], result))
    && (forall k | !Names(updates, k) :: k in result <==> k in current)
    && (forall k | !Names(updates, k) && k in current :: k in result && result[k] == current[k])
  }

  predicate UpdateShows(u: Update, result: Values) {
    if u.value.Some? then u.key in result && result[u.key] == u.value.value else u.key !in result
  }

  lemma {:induction false} SetEntriesLookup(updates: seq<Update>)
    requires DistinctKeys(updates)
    ensures forall i | 0 <= i < |updates| :: UpdateShows(updates[i], SetEntries(updates))
    ensures forall k | k in SetEntries(updates) :: Names(updates, k)
  {
    if |updates| > 0 {
      var n := |updates| - 1;
      var before := updates[..n];
      SetEntriesLookup(before);
      assert forall i | 0 <= i < n :: before[i] == updates[i];
      assert forall k | Names(before, k) :: Names(updates, k);
      assert updates[n].key !in SetEntries(before) by {
        assert !Names(before, updates[n].key);
      }
    }
  }

  lemma PatchedLookup(current: Values, updates: seq<Update>)
    requires DistinctKeys(updates)
    ensures PatchResult(current, updates, Patched(current, updates))
  {
    SetEntriesLookup(updates);
    forall i | 0 <= i < |updates|
      ensures UpdateShows(updates[i], Patched(current, updates))
    {
      assert Names(updates, updates[i].key);
    }
  }

  lemma {:induction false} InOrderLookup(current: Values, updates: seq<Update>)
    requires DistinctKeys(updates)
    ensures PatchResult(current, updates, ApplyInOrder(current, updates))
  {
    if |updates| > 0 {
      var n := |updates| - 1;
      var before := updates[..n];
      InOrderLookup(current, before);
      var middle, result := ApplyInOrder(current, before), ApplyInOrder(current, updates);
      forall i | 0 <= i < |updates|
        ensures UpdateShows(updates[i], result)
      {
        if i < n {
          assert before[i] == updates[i] && UpdateShows(before[i], middle);
        }
      }
      forall k | !Names(updates, k)
        ensures k in result <==> k in current
        ensures k in current ==> result[k] == current[k]
      {
        assert updates[n].key != k;
        assert !Names(before, k) by { NamesPrefix(updates, n, k); }
      }
    }
  }

  lemma NamesPrefix(updates: seq<Update>, n: nat, k: Key)
    requires n <= |updates| && !Names(updates, k)
    ensures !Names(updates[..n], k)
  {
    assert forall i | 0 <= i < n :: updates[..n][i] == updates[i];
  }

  /** The lookup determines the map. */
  lemma PatchResultIsUnique(current: Values, updates: seq<Update>, a: Values, b: Values)
    requires PatchResult(current, updates, a) && PatchResult(current, updates, b)
    ensures a == b
  {
    forall k
      ensures k in a <==> k in b
      ensures k in a ==> k in b && a[k] == b[k]
    {
      if Names(updates, k) {
        var i :| 0 <= i < |updates| && updates[i].key == k;
        assert UpdateShows(updates[i], a) && UpdateShows(updates[i], b);
      }
    }
  }

  /**
   For every accepted patch the one-shot map equals applying the updates one at a time,
   in the given order or in any other.
   */
  lemma {:induction false} PatchMeansItsUpdates(mutable: set<Key>, current: Values, updates: seq<Update>, reordered: seq<Update>)
    requires ValidatePatch(mutable, updates).None?
    requires multiset(updates) == multiset(reordered)
    ensures Patched(current, updates) == ApplyInOrder(current, updates)
    ensures Patched(current, updates) == ApplyInOrder(current, reordered)
  {
    ValidatePatchIff(mutable, updates);
    PatchedLookup(current, updates);
    InOrderLookup(current, updates);
    PatchResultIsUnique(current, updates, Patched(current, updates), ApplyInOrder(current, updates));
    ReorderedIsDistinct(updates, reordered);
    InOrderLookup(current, reordered);
    SameMembers(updates, reordered);
    var result := ApplyInOrder(current, reordered);
    assert PatchResult(current, updates, result) by {
      forall i | 0 <= i < |updates|
        ensures UpdateShows(updates[i], result)
      {
        assert updates[i] in reordered;
        var j :| 0 <= j < |reordered| && reordered[j] == updates[i];
        assert UpdateShows(reordered[j], result);
      }
      assert forall k :: Names(updates, k) <==> Names(reordered, k);
    }
    PatchResultIsUnique(current, updates, Patched(current, updates), result);
  }

  lemma SameMembers(a: seq<Update>, b: seq<Update>)
    requires multiset(a) == multiset(b)
    ensures forall u :: u in a <==> u in b
    ensures forall k :: Names(a, k) <==> Names(b, k)
  {
    forall u
      ensures u in a <==> u in b
    {
      assert u in a <==> u in multiset(a);
      assert u in b <==> u in multiset(b);
    }
    forall k
      ensures Names(a, k) <==> Names(b, k)
    {
      if Names(a, k) {
        var i :| 0 <= i < |a| && a[i].key == k;
        assert a[i] in b;
      }
      if Names(b, k) {
        var i :| 0 <= i < |b| && b[i].key == k;
        assert b[i] in a;
      }
    }
  }

  /** Distinct keys survive reordering. */
  lemma {:induction false} ReorderedIsDistinct(updates: seq<Update>, reordered: seq<Update>)
    requires DistinctKeys(updates) && multiset(updates) == multiset(reordered)
    ensures DistinctKeys(reordered)
  {
    SameMembers(updates, reordered);
    forall i, j | 0 <= i < j < |reordered|
      ensures reordered[i].key != reordered[j].key
    {
      if reordered[i].key == reordered[j].key {
        var a, b := reordered[i], reordered[j];
        assert a in updates && b in updates;
        if a == b {
          TwiceCounts(reordered, i, j);
          OnceCounts(updates, a);
        }
      }
    }
  }

  lemma TwiceCounts(s: seq<Update>, i: nat, j: nat)
    requires i < j < |s| && s[i] == s[j]
    ensures multiset(s)[s[i]] >= 2
  {
    assert s == s[..i] + [s[i]] + s[i + 1..j] + [s[j]] + s[j + 1..];
  }

  lemma {:induction false} OnceCounts(s: seq<Update>, u: Update)
    requires DistinctKeys(s)
    ensures multiset(s)[u] <= 1
  {
    if |s| > 0 {
      var n := |s| - 1;
      OnceCounts(s[..n], u);
      assert s == s[..n] + [s[n]];
      assert forall i | 0 <= i < n :: s[..n][i].key != s[n].key;
    }
  }

  // ----- Layers

  /** `layered`: overlay entries win. */
  function Layered(base: Values, overlay: Values): Values {
    (map k | k in base && k !in overlay :: base[k]) + overlay
  }

  function Lookup(m: Values, key: Key): Option<string> {
    if key in m then Some(m[key]) else None
  }

  // ----- Construction

  /** The fold that builds the allowlist. */
  function AllowKeys(keys: seq<Key>): Result<set<Key>, ValueError> {
    if |keys| == 0 then Ok({})
    else
      var before := AllowKeys(keys[..|keys| - 1]);
      var key := keys[|keys| - 1];
      if before.Err? then before
      else if !ValidKey(key) then Err(UpdateRejected)
      else if |before.value| >= MAX_RUNTIME_KEYS || key in before.value then Err(InvalidConfig)
      else Ok(before.value + {key})
  }

  lemma DistinctExtends(keys: seq<Key>, key: Key)
    ensures Distinct(keys + [key]) <==> Distinct(keys) && key !in keys
  {
    var all := keys + [key];
    assert forall i | 0 <= i < |keys| :: all[i] == keys[i];
    assert all[|keys|] == key;
    if Distinct(all) {
      assert forall i | 0 <= i < |keys| :: keys[i] == all[i] != all[|keys|];
    }
  }

  ghost predicate AllValid(keys: seq<Key>) {
    forall k | k in keys :: ValidKey(k)
  }

  /** The allowlist is accepted exactly when it is bounded, distinct and well-named. */
  lemma {:induction false} AllowKeysIff(keys: seq<Key>)
    ensures AllowKeys(keys).Ok? <==> |keys| <= MAX_RUNTIME_KEYS && Distinct(keys) && AllValid(keys)
  {
    hide ValidKey, Distinct;
    if |keys| > 0 {
      var n := |keys| - 1;
      var before := keys[..n];
      assert keys == before + [keys[n]];
      AllowKeysIff(before);
      AllowKeysAreBounded(before);
      DistinctExtends(before, keys[n]);
    } else {
      assert Distinct<Key>([]) by { NothingIsDistinct(); }
    }
  }

  lemma NothingIsDistinct()
    ensures Distinct<Key>([])
  {
  }

  lemma {:induction false} AllowKeysAreBounded(keys: seq<Key>)
    ensures AllowKeys(keys).Ok? ==>
              && (forall k :: k in AllowKeys(keys).value <==> k in keys)
              && |AllowKeys(keys).value| == |keys| <= MAX_RUNTIME_KEYS
              && forall k | k in AllowKeys(keys).value :: ValidKey(k)
  {
    hide ValidKey;
    if |keys| > 0 {
      var n := |keys| - 1;
      AllowKeysAreBounded(keys[..n]);
      if AllowKeys(keys).Ok? {
        assert keys == keys[..n] + [keys[n]];
      }
    }
  }

  /** The fold that builds the baseline. */
  function BaselineFrom(mutable: set<Key>, initial: seq<(Key, string)>): Result<Values, ValueError> {
    if |initial| == 0 then Ok(map[])
    else
      var before := BaselineFrom(mutable, initial[..|initial| - 1]);
      var (key, value) := initial[|initial| - 1];
      if before.Err? then before
      else if !ValidUpdate(mutable, key, Some(value)) then Err(UpdateRejected)
      else if |before.value| >= MAX_RUNTIME_KEYS || key in before.value then Err(InvalidConfig)
      else Ok(before.value[key := value])
  }

  function InitialKeys(initial: seq<(Key, string)>): seq<Key> {
    seq(|initial|, i requires 0 <= i < |initial| => initial[i].0)
  }

  /** Every entry of the baseline is allowed and no key is given twice. */
  ghost predicate ValidInitial(mutable: set<Key>, initial: seq<(Key, string)>) {
    && |initial| <= MAX_RUNTIME_KEYS
    && Distinct(InitialKeys(initial))
    && forall i | 0 <= i < |initial| :: ValidUpdate(mutable, initial[i].0, Some(initial[i].1))
  }

  /** An accepted baseline is the given entries. */
  lemma {:induction false} BaselineMeans(mutable: set<Key>, initial: seq<(Key, string)>)
    requires BaselineFrom(mutable, initial).Ok?
    ensures var m := BaselineFrom(mutable, initial).value;
            && |m| == |initial| && m.Keys <= mutable && m.Keys == Members(InitialKeys(initial))
            && forall i | 0 <= i < |initial| :: initial[i].0 in m && m[initial[i].0] == initial[i].1
  {
    hide ValidUpdate, Members;
    if |initial| == 0 {
      assert Members(InitialKeys(initial)) == {} by { NoMembers(InitialKeys(initial)); }
    } else {
      var n := |initial| - 1;
      var before := initial[..n];
      BaselineMeans(mutable, before);
      assert InitialKeys(initial) == InitialKeys(before) + [initial[n].0];
      OneMoreMember(InitialKeys(before), initial[n].0);
      assert forall i | 0 <= i < n :: before[i] == initial[i];
      UpdatesAreMutable(mutable, initial[n].0, Some(initial[n].1));
    }
  }

  lemma NoMembers(s: seq<Key>)
    requires s == []
    ensures Members(s) == {}
  {
  }

  lemma OneMoreMember(s: seq<Key>, k: Key)
    ensures Members(s + [k]) == Members(s) + {k}
    ensures k in Members(s) <==> k in s
  {
  }

  /** The baseline is accepted exactly when it is bounded, distinct and allowed. */
  lemma {:induction false} BaselineIff(mutable: set<Key>, initial: seq<(Key, string)>)
    ensures BaselineFrom(mutable, initial).Ok? <==> ValidInitial(mutable, initial)
  {
    hide ValidUpdate, Distinct, Members;
    if |initial| == 0 {
      NothingIsDistinct();
    } else {
      var n := |initial| - 1;
      var before := initial[..n];
      BaselineIff(mutable, before);
      if BaselineFrom(mutable, before).Ok? {
        BaselineMeans(mutable, before);
      }
      assert InitialKeys(initial) == InitialKeys(before) + [initial[n].0];
      DistinctExtends(InitialKeys(before), initial[n].0);
      OneMoreMember(InitialKeys(before), initial[n].0);
      assert forall i | 0 <= i < n :: before[i] == initial[i];
    }
  }

  lemma UpdatesAreMutable(mutable: set<Key>, key: Key, value: Option<string>)
    ensures ValidUpdate(mutable, key, value) ==> key in mutable
  {
  }

  // ----- The shared handle

  class Handle {
    const mutable: set<Key>
    const baseline: Values
    var overrides: Values

    /** The overrides never leave the bounded allowlist. */
    ghost predicate Valid()
      reads this
    {
      && |mutable| <= MAX_RUNTIME_KEYS
      && overrides.Keys <= mutable
    }

    constructor (mutable: set<Key>, baseline: Values)
      requires |mutable| <= MAX_RUNTIME_KEYS
      ensures Valid() && this.mutable == mutable && this.baseline == baseline && overrides == map[]
    {
      this.mutable, this.baseline, this.overrides := mutable, baseline, map[];
    }

    /** The value in force: the override, or else the baseline. */
    method Get(key: Key) returns (value: Option<string>)
      ensures value == Lookup(Layered(baseline, overrides), key)
      ensures key in overrides ==> value == Some(overrides[key])
      ensures key !in overrides ==> value == Lookup(baseline, key)
    {
      value := if key in overrides then Some(overrides[key]) else Lookup(baseline, key);
    }

    method Snapshot() returns (m: Values)
      ensures m.Keys == baseline.Keys + overrides.Keys
      ensures forall k | k in m :: m[k] == if k in overrides then overrides[k] else baseline[k]
    {
      m := Layered(baseline, overrides);
    }

    method ApplyPatch(updates: seq<Update>) returns (error: Option<ValueError>)
      requires Valid()
      modifies this
      ensures Valid()
      ensures error == ValidatePatch(mutable, updates)
      ensures overrides == if error.None? then Patched(old(overrides), updates) else old(overrides)
    {
      error := ValidatePatch(mutable, updates);
      if error.Some? {
        return;
      }
      ValidatePatchIff(mutable, updates);
      PatchStaysAllowed(mutable, overrides, updates);
      overrides := Patched(overrides, updates);
    }

    method ReplaceOverrides(next: Values) returns (error: Option<ValueError>)
      requires Valid()
      modifies this
      ensures Valid()
      ensures error == if |next| > MAX_RUNTIME_KEYS then Some(InvalidConfig)
                       else if ValidEntries(mutable, next) then None
                       else Some(UpdateRejected)
      ensures overrides == if error.None? then next else old(overrides)
    {
      if |next| > MAX_RUNTIME_KEYS {
        return Some(InvalidConfig);
      }
      var keys := next.Keys;
      while keys != {}
        invariant keys <= next.Keys
        invariant forall k | k in next && k !in keys :: ValidUpdate(mutable, k, Some(next[k]))
        decreases |keys|
      {
        var k :| k in keys;
        if !ValidUpdate(mutable, k, Some(next[k])) {
          return Some(UpdateRejected);
        }
        keys := keys - {k};
      }
      overrides := next;
      error := None;
    }
  }

  lemma PatchStaysAllowed(mutable: set<Key>, current: Values, updates: seq<Update>)
    requires current.Keys <= mutable && DistinctKeys(updates)
    requires forall i | 0 <= i < |updates| :: ValidUpdate(mutable, updates[i].key, updates[i].value)
    ensures Patched(current, updates).Keys <= mutable
  {
    PatchedLookup(current, updates);
    forall k | k in Patched(current, updates)
      ensures k in mutable
    {
      if Names(updates, k) {
        var i :| 0 <= i < |updates| && updates[i].key == k;
        assert ValidUpdate(mutable, updates[i].key, updates[i].value);
      }
    }
  }

  /** Builds a handle from the configured allowlist and baseline. */
  method NewHandle(mutable: seq<Key>, initial: seq<(Key, string)>) returns (r: Result<Handle, ValueError>)
    ensures r.Ok? <==>
            && |mutable| <= MAX_RUNTIME_KEYS && Distinct(mutable) && AllValid(mutable)
            && ValidInitial(Members(mutable), initial)
    ensures r.Ok? ==>
              && r.value.Valid() && r.value.overrides == map[] && fresh(r.value)
              && r.value.mutable == Members(mutable)
              && r.value.baseline.Keys == Members(InitialKeys(initial)) <= r.value.mutable
              && forall i | 0 <= i < |initial| ::
                   initial[i].0 in r.value.baseline && r.value.baseline[initial[i].0] == initial[i].1
  {
    hide Distinct, AllValid, ValidInitial;
    var allowed := AllowKeys(mutable);
    AllowKeysAreBounded(mutable);
    AllowKeysIff(mutable);
    if allowed.Err? {
      return Err(allowed.error);
    }
    assert allowed.value == Members(mutable);
    var baseline := BaselineFrom(allowed.value, initial);
    BaselineIff(allowed.value, initial);
    if baseline.Err? {
      return Err(baseline.error);
    }
    BaselineMeans(allowed.value, initial);
    var handle := new Handle(allowed.value, baseline.value);
    r := Ok(handle);
  }
}
