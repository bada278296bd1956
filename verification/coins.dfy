/**
  The `supportedCoins` alias table and the lookup that scans it: the first key,
  in declaration order, that occurs in the lower-cased request text selects the
  coin identifier.
 */
module Coins {
  import opened Wrappers
  import opened Strings

  /** The alias table, as (key, coin identifier) pairs in declaration order. */
  const Table: seq<(string, string)> := [
    ("bitcoin", "bitcoin"),
    ("btc", "bitcoin"),
    ("ethereum", "ethereum"),
    ("eth", "ethereum"),
    ("solana", "solana"),
    ("sol", "solana"),
    ("dogecoin", "dogecoin"),
    ("doge", "dogecoin"),
    ("ton", "the-open-network")
  ]

  /** The identifiers the table can produce. */
  const Ids: set<string> := set i | 0 <= i < |Table| :: Table[i].1

  /** Entry `i` is the one `.find` stops at: its key occurs in `text` and no earlier key does. */
  predicate IsFirstMatch(text: string, i: int) {
    && 0 <= i < |Table|
    && Includes(text, Table[i].0)
    && forall j :: 0 <= j < i ==> !Includes(text, Table[j].0)
  }

  /** The index of the first entry at or after `from` whose key occurs in `text`. */
  function FirstMatchFrom(text: string, from: nat): (r: Option<nat>)
    requires from <= |Table|
    ensures r.Some? ==> from <= r.value < |Table| && Includes(text, Table[r.value].0)
    ensures r.Some? ==> forall j :: from <= j < r.value ==> !Includes(text, Table[j].0)
    ensures r.None? ==> forall j :: from <= j < |Table| ==> !Includes(text, Table[j].0)
    decreases |Table| - from
  {
    if from == |Table| then None
    else if Includes(text, Table[from].0) then Some(from)
    else FirstMatchFrom(text, from + 1)
  }

  /** `Object.keys(supportedCoins).find((key) => text.includes(key))`, as an index into the table. */
  function MatchIndex(text: string): (r: Option<nat>)
    ensures r.Some? ==> IsFirstMatch(text, r.value)
    ensures r.None? ==> forall j :: 0 <= j < |Table| ==> !Includes(text, Table[j].0)
  {
    FirstMatchFrom(text, 0)
  }

  /** The key `.find` returns, if any. */
  function LookupKey(text: string): (r: Option<string>)
    ensures r.Some? ==> exists i :: 0 <= i < |Table| && Table[i].0 == r.value
    ensures r.None? ==> forall j :: 0 <= j < |Table| ==> !Includes(text, Table[j].0)
  {
    match MatchIndex(text)
    case Some(i) => Some(Table[i].0)
    case None => None
  }

  /** `supportedCoins[coinKey]` for the key found, if any. */
  function Lookup(text: string): (r: Option<string>)
    ensures r.Some? ==> r.value in Ids
    ensures r.Some? <==> LookupKey(text).Some?
    ensures r.Some? ==> (LookupKey(text).value, r.value) in Table
  {
    match MatchIndex(text)
    case Some(i) => Some(Table[i].1)
    case None => None
  }

  /** There is at most one first match. */
  lemma FirstMatchUnique(text: string, i: int, j: int)
    requires IsFirstMatch(text, i) && IsFirstMatch(text, j)
    ensures i == j
  {
  }

  /** The lookup finds exactly the entry the first-match rule names. */
  lemma MatchIndexIsFirstMatch(text: string, i: int)
    ensures MatchIndex(text) == Some(i) <==> IsFirstMatch(text, i)
  {
    if IsFirstMatch(text, i) {
      match MatchIndex(text)
      case Some(k) => FirstMatchUnique(text, i, k);
      case None =>
    }
  }

  /** The lookup yields identifier `id` exactly when the first key contained in `text` maps to `id`. */
  lemma LookupFirstMatch(text: string, id: string)
    ensures Lookup(text) == Some(id) <==> exists i :: IsFirstMatch(text, i) && Table[i].1 == id
  {
    if exists i :: IsFirstMatch(text, i) && Table[i].1 == id {
      var i :| IsFirstMatch(text, i) && Table[i].1 == id;
      MatchIndexIsFirstMatch(text, i);
    }
  }

  /** The lookup misses exactly when no key of the table occurs in `text`. */
  lemma LookupNoneIff(text: string)
    ensures Lookup(text).None? <==> forall j :: 0 <= j < |Table| ==> !Includes(text, Table[j].0)
  {
    if Lookup(text).Some? {
      assert Includes(text, Table[MatchIndex(text).value].0);
    }
  }

  /** `.find` returns key `k` exactly when `k` is the first key, in declaration
      order, that occurs in `text`. */
  lemma LookupKeyFirstMatch(text: string, k: string)
    ensures LookupKey(text) == Some(k) <==> exists i :: IsFirstMatch(text, i) && Table[i].0 == k
  {
    if exists i :: IsFirstMatch(text, i) && Table[i].0 == k {
      var i :| IsFirstMatch(text, i) && Table[i].0 == k;
      MatchIndexIsFirstMatch(text, i);
    }
  }

  /** The lookup reads the text only through `includes`, so it is blind to case
      once the text has been lower-cased: every key is lower-case. */
  lemma KeysAreLowerCase()
    ensures forall j :: 0 <= j < |Table| ==> NoUpper(Table[j].0) && Table[j].0 != ""
  {
  }

  /** A key that occurs in the raw text still occurs after lower-casing it. */
  lemma {:induction false} LowerKeepsMatch(text: string, key: string)
    requires NoUpper(key)
    ensures Includes(text, key) ==> Includes(ToLower(text), key)
  {
    if Includes(text, key) {
      var i :| 0 <= i <= |text| - |key| && IncludesAt(text, key, i);
      var lowered := ToLower(text);
      forall k | 0 <= k < |key|
        ensures lowered[i..i + |key|][k] == key[k]
      {
        assert text[i + k] == text[i..i + |key|][k] == key[k];
      }
      assert lowered[i..i + |key|] == key;
      assert IncludesAt(lowered, key, i);
    }
  }

  /** A key written in capitals in the raw text occurs, in its own lower case,
      in the lower-cased text: the matching is case-insensitive. */
  lemma {:induction false} UpperKeyMatchesLowered(text: string, key: string)
    requires NoUpper(key) && Includes(text, ToUpper(key))
    ensures Includes(ToLower(text), key)
  {
    var upper := ToUpper(key);
    ToLowerOfNoUpper(key);
    assert ToLower(upper) == key;
    var i :| 0 <= i <= |text| - |upper| && IncludesAt(text, upper, i);
    var lowered := ToLower(text);
    forall k | 0 <= k < |key|
      ensures lowered[i..i + |key|][k] == key[k]
    {
      assert text[i + k] == text[i..i + |upper|][k] == upper[k];
      assert lowered[i + k] == ToLower(upper)[k];
    }
    assert lowered[i..i + |key|] == key;
    assert IncludesAt(lowered, key, i);
  }

  /** Lower-casing the text before the lookup loses no match: whenever some key
      occurs in the raw text, the lookup on the lower-cased text hits. */
  lemma LookupHitsAfterLower(text: string, j: int)
    requires 0 <= j < |Table| && Includes(text, Table[j].0)
    ensures Lookup(ToLower(text)).Some?
  {
    KeysAreLowerCase();
    LowerKeepsMatch(text, Table[j].0);
    LookupNoneIff(ToLower(text));
  }

  /** No key occurs inside a key declared after it, so the declaration order never
      lets an earlier alias shadow a later one. */
  lemma KeyExcludesEarlier(i: int, j: int)
    requires 0 <= j < i < |Table|
    ensures !Includes(Table[i].0, Table[j].0)
  {
    var key, earlier := Table[i].0, Table[j].0;
    if |earlier| > |key| {
    } else if i == 2 || i == 3 {
      MissingCharExcludes(key, earlier, 'b');
    } else if i == 4 || i == 5 || i == 8 {
      if j == 1 {
        MissingCharExcludes(key, earlier, 'b');
      } else if j == 3 {
        MissingCharExcludes(key, earlier, 'e');
      } else {
        MissingCharExcludes(key, earlier, 's');
      }
    } else if j <= 1 {
      MissingCharExcludes(key, earlier, 'b');
    } else if j <= 3 {
      MissingCharExcludes(key, earlier, 't');
    } else {
      MissingCharExcludes(key, earlier, 's');
    }
  }

  /** Every alias, looked up on its own, selects its own entry of the table. */
  lemma {:induction false} EveryKeySelectsItself()
    ensures forall i :: 0 <= i < |Table| ==> LookupKey(Table[i].0) == Some(Table[i].0)
    ensures forall i :: 0 <= i < |Table| ==> Lookup(Table[i].0) == Some(Table[i].1)
  {
    forall i | 0 <= i < |Table|
      ensures IsFirstMatch(Table[i].0, i)
    {
      IncludesInfix("", Table[i].0, "");
      assert "" + Table[i].0 + "" == Table[i].0;
      forall j | 0 <= j < i
        ensures !Includes(Table[i].0, Table[j].0)
      {
        KeyExcludesEarlier(i, j);
      }
    }
    forall i | 0 <= i < |Table|
      ensures MatchIndex(Table[i].0) == Some(i)
    {
      MatchIndexIsFirstMatch(Table[i].0, i);
    }
  }

  /** `.find` as the loop that walks the keys in order, testing each with `includes`. */
  method FindKey(text: string) returns (key: Option<string>)
    ensures key == LookupKey(text)
  {
    var i := 0;
    while i < |Table|
      invariant 0 <= i <= |Table|
      invariant forall j :: 0 <= j < i ==> !Includes(text, Table[j].0)
    {
      var hit := Contains(text, Table[i].0);
      if hit {
        MatchIndexIsFirstMatch(text, i);
        return Some(Table[i].0);
      }
      i := i + 1;
    }
    LookupNoneIff(text);
    return None;
  }
}
