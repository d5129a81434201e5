/**
 The `Attributes` plugin of an asset or a collection: an ordered list of text key/value pairs, possibly
 with repeated keys. A handler that meets a key twice keeps what it read last.
 */
module Attributes {
  import opened Rust
  import opened Decimal

  datatype Attribute = Attribute(key: string, value: string)

  const KEY_STAKED := "staked"
  const KEY_STAKED_AT := "staked_at"
  const KEY_LAST_CLAIM := "last_claim"
  const KEY_TOTAL_STAKED := "total_staked"
  const KEY_TOTAL_STAKED_LIFETIME := "total_staked_lifetime"

  const STAKING_KEYS := {KEY_STAKED, KEY_STAKED_AT, KEY_LAST_CLAIM}
  const COUNTER_KEYS := {KEY_TOTAL_STAKED, KEY_TOTAL_STAKED_LIFETIME}

  lemma KeysDistinct()
    ensures KEY_STAKED != KEY_STAKED_AT && KEY_STAKED_AT != KEY_LAST_CLAIM && KEY_STAKED != KEY_LAST_CLAIM
    ensures KEY_TOTAL_STAKED != KEY_TOTAL_STAKED_LIFETIME
    ensures "true" != "false"
  {
    assert |KEY_STAKED| == 6 && |KEY_STAKED_AT| == 9 && |KEY_LAST_CLAIM| == 10;
    assert |KEY_TOTAL_STAKED| == 12 && |KEY_TOTAL_STAKED_LIFETIME| == 21;
    assert |"true"| == 4 && |"false"| == 5;
  }

  /** The attributes whose key is not in `keys`, in their order. */
  function Without(list: seq<Attribute>, keys: set<string>): seq<Attribute> {
    if list == [] then []
    else
      var last := list[|list| - 1];
      Without(list[..|list| - 1], keys) + if last.key in keys then [] else [last]
  }

  /** The value of the last attribute under `key`, if there is one. */
  function LastValue(list: seq<Attribute>, key: string): Option<string> {
    if list == [] then None
    else
      var last := list[|list| - 1];
      if last.key == key then Some(last.value) else LastValue(list[..|list| - 1], key)
  }

  /** How many attributes are stored under `key`. */
  function Occurrences(list: seq<Attribute>, key: string): nat {
    if list == [] then 0
    else Occurrences(list[..|list| - 1], key) + if list[|list| - 1].key == key then 1 else 0
  }

  /** Every value under `key` is the text of an `i64`. */
  predicate Parses(list: seq<Attribute>, key: string) {
    forall i | 0 <= i < |list| && list[i].key == key :: ParseI64(list[i].value).Some?
  }

  /** The number last stored under `key`; `default` if there is none or it is not an `i64`. */
  function Number(list: seq<Attribute>, key: string, default: i64): i64 {
    match LastValue(list, key)
    case None => default
    case Some(text) =>
      match ParseI64(text)
      case None => default
      case Some(n) => n
  }

  /** Filtering keeps order and content: an attribute is dropped or kept where it stands. */
  lemma {:induction false} WithoutParts(before: seq<Attribute>, a: Attribute, after: seq<Attribute>, keys: set<string>)
    ensures Without(before + [a] + after, keys) ==
            Without(before, keys) + (if a.key in keys then [] else [a]) + Without(after, keys)
    decreases |after|
  {
    var list := before + [a] + after;
    if after == [] {
      assert list[..|list| - 1] == before && list[|list| - 1] == a;
    } else {
      var front := after[..|after| - 1];
      assert list[..|list| - 1] == before + [a] + front && list[|list| - 1] == after[|after| - 1];
      WithoutParts(before, a, front, keys);
    }
  }

  /** The value read is that of the last attribute under the key; there is none exactly if no attribute has it. */
  lemma {:induction false} LastValueMeaning(list: seq<Attribute>, key: string)
    ensures LastValue(list, key) == None <==> forall i | 0 <= i < |list| :: list[i].key != key
    ensures forall i | 0 <= i < |list| && list[i].key == key && (forall j | i < j < |list| :: list[j].key != key) ::
              LastValue(list, key) == Some(list[i].value)
    decreases |list|
  {
    if list != [] {
      LastValueMeaning(list[..|list| - 1], key);
    }
  }

  /** What pushing one attribute changes, for a filter. */
  lemma PushFiltered(list: seq<Attribute>, a: Attribute, keys: set<string>)
    ensures Without(list + [a], keys) == Without(list, keys) + if a.key in keys then [] else [a]
  {
    assert (list + [a])[..|list|] == list;
  }

  /** What pushing one attribute changes, for the readers of a key. */
  lemma PushRead(list: seq<Attribute>, a: Attribute, key: string)
    ensures LastValue(list + [a], key) == if a.key == key then Some(a.value) else LastValue(list, key)
    ensures Occurrences(list + [a], key) == Occurrences(list, key) + if a.key == key then 1 else 0
  {
    assert (list + [a])[..|list|] == list;
  }

  /** Filtering twice drops the keys of both filters. */
  lemma {:induction false} WithoutTwice(list: seq<Attribute>, some: set<string>, more: set<string>)
    ensures Without(Without(list, some), more) == Without(list, some + more)
  {
    if list != [] {
      var front, last := list[..|list| - 1], list[|list| - 1];
      WithoutTwice(front, some, more);
      PushFiltered(Without(front, some), last, more);
      assert Without(front, some) + [] == Without(front, some);
    }
  }

  lemma {:induction false} WithoutAbsent(list: seq<Attribute>, keys: set<string>, key: string)
    requires key in keys
    ensures Occurrences(Without(list, keys), key) == 0 && LastValue(Without(list, keys), key) == None
  {
    if list != [] {
      var front, last := Without(list[..|list| - 1], keys), list[|list| - 1];
      WithoutAbsent(list[..|list| - 1], keys, key);
      PushRead(front, last, key);
      assert Without(list, keys) == if last.key in keys then front else front + [last];
    }
  }

  /** The staking attributes written behind the others, in the order stake and unstake write them. */
  function Layout(others: seq<Attribute>, staked: string, stakedAt: string, lastClaim: string): seq<Attribute> {
    others + [Attribute(KEY_STAKED, staked), Attribute(KEY_STAKED_AT, stakedAt), Attribute(KEY_LAST_CLAIM, lastClaim)]
  }

  /** What a reader of a list in layout finds: each staking key once, with the value written. */
  lemma LayoutReads(others: seq<Attribute>, staked: string, stakedAt: string, lastClaim: string)
    requires Without(others, STAKING_KEYS) == others
    ensures var list := Layout(others, staked, stakedAt, lastClaim);
            && Without(list, STAKING_KEYS) == others
            && Without(list, {KEY_LAST_CLAIM}) == list[..|list| - 1]
            && LastValue(list, KEY_STAKED) == Some(staked)
            && LastValue(list, KEY_STAKED_AT) == Some(stakedAt)
            && LastValue(list, KEY_LAST_CLAIM) == Some(lastClaim)
            && (forall key <- STAKING_KEYS :: Occurrences(list, key) == 1)
  {
    KeysDistinct();
    var a, b := Attribute(KEY_STAKED, staked), Attribute(KEY_STAKED_AT, stakedAt);
    var c := Attribute(KEY_LAST_CLAIM, lastClaim);
    assert Layout(others, staked, stakedAt, lastClaim) == others + [a] + [b] + [c];
    forall key <- STAKING_KEYS
      ensures Occurrences(others, key) == 0
      ensures Occurrences(others + [a] + [b] + [c], key) == 1
      ensures LastValue(others + [a] + [b] + [c], key) ==
              Some(if key == KEY_STAKED then staked else if key == KEY_STAKED_AT then stakedAt else lastClaim)
    {
      WithoutAbsent(others, STAKING_KEYS, key);
      PushRead(others, a, key);
      PushRead(others + [a], b, key);
      PushRead(others + [a] + [b], c, key);
    }
    PushFiltered(others, a, STAKING_KEYS);
    PushFiltered(others + [a], b, STAKING_KEYS);
    PushFiltered(others + [a] + [b], c, STAKING_KEYS);
    WithoutTwice(others, STAKING_KEYS, {KEY_LAST_CLAIM});
    assert STAKING_KEYS + {KEY_LAST_CLAIM} == STAKING_KEYS;
    PushFiltered(others, a, {KEY_LAST_CLAIM});
    PushFiltered(others + [a], b, {KEY_LAST_CLAIM});
    PushFiltered(others + [a] + [b], c, {KEY_LAST_CLAIM});
  }

  /** The counters written behind the others, in the order the collection update writes them. */
  function CounterLayout(others: seq<Attribute>, current: string, lifetime: string): seq<Attribute> {
    others + [Attribute(KEY_TOTAL_STAKED, current), Attribute(KEY_TOTAL_STAKED_LIFETIME, lifetime)]
  }

  lemma CounterLayoutReads(others: seq<Attribute>, current: string, lifetime: string)
    requires Without(others, COUNTER_KEYS) == others
    ensures var list := CounterLayout(others, current, lifetime);
            && Without(list, COUNTER_KEYS) == others
            && LastValue(list, KEY_TOTAL_STAKED) == Some(current)
            && LastValue(list, KEY_TOTAL_STAKED_LIFETIME) == Some(lifetime)
            && (forall key <- COUNTER_KEYS :: Occurrences(list, key) == 1)
  {
    KeysDistinct();
    var a, b := Attribute(KEY_TOTAL_STAKED, current), Attribute(KEY_TOTAL_STAKED_LIFETIME, lifetime);
    assert CounterLayout(others, current, lifetime) == others + [a] + [b];
    forall key <- COUNTER_KEYS
      ensures Occurrences(others + [a] + [b], key) == 1
      ensures LastValue(others + [a] + [b], key) == Some(if key == KEY_TOTAL_STAKED then current else lifetime)
    {
      WithoutAbsent(others, COUNTER_KEYS, key);
      PushRead(others, a, key);
      PushRead(others + [a], b, key);
    }
    PushFiltered(others, a, COUNTER_KEYS);
    PushFiltered(others + [a], b, COUNTER_KEYS);
  }
}
