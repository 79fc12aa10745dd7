/**
 * The in-memory audit store: every canonical trade is filed under a freshly
 * issued id, which is also written into the trade's `canonicalId`. Entries are
 * never removed or overwritten.
 *
 * The store's random UUIDs are replaced by a serial counter rendered in
 * decimal; all the model relies on is that each issued id is new.
 */
module Audit {
  import opened Wrappers
  import opened Trades

  // ---------------------------------------------------------------- ids

  function DigitChar(d: nat): (c: char)
    requires d < 10
    ensures '0' <= c <= '9'
  {
    ('0' as int + d) as char
  }

  /** The decimal rendering of `n`, most significant digit first. */
  function Decimal(n: nat): (s: string)
    ensures |s| >= 1
    ensures n >= 10 ==> |s| >= 2
    ensures forall i :: 0 <= i < |s| ==> '0' <= s[i] <= '9'
    decreases n
  {
    if n < 10 then [DigitChar(n)] else Decimal(n / 10) + [DigitChar(n % 10)]
  }

  /** Different serials render differently. */
  lemma {:induction false} DecimalIsInjective(a: nat, b: nat)
    requires Decimal(a) == Decimal(b)
    ensures a == b
    decreases a
  {
    if a >= 10 && b >= 10 {
      var da, db := Decimal(a), Decimal(b);
      assert da[|da| - 1] == db[|db| - 1];
      assert a % 10 == b % 10;
      assert Decimal(a / 10) == da[..|da| - 1] == db[..|db| - 1] == Decimal(b / 10);
      DecimalIsInjective(a / 10, b / 10);
    }
  }

  /** The id issued for the `serial`-th stored trade. */
  function IdOf(serial: nat): string
  {
    Decimal(serial)
  }

  // ---------------------------------------------------------------- the store

  /**
   * The store's invariant, on values: the `k`-th id issued is `IdOf(k)`, the
   * `k`-th trade filed is stored under it and carries it, and every key of
   * the map was issued.
   */
  ghost predicate Consistent(entries: map<string, CanonicalTrade>, next: nat,
                             issued: seq<string>, trail: seq<CanonicalTrade>)
  {
    && |issued| == next
    && |trail| == next
    && (forall k :: 0 <= k < next ==> issued[k] == IdOf(k))
    && (forall k :: 0 <= k < next ==> issued[k] in entries && entries[issued[k]] == trail[k])
    && (forall k :: 0 <= k < next ==> trail[k].canonicalId == Some(issued[k]))
    && (forall id :: id in entries ==> id in issued)
  }

  /** Filing one more trade under the next serial's id keeps the store consistent. */
  lemma FilingKeepsConsistent(entries: map<string, CanonicalTrade>, next: nat,
                              issued: seq<string>, trail: seq<CanonicalTrade>, trade: CanonicalTrade)
    requires Consistent(entries, next, issued, trail)
    ensures IdOf(next) !in entries
    ensures var id := IdOf(next);
      Consistent(entries[id := Stamp(trade, id)], next + 1, issued + [id], trail + [Stamp(trade, id)])
  {
    var id := IdOf(next);
    assert id !in entries by {
      if id in entries {
        var k :| 0 <= k < |issued| && issued[k] == id;
        DecimalIsInjective(k, next);
      }
    }
    var entries', issued', trail' := entries[id := Stamp(trade, id)], issued + [id], trail + [Stamp(trade, id)];
    forall k | 0 <= k < next + 1
      ensures issued'[k] in entries' && entries'[issued'[k]] == trail'[k]
    {
      if k < next {
        assert issued'[k] == issued[k] && trail'[k] == trail[k];
        assert issued[k] in entries;
      }
    }
  }

  class TradeStore {
    /** The audit map, id to trade. */
    var entries: map<string, CanonicalTrade>
    /** How many ids have been issued; the next id is `IdOf(next)`. */
    var next: nat
    /** The ids issued so far, in order. */
    ghost var issued: seq<string>
    /** The trades filed so far, in order, each as stored. */
    ghost var trail: seq<CanonicalTrade>

    ghost predicate Valid()
      reads this
    {
      Consistent(entries, next, issued, trail)
    }

    constructor ()
      ensures Valid()
      ensures entries == map[] && issued == [] && trail == []
    {
      entries := map[];
      next := 0;
      issued := [];
      trail := [];
    }

    /** No id is issued twice. */
    lemma IssuedAreDistinct()
      requires Valid()
      ensures forall i, j :: 0 <= i < j < |issued| ==> issued[i] != issued[j]
    {
      forall i, j | 0 <= i < j < |issued|
        ensures issued[i] != issued[j]
      {
        if issued[i] == issued[j] {
          DecimalIsInjective(i, j);
        }
      }
    }

    /** Every stored trade carries the id it is stored under. */
    lemma EntriesCarryTheirIds()
      requires Valid()
      ensures forall id :: id in entries ==> entries[id].canonicalId == Some(id)
    {
      forall id | id in entries
        ensures entries[id].canonicalId == Some(id)
      {
        var k :| 0 <= k < |issued| && issued[k] == id;
      }
    }

    /**
     * Issues a fresh id, stamps it on the trade and files the stamped trade
     * under it. The old entries are kept as they were.
     */
    method Store(trade: CanonicalTrade) returns (id: string)
      requires Valid()
      modifies this
      ensures Valid()
      ensures id !in old(entries)
      ensures entries == old(entries)[id := Stamp(trade, id)]
      ensures issued == old(issued) + [id]
      ensures trail == old(trail) + [Stamp(trade, id)]
    {
      id := IdOf(next);
      FilingKeepsConsistent(entries, next, issued, trail, trade);
      entries := entries[id := Stamp(trade, id)];
      next := next + 1;
      issued := issued + [id];
      trail := trail + [Stamp(trade, id)];
    }

    /** The trade filed under `id`, or `None` (Java `null`) if no trade was. */
    method Get(id: string) returns (found: Option<CanonicalTrade>)
      requires Valid()
      ensures found.Some? <==> id in entries
      ensures found.Some? ==> found.value == entries[id]
      ensures found.Some? ==> found.value.canonicalId == Some(id)
    {
      EntriesCarryTheirIds();
      if id in entries {
        found := Some(entries[id]);
      } else {
        found := None;
      }
    }
  }

  /** Looking up the id that `Store` returned yields the trade, stamped with that id. */
  method StoreThenGet(store: TradeStore, trade: CanonicalTrade) returns (id: string, found: Option<CanonicalTrade>)
    requires store.Valid()
    modifies store
    ensures store.Valid()
    ensures found == Some(Stamp(trade, id))
    ensures found.value.canonicalId == Some(id)
  {
    id := store.Store(trade);
    found := store.Get(id);
  }

  /** Two successive stores issue two different ids and keep both trades. */
  method StoreTwice(store: TradeStore, first: CanonicalTrade, second: CanonicalTrade) returns (id1: string, id2: string)
    requires store.Valid()
    modifies store
    ensures store.Valid()
    ensures id1 != id2
    ensures store.entries == old(store.entries)[id1 := Stamp(first, id1)][id2 := Stamp(second, id2)]
  {
    id1 := store.Store(first);
    id2 := store.Store(second);
  }
}
