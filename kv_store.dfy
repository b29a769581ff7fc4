/** The ordered key-value store the bot keeps its reservations in (a Badger
    database). Only what the bot uses is modelled: iteration in key order,
    prefix iteration and the full wipe. */
module KvStore {
  import opened GoRuntime

  /** One stored pair: (key, value). */
  type Entry = (string, string)

  /** Keys strictly ascending in Go's string order: the store's iteration order,
      with every key present once. */
  predicate KeysAscending(entries: seq<Entry>) {
    forall i, j :: 0 <= i < j < |entries| ==> LexLess(entries[i].0, entries[j].0)
  }

  /** The values of the pairs whose key starts with `prefix`, in key order:
      what a prefix iteration visits. */
  function ScannedValues(entries: seq<Entry>, prefix: string): (vals: seq<string>)
    ensures |vals| <= |entries|
  {
    if |entries| == 0 then []
    else
      var last := entries[|entries| - 1];
      ScannedValues(entries[..|entries| - 1], prefix) + (if HasPrefix(last.0, prefix) then [last.1] else [])
  }

  lemma {:induction false} ScannedAppend(a: seq<Entry>, b: seq<Entry>, prefix: string)
    ensures ScannedValues(a + b, prefix) == ScannedValues(a, prefix) + ScannedValues(b, prefix)
    decreases |b|
  {
    if |b| == 0 {
      assert a + b == a;
    } else {
      ScannedAppend(a, b[..|b| - 1], prefix);
      assert (a + b)[..|a + b| - 1] == a + b[..|b| - 1];
    }
  }

  /** No key carries the prefix: nothing is visited. */
  lemma {:induction false} ScannedNone(entries: seq<Entry>, prefix: string)
    requires forall i :: 0 <= i < |entries| ==> !HasPrefix(entries[i].0, prefix)
    ensures ScannedValues(entries, prefix) == []
    decreases |entries|
  {
    if |entries| > 0 {
      ScannedNone(entries[..|entries| - 1], prefix);
    }
  }

  /** In a key-ascending store, once the scan has reached a key at or above
      the prefix that does not carry it, no later key carries it either: the
      keys with a prefix form one contiguous run. */
  lemma RunEnds(entries: seq<Entry>, prefix: string, i: nat)
    requires KeysAscending(entries)
    requires i < |entries|
    requires !LexLess(entries[i].0, prefix) && !HasPrefix(entries[i].0, prefix)
    ensures ScannedValues(entries[i..], prefix) == []
  {
    var rest := entries[i..];
    forall j | 0 <= j < |rest| ensures !HasPrefix(rest[j].0, prefix) {
      if j > 0 && HasPrefix(rest[j].0, prefix) {
        LexTotal(entries[i].0, prefix);
        assert HasPrefix(prefix, prefix);
        assert LexLess(entries[i].0, entries[i + j].0);
        PrefixBetween(prefix, entries[i].0, rest[j].0, prefix);
      }
    }
    ScannedNone(rest, prefix);
  }

  /** Stepping past a key that carries the prefix keeps the scan at or above
      the prefix. */
  lemma RunContinues(entries: seq<Entry>, prefix: string, i: nat)
    requires KeysAscending(entries)
    requires i < |entries| && HasPrefix(entries[i].0, prefix)
    ensures i + 1 < |entries| ==> !LexLess(entries[i + 1].0, prefix)
  {
    if i + 1 < |entries| {
      PrefixNotBelow(entries[i].0, prefix);
      if LexLess(entries[i + 1].0, prefix) {
        LexTransitive(entries[i].0, entries[i + 1].0, prefix);
      }
    }
  }

  /** The store: a key-ordered sequence of pairs, replaced wholesale when the
      database is changed. */
  class Store {
    var entries: seq<Entry>

    ghost predicate Valid()
      reads this
    {
      KeysAscending(entries)
    }

    /** Iterator.Seek: the position of the first key at or above `prefix`;
        no key before it carries the prefix. */
    method Seek(prefix: string) returns (i: nat)
      requires Valid()
      ensures i <= |entries|
      ensures i < |entries| ==> !LexLess(entries[i].0, prefix)
      ensures forall j :: 0 <= j < i ==> LexLess(entries[j].0, prefix)
      ensures ScannedValues(entries[..i], prefix) == []
    {
      i := 0;
      while i < |entries| && LexLess(entries[i].0, prefix)
        invariant 0 <= i <= |entries|
        invariant forall j :: 0 <= j < i ==> LexLess(entries[j].0, prefix)
      {
        i := i + 1;
      }
      forall j | 0 <= j < i ensures !HasPrefix(entries[..i][j].0, prefix) {
        if HasPrefix(entries[j].0, prefix) { PrefixNotBelow(entries[j].0, prefix); }
      }
      ScannedNone(entries[..i], prefix);
    }

    /** DB.DropAll: every pair is removed. */
    method DropAll()
      modifies this
      ensures Valid()
      ensures entries == []
    {
      entries := [];
    }
  }
}
