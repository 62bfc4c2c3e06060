/** A map filled by a sequence of bindings, the last one winning, where a binding may set a second key as well.
    `alias` says which. */
module Bindings {
  import opened Wrappers

  type Configuration = map<string, string>

  /** What one line amounts to. */
  datatype Entry = Skip | Malformed | Bind(key: string, value: string)

  type Aliasing = string -> Option<string>

  function Put(alias: Aliasing, config: Configuration, key: string, value: string): Configuration {
    var c := config[key := value];
    match alias(key)
    case Some(a) => c[a := value]
    case None => c
  }

  function Take(alias: Aliasing, config: Configuration, e: Entry): Configuration {
    match e
    case Bind(key, value) => Put(alias, config, key, value)
    case _ => config
  }

  function Fold(alias: Aliasing, config: Configuration, entries: seq<Entry>): Configuration
    decreases |entries|
  {
    if entries == [] then config else Fold(alias, Take(alias, config, entries[0]), entries[1..])
  }

  lemma FoldFirst(alias: Aliasing, config: Configuration, e: Entry, entries: seq<Entry>)
    ensures Fold(alias, config, [e] + entries) == Fold(alias, Take(alias, config, e), entries)
  {
    assert ([e] + entries)[1..] == entries;
  }

  // ---------- The last binding wins ----------

  function Lookup(config: Configuration, k: string): Option<string> {
    if k in config then Some(config[k]) else None
  }

  /** The value an entry gives to `k`, directly or as an alias. */
  function Gives(alias: Aliasing, e: Entry, k: string): Option<string> {
    if e.Bind? && (e.key == k || alias(e.key) == Some(k)) then Some(e.value) else None
  }

  /** The value given to `k` by the last of these entries that gives it one. */
  function LastGiven(alias: Aliasing, entries: seq<Entry>, k: string): Option<string> {
    if entries == [] then None
    else
      var g := Gives(alias, entries[|entries| - 1], k);
      if g.Some? then g else LastGiven(alias, entries[..|entries| - 1], k)
  }

  lemma TakeLookup(alias: Aliasing, config: Configuration, e: Entry, k: string)
    ensures Lookup(Take(alias, config, e), k) ==
            if Gives(alias, e, k).Some? then Gives(alias, e, k) else Lookup(config, k)
  {
  }

  lemma {:induction false} FoldAppend(alias: Aliasing, config: Configuration, a: seq<Entry>, b: seq<Entry>)
    ensures Fold(alias, config, a + b) == Fold(alias, Fold(alias, config, a), b)
    decreases |a|
  {
    if a == [] {
      assert a + b == b;
    } else {
      assert (a + b)[1..] == a[1..] + b;
      FoldAppend(alias, Take(alias, config, a[0]), a[1..], b);
    }
  }

  lemma {:induction false} FoldLookup(alias: Aliasing, config: Configuration, entries: seq<Entry>, k: string)
    ensures Lookup(Fold(alias, config, entries), k) ==
            if LastGiven(alias, entries, k).Some? then LastGiven(alias, entries, k) else Lookup(config, k)
    decreases |entries|
  {
    if entries != [] {
      var n := |entries| - 1;
      FoldLookup(alias, config, entries[..n], k);
      FoldAppend(alias, config, entries[..n], [entries[n]]);
      assert entries[..n] + [entries[n]] == entries;
      TakeLookup(alias, Fold(alias, config, entries[..n]), entries[n], k);
    }
  }

  /** What "last" means: the position after which no entry gives the key a value. */
  lemma {:induction false} LastGivenAt(alias: Aliasing, entries: seq<Entry>, k: string) returns (i: nat)
    requires LastGiven(alias, entries, k).Some?
    ensures i < |entries| && Gives(alias, entries[i], k) == LastGiven(alias, entries, k)
    ensures forall j :: i < j < |entries| ==> Gives(alias, entries[j], k).None?
  {
    var n := |entries| - 1;
    if Gives(alias, entries[n], k).Some? {
      i := n;
    } else {
      i := LastGivenAt(alias, entries[..n], k);
      assert forall j :: i < j < n ==> entries[..n][j] == entries[j];
    }
  }

  lemma {:induction false} NeverGiven(alias: Aliasing, entries: seq<Entry>, k: string)
    ensures LastGiven(alias, entries, k).None? <==> forall i :: 0 <= i < |entries| ==> Gives(alias, entries[i], k).None?
  {
    if entries != [] {
      var n := |entries| - 1;
      NeverGiven(alias, entries[..n], k);
      assert forall i :: 0 <= i < n ==> entries[..n][i] == entries[i];
    }
  }

  lemma SameLookups(c: Configuration, d: Configuration)
    requires forall k :: Lookup(c, k) == Lookup(d, k)
    ensures c == d
  {
    forall k | k in c.Keys + d.Keys ensures k in c && k in d && c[k] == d[k] {
      assert Lookup(c, k) == Lookup(d, k);
    }
    assert c.Keys == d.Keys;
  }

  /** Starting from a configuration is overriding it. */
  lemma FoldOverrides(alias: Aliasing, config: Configuration, entries: seq<Entry>)
    ensures Fold(alias, config, entries) == config + Fold(alias, map[], entries)
  {
    forall k ensures Lookup(Fold(alias, config, entries), k) == Lookup(config + Fold(alias, map[], entries), k) {
      FoldLookup(alias, config, entries, k);
      FoldLookup(alias, map[], entries, k);
    }
    SameLookups(Fold(alias, config, entries), config + Fold(alias, map[], entries));
  }

  // ---------- Settings ----------

  datatype Setting = Setting(key: string, value: string)

  function PutAll(alias: Aliasing, config: Configuration, settings: seq<Setting>): Configuration {
    if settings == [] then config
    else
      var s := settings[|settings| - 1];
      Put(alias, PutAll(alias, config, settings[..|settings| - 1]), s.key, s.value)
  }

  /** Settings with distinct keys that set no alias are exactly what is in the map afterwards. */
  lemma {:induction false} PlainSettings(alias: Aliasing, settings: seq<Setting>)
    requires forall i :: 0 <= i < |settings| ==> alias(settings[i].key).None?
    requires forall i, j :: 0 <= i < j < |settings| ==> settings[i].key != settings[j].key
    ensures forall i :: 0 <= i < |settings| ==>
              Lookup(PutAll(alias, map[], settings), settings[i].key) == Some(settings[i].value)
    ensures forall k :: k in PutAll(alias, map[], settings) ==> exists i :: 0 <= i < |settings| && settings[i].key == k
  {
    if settings != [] {
      var n := |settings| - 1;
      PlainSettings(alias, settings[..n]);
      var prior := PutAll(alias, map[], settings[..n]);
      assert PutAll(alias, map[], settings) == prior[settings[n].key := settings[n].value];
      forall i | 0 <= i < n
        ensures Lookup(PutAll(alias, map[], settings), settings[i].key) == Some(settings[i].value)
      {
        assert settings[..n][i] == settings[i];
      }
      forall k | k in prior ensures exists i :: 0 <= i < |settings| && settings[i].key == k {
        var i :| 0 <= i < n && settings[..n][i].key == k;
        assert settings[i].key == k;
      }
    }
  }

  // ---------- Entering a configuration again ----------

  /** Keys that some other key sets as its alias. */
  ghost predicate Target(alias: Aliasing, a: string) {
    exists k :: alias(k) == Some(a)
  }

  ghost predicate TargetsSetNothing(alias: Aliasing) {
    forall a :: Target(alias, a) ==> alias(a).None?
  }

  /** Where a key is, its alias is too. */
  ghost predicate AliasClosed(alias: Aliasing, config: Configuration) {
    forall k :: k in config && alias(k).Some? ==> alias(k).value in config
  }

  lemma {:induction false} FoldAliasClosed(alias: Aliasing, config: Configuration, entries: seq<Entry>)
    requires AliasClosed(alias, config) && TargetsSetNothing(alias)
    ensures AliasClosed(alias, Fold(alias, config, entries))
    decreases |entries|
  {
    if entries != [] {
      var e := entries[0];
      if e.Bind? && alias(e.key).Some? {
        assert Target(alias, alias(e.key).value);
      }
      FoldAliasClosed(alias, Take(alias, config, e), entries[1..]);
    }
  }

  function Listed(config: Configuration, order: seq<string>): seq<Setting>
    requires forall i :: 0 <= i < |order| ==> order[i] in config
  {
    seq(|order|, i requires 0 <= i < |order| => Setting(order[i], config[order[i]]))
  }

  ghost predicate TargetsLast(alias: Aliasing, order: seq<string>) {
    forall i, j :: 0 <= i < j < |order| && Target(alias, order[i]) ==> Target(alias, order[j])
  }

  /** Setting entries of a configuration one by one never leaves it, and what is set stays set when the targets
      come last. */
  lemma {:induction false} PutListed(alias: Aliasing, config: Configuration, order: seq<string>)
    requires AliasClosed(alias, config) && TargetsSetNothing(alias) && TargetsLast(alias, order)
    requires forall i :: 0 <= i < |order| ==> order[i] in config
    ensures var r := PutAll(alias, map[], Listed(config, order));
            && r.Keys <= config.Keys
            && (forall i :: 0 <= i < |order| ==> order[i] in r && r[order[i]] == config[order[i]])
  {
    if order != [] {
      var n := |order| - 1;
      assert forall i :: 0 <= i < n ==> order[..n][i] == order[i];
      PutListed(alias, config, order[..n]);
      assert Listed(config, order)[..n] == Listed(config, order[..n]);
      var prior, k := PutAll(alias, map[], Listed(config, order[..n])), order[n];
      assert PutAll(alias, map[], Listed(config, order)) == Put(alias, prior, k, config[k]);
      if alias(k).Some? {
        var a := alias(k).value;
        assert Target(alias, a) && !Target(alias, k);
        forall i | 0 <= i < n ensures order[i] != a {
          assert !Target(alias, order[i]);
        }
        assert a != k;
      }
    }
  }

  /** In an order that names every key, the configuration comes back. */
  lemma ListedReturns(alias: Aliasing, config: Configuration, order: seq<string>)
    requires AliasClosed(alias, config) && TargetsSetNothing(alias) && TargetsLast(alias, order)
    requires forall k :: k in config <==> k in order
    ensures PutAll(alias, map[], Listed(config, order)) == config
  {
    assert forall i :: 0 <= i < |order| ==> order[i] in order;
    PutListed(alias, config, order);
    var r := PutAll(alias, map[], Listed(config, order));
    forall k | k in config ensures k in r && r[k] == config[k] {
      var i :| 0 <= i < |order| && order[i] == k;
    }
    assert r.Keys == config.Keys;
  }
}
