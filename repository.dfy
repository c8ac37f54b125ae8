/**
 * The template repository of DBHandler.cs as the state behind its SQL: the
 * `user` table (a set of names) and the `audio_file` table (rows of user name
 * and feature sequence, in insertion order). SQLite, the transactions and the
 * JSON blob encoding are not modelled: a sequence is stored and read back as
 * the value it is.
 */
module Repository {
  import opened Types

  /** A `KeyValuePair<string, Sequence>` as a caller builds it: either part may be null. */
  datatype Item = Item(key: Option<string>, value: Option<Sequence>)

  /** The item a stored row came from. */
  function ItemOf(e: Entry): Item
  {
    Item(Some(e.owner), Some(e.features))
  }

  /** The names of a list of rows, as a set. */
  function NameSet(entries: seq<Entry>): set<string>
  {
    set e | e in entries :: e.owner
  }

  /** Taking one more item out of the bag adds it to what has been taken. */
  lemma TakenGrows(original: multiset<Item>, remaining: multiset<Item>, item: Item)
    requires item in remaining && remaining <= original
    ensures remaining - multiset{item} <= original
    ensures original - (remaining - multiset{item}) == (original - remaining) + multiset{item}
  {
  }

  /** The rows of a bulk insert account for the storable items taken from the bag so far. */
  ghost predicate Accounts(pending: seq<Entry>, taken: multiset<Item>)
  {
    && (forall e :: e in pending ==> e.owner != "")
    && (forall e: Entry :: e.owner != "" ==> multiset(pending)[e] == taken[ItemOf(e)])
  }

  /** Taking an item with a missing or empty name or a missing sequence adds no row. */
  lemma SkipStep(pending: seq<Entry>, taken: multiset<Item>, item: Item)
    requires Accounts(pending, taken)
    requires item.key.None? || item.key.value == "" || item.value.None?
    ensures Accounts(pending, taken + multiset{item})
  {
    assert forall e: Entry :: e.owner != "" ==> ItemOf(e) != item;
  }

  /** Taking a storable item adds exactly its row. */
  lemma KeepStep(pending: seq<Entry>, taken: multiset<Item>, e: Entry)
    requires Accounts(pending, taken) && e.owner != ""
    ensures Accounts(pending + [e], taken + multiset{ItemOf(e)})
  {
    assert multiset(pending + [e]) == multiset(pending) + multiset{e};
    forall e': Entry | e'.owner != ""
      ensures multiset(pending + [e])[e'] == (taken + multiset{ItemOf(e)})[ItemOf(e')]
    {
      assert ItemOf(e') == ItemOf(e) <==> e' == e;
    }
  }

  lemma NameSetConcat(a: seq<Entry>, b: seq<Entry>)
    ensures NameSet(a + b) == NameSet(a) + NameSet(b)
  {
    assert forall x :: x in a + b <==> x in a || x in b;
  }

  /** `counts` has a key for every name of the list and counts its occurrences. */
  ghost predicate Counts(counts: map<string, nat>, names: seq<string>)
  {
    && (forall u :: u in counts <==> u in names)
    && (forall u :: u in counts ==> counts[u] == multiset(names)[u])
  }

  /** Counting one more name: add the key at 0 if it is new, then increment it. */
  lemma CountStep(counts: map<string, nat>, names: seq<string>, key: string)
    requires Counts(counts, names)
    ensures var started := if key in counts then counts else counts[key := 0];
      Counts(started[key := started[key] + 1], names + [key])
  {
    assert multiset(names + [key]) == multiset(names) + multiset{key};
  }

  /** A name is the owner of some row exactly when it occurs in the owner column. */
  lemma OwnersAndNames(entries: seq<Entry>)
    ensures forall name :: name in NameSet(entries) <==> name in Owners(entries)
  {
    forall name | name in NameSet(entries)
      ensures name in Owners(entries)
    {
      var e :| e in entries && e.owner == name;
      var k :| 0 <= k < |entries| && entries[k] == e;
      assert Owners(entries)[k] == name;
    }
  }

  /** The sum of the counts of a frequency map. */
  ghost function Total(counts: map<string, nat>): nat
    decreases |counts|
  {
    if counts == map[] then 0
    else
      var k :| k in counts;
      counts[k] + Total(counts - {k})
  }

  /** `Total` does not depend on which key it takes first. */
  lemma TotalRemove(counts: map<string, nat>, k: string)
    requires k in counts
    ensures Total(counts) == counts[k] + Total(counts - {k})
    decreases |counts|
  {
    var j :| j in counts && Total(counts) == counts[j] + Total(counts - {j});
    if j != k {
      var withoutJ, withoutK := counts - {j}, counts - {k};
      assert |withoutJ| < |counts| && |withoutK| < |counts|;
      TotalRemove(withoutJ, k);
      TotalRemove(withoutK, j);
      assert withoutJ - {k} == withoutK - {j};
    }
  }

  /** The names other than `k`, in order. */
  function Without(names: seq<string>, k: string): (r: seq<string>)
  {
    if names == [] then []
    else (if names[0] == k then [] else [names[0]]) + Without(names[1..], k)
  }

  lemma {:induction false} WithoutCounts(names: seq<string>, k: string)
    ensures |Without(names, k)| + multiset(names)[k] == |names|
    ensures forall u :: u in Without(names, k) <==> u in names && u != k
    ensures forall u :: u != k ==> multiset(Without(names, k))[u] == multiset(names)[u]
  {
    if names != [] {
      WithoutCounts(names[1..], k);
      assert names == [names[0]] + names[1..];
    }
  }

  /** A map that counts every name of a list has counts adding up to the length of the list. */
  lemma {:induction false} CountsSumToLength(counts: map<string, nat>, names: seq<string>)
    requires forall u :: u in counts <==> u in names
    requires forall u :: u in counts ==> counts[u] == multiset(names)[u]
    ensures Total(counts) == |names|
    decreases |counts|
  {
    if counts != map[] {
      var k :| k in counts;
      TotalRemove(counts, k);
      WithoutCounts(names, k);
      var rest := counts - {k};
      assert |rest| < |counts|;
      CountsSumToLength(rest, Without(names, k));
    }
  }

  /** A `ConcurrentBag`: an unordered collection that `TryTake` drains one item at a time. */
  class Bag {
    var items: multiset<Item>

    constructor (contents: multiset<Item>)
      ensures items == contents
    {
      items := contents;
    }

    /** Removes some item, in an order the bag does not specify. */
    method TryTake() returns (taken: bool, item: Item)
      modifies this
      ensures taken <==> old(items) != multiset{}
      ensures taken ==> item in old(items) && items == old(items) - multiset{item}
      ensures !taken ==> items == old(items)
    {
      if items == multiset{} {
        return false, Item(None, None);
      }
      item :| item in items;
      items := items - multiset{item};
      taken := true;
    }
  }

  class TemplateStore {
    /** The `user` table. */
    var users: set<string>
    /** The `audio_file` table, in the order `SELECT` returns it. */
    var rows: seq<Entry>

    /** Every row's owner is a stored user (the foreign key), and no stored user name is empty. */
    ghost predicate Valid()
      reads this
      ensures Valid() ==> forall e :: e in rows ==> e.owner in users && e.owner != ""
    {
      NameSet(rows) <= users && "" !in users
    }

    /** `CreateTables` on a new database: both tables exist and are empty. */
    constructor ()
      ensures Valid() && users == {} && rows == []
    {
      users := {};
      rows := [];
    }

    /** `ResetTables`: deletes every audio row and every user. */
    method ResetTables()
      modifies this
      ensures Valid() && users == {} && rows == []
    {
      rows := [];
      users := {};
    }

    /** `InsertUserAndAudio`: adds the user if absent and appends exactly one row. */
    method InsertUserAndAudio(userName: Option<string>, features: Option<Sequence>) returns (r: Outcome)
      requires Valid()
      modifies this
      ensures Valid()
      ensures userName.None? || userName.value == "" || features.None? ==>
                r == Fail(ArgumentException) && users == old(users) && rows == old(rows)
      ensures userName.Some? && userName.value != "" && features.Some? ==>
                && r == Pass
                && users == old(users) + {userName.value}
                && rows == old(rows) + [Entry(userName.value, features.value)]
    {
      if userName.None? || userName.value == "" || features.None? {
        return Fail(ArgumentException);
      }
      users := users + {userName.value};
      rows := rows + [Entry(userName.value, features.value)];
      r := Pass;
    }

    /**
     * `InsertBulkUserAndAudio`: drains the bag, appending one row per storable
     * item in the order the bag gives them up and skipping the others.
     */
    method InsertBulkUserAndAudio(dataBag: Bag?) returns (r: Outcome)
      requires Valid()
      modifies this, dataBag
      ensures Valid()
      ensures dataBag == null || old(dataBag.items) == multiset{} ==>
                r == Fail(ArgumentException) && users == old(users) && rows == old(rows)
                && (dataBag != null ==> dataBag.items == old(dataBag.items))
      ensures dataBag != null && old(dataBag.items) != multiset{} ==>
                && r == Pass
                && dataBag.items == multiset{}
                && |rows| >= |old(rows)| && rows[..|old(rows)|] == old(rows)
                && (forall e :: e in rows[|old(rows)|..] ==> e.owner != "")
                && (forall e: Entry :: e.owner != "" ==>
                      multiset(rows[|old(rows)|..])[e] == old(dataBag.items)[ItemOf(e)])
                && users == old(users) + NameSet(rows[|old(rows)|..])
    {
      if dataBag == null || dataBag.items == multiset{} {
        return Fail(ArgumentException);
      }
      ghost var original := dataBag.items;
      // The rows written inside the transaction, visible once it commits.
      var pending: seq<Entry> := [];
      while true
        invariant dataBag.items <= original
        invariant Accounts(pending, original - dataBag.items)
        modifies dataBag
        decreases |dataBag.items|
      {
        ghost var remaining := dataBag.items;
        var taken, item := dataBag.TryTake();
        if !taken {
          break;
        }
        TakenGrows(original, remaining, item);
        if item.key.None? || item.key.value == "" || item.value.None? {
          SkipStep(pending, original - remaining, item);
          continue;
        }
        var e := Entry(item.key.value, item.value.value);
        KeepStep(pending, original - remaining, e);
        pending := pending + [e];
      }
      NameSetConcat(rows, pending);
      users := users + NameSet(pending);
      rows := rows + pending;
      assert rows[|old(rows)|..] == pending;
      r := Pass;
    }

    /** `GetAllAudioFiles`: one (user name, sequence) pair per stored row, in table order. */
    method GetAllAudioFiles() returns (result: seq<Entry>)
      ensures result == rows
    {
      result := [];
      for index := 0 to |rows|
        invariant result == rows[..index]
      {
        var record := rows[index];
        result := result + [Entry(record.owner, record.features)];
      }
    }

    /** The counting loop of `PrintUserSequenceCounts`: how many rows each user name has. */
    method UserSequenceCounts() returns (freqCounts: map<string, nat>)
      requires Valid()
      ensures forall name :: name in freqCounts <==> name in NameSet(rows)
      ensures forall name :: name in freqCounts ==> name in users
      ensures forall name :: name in freqCounts ==>
                freqCounts[name] == multiset(Owners(rows))[name] && freqCounts[name] >= 1
      ensures Total(freqCounts) == |rows|
    {
      var userSequences := GetAllAudioFiles();
      freqCounts := map[];
      for k := 0 to |userSequences|
        invariant Counts(freqCounts, Owners(userSequences[..k]))
      {
        var key := userSequences[k].owner;
        CountStep(freqCounts, Owners(userSequences[..k]), key);
        if key !in freqCounts {
          freqCounts := freqCounts[key := 0];
        }
        freqCounts := freqCounts[key := freqCounts[key] + 1];
        assert userSequences[..k + 1] == userSequences[..k] + [userSequences[k]];
        assert Owners(userSequences[..k + 1]) == Owners(userSequences[..k]) + [key];
      }
      assert userSequences[..|userSequences|] == userSequences;
      OwnersAndNames(rows);
      CountsSumToLength(freqCounts, Owners(rows));
    }
  }
}
