/**
 The file-backed channel registry: one record per conversation, and a second index
 by team and agent rebuilt from the same data on every write. The file is a map of
 sections, one per channel, any of which a hand edit may have left unreadable.

 Python walks the sections and records in file order and the last writer of an
 index key wins. Here both walks take the keys in an arbitrary order, so what is
 proved holds for every order, and for the sorted order a reload would see.
 */
module ChannelRegistry {
  import opened Wrappers

  type TeamId = nat

  datatype Address = Address(channel: string, user: string)
  datatype Binding = Binding(channel: string, user: string, team: TeamId, agent: string, metadata: map<string, string>)
  datatype Record = Readable(binding: Binding) | Unreadable
  datatype Section = Users(records: map<string, Record>) | Malformed

  type Data = map<string, Section>

  /** What is on disk: no file, a file whose root is no mapping, or the sections. */
  datatype Disk = Missing | NotMapping | Mapping(data: Data)

  type Index = map<(TeamId, string), Binding>

  /** What `_load` returns. */
  function Load(disk: Disk): Data { if disk.Mapping? then disk.data else map[] }

  /** The readable binding stored for a conversation. */
  function Find(data: Data, address: Address): Option<Binding> {
    if address.channel in data && data[address.channel].Users?
       && address.user in data[address.channel].records && data[address.channel].records[address.user].Readable?
    then Some(data[address.channel].records[address.user].binding)
    else None
  }

  /** The record of a conversation as it stands on file, readable or not. */
  function RecordAt(data: Data, address: Address): Option<Record> {
    if address.channel in data && data[address.channel].Users? && address.user in data[address.channel].records
    then Some(data[address.channel].records[address.user]) else None
  }

  /** Some conversation's stored binding is this one. */
  ghost predicate Stored(data: Data, b: Binding) {
    exists channel, user :: Find(data, Address(channel, user)) == Some(b)
  }

  /** The index answers for exactly the team and agent pairs that some readable record has,
      each time with one of those records. */
  ghost predicate Agrees(index: Index, data: Data) {
    && (forall key <- index :: Stored(data, index[key]) && (index[key].team, index[key].agent) == key)
    && (forall channel, user :: var b := Find(data, Address(channel, user));
          b.Some? ==> (b.value.team, b.value.agent) in index)
  }

  // ----- what each operation does to the data -----

  function Registered(data: Data, b: Binding): Data {
    var records := if b.channel in data && data[b.channel].Users? then data[b.channel].records else map[];
    data[b.channel := Users(records[b.user := Readable(b)])]
  }

  /** A section left empty goes; a missing or malformed one is left alone. */
  function Deregistered(data: Data, address: Address): Data {
    if address.channel !in data || data[address.channel].Malformed? then data
    else
      var records := data[address.channel].records - {address.user};
      if records == map[] then data - {address.channel} else data[address.channel := Users(records)]
  }

  predicate OfTeam(record: Record, team: TeamId) { record.Readable? && record.binding.team == team }

  function PrunedRecords(records: map<string, Record>, team: TeamId): map<string, Record> {
    map user <- records | !OfTeam(records[user], team) :: records[user]
  }

  /** The section loses a record of the team, and has no other. */
  predicate Emptied(section: Section, team: TeamId) {
    section.Users? && PrunedRecords(section.records, team) == map[] && section.records != map[]
  }

  function PrunedSection(section: Section, team: TeamId): Section {
    if section.Users? then Users(PrunedRecords(section.records, team)) else section
  }

  function Pruned(data: Data, team: TeamId): Data {
    map channel <- data | !Emptied(data[channel], team) :: PrunedSection(data[channel], team)
  }

  // ----- what that means for conversations -----

  /** Registering sets its own conversation, keeps every other one's record, and leaves every
      other section as it is, malformed or not. */
  lemma RegisteredFinds(data: Data, b: Binding, other: Address)
    ensures Find(Registered(data, b), Address(b.channel, b.user)) == Some(b)
    ensures other != Address(b.channel, b.user) ==> RecordAt(Registered(data, b), other) == RecordAt(data, other)
    ensures forall channel | channel != b.channel ::
              (channel in Registered(data, b) <==> channel in data) &&
              (channel in data ==> Registered(data, b)[channel] == data[channel])
  {
  }

  /** Releasing clears its own conversation and no other. The section that loses its last record goes;
      every other section stays as it is, and a malformed one even there. */
  lemma DeregisteredFinds(data: Data, address: Address, other: Address)
    ensures RecordAt(Deregistered(data, address), address) == None
    ensures other != address ==> RecordAt(Deregistered(data, address), other) == RecordAt(data, other)
    ensures forall channel <- data | data[channel].Malformed? ::
              channel in Deregistered(data, address) && Deregistered(data, address)[channel].Malformed?
    ensures forall channel | channel != address.channel ::
              (channel in Deregistered(data, address) <==> channel in data) &&
              (channel in data ==> Deregistered(data, address)[channel] == data[channel])
    ensures address.channel in data && data[address.channel].Users? ==>
              (address.channel in Deregistered(data, address) <==>
               exists user <- data[address.channel].records :: user != address.user)
  {
    if address.channel in data && data[address.channel].Users? {
      var records := data[address.channel].records;
      assert other.user in records && other.user != address.user ==> other.user in records - {address.user};
      forall user <- records | user != address.user ensures records - {address.user} != map[] {
        assert user in records - {address.user};
      }
      if records - {address.user} != map[] {
        var user :| user in records - {address.user};
      }
    }
  }

  /** Tearing a team down clears exactly its own conversations; every other record, readable
      or not, stays. A section goes when it had records and all of them were the team's; one that
      was empty before, and a malformed one, stays. */
  lemma PrunedFinds(data: Data, team: TeamId, address: Address)
    ensures RecordAt(Pruned(data, team), address) ==
            var record := RecordAt(data, address);
            if record.Some? && record.value.Readable? && record.value.binding.team == team then None else record
    ensures forall channel <- data | data[channel].Malformed? ::
              channel in Pruned(data, team) && Pruned(data, team)[channel].Malformed?
    ensures forall channel <- data | data[channel].Users? ::
              var records := data[channel].records;
              channel in Pruned(data, team) <==>
              records == map[] || exists user <- records ::
                records[user].Readable? ==> records[user].binding.team != team
    ensures Pruned(data, team).Keys <= data.Keys
  {
    forall channel <- data | data[channel].Users? { PrunedKeeps(data[channel].records, team); }
    if RecordAt(data, address).Some? && !OfTeam(RecordAt(data, address).value, team) {
      assert address.user in PrunedRecords(data[address.channel].records, team);
    }
  }

  lemma PrunedKeeps(records: map<string, Record>, team: TeamId)
    ensures PrunedRecords(records, team) != map[] <==>
              exists user <- records :: records[user].Readable? ==> records[user].binding.team != team
  {
    if user :| user in records && (records[user].Readable? ==> records[user].binding.team != team) {
      assert user in PrunedRecords(records, team);
    }
    if PrunedRecords(records, team) != map[] { var user :| user in PrunedRecords(records, team); }
  }

  /** Releasing one of two chats bound to one agent leaves the other reachable from the agent. */
  lemma ReleaseOneOfTwo(data: Data, gone: Address, kept: Address, index: Index)
    requires gone != kept && Find(data, kept).Some?
    requires Agrees(index, Deregistered(data, gone))
    ensures Find(Deregistered(data, gone), kept) == Find(data, kept)
    ensures (Find(data, kept).value.team, Find(data, kept).value.agent) in index
  {
    DeregisteredFinds(data, gone, kept);
    assert Find(Deregistered(data, gone), Address(kept.channel, kept.user)) == Find(data, kept);
  }

  /** After a team is torn down no index built from the file names it. */
  lemma PrunedIndexForgets(data: Data, team: TeamId, index: Index)
    requires Agrees(index, Pruned(data, team))
    ensures forall key <- index :: key.0 != team
  {
    forall key <- index ensures key.0 != team {
      var channel, user :| Find(Pruned(data, team), Address(channel, user)) == Some(index[key]);
      PrunedFinds(data, team, Address(channel, user));
    }
  }

  // ----- which of several records of one agent the index holds -----

  function Key(b: Binding): (TeamId, string) { (b.team, b.agent) }

  /** No two different bindings on file are of one agent of one team. */
  ghost predicate NoSharedAgent(data: Data) {
    forall b, b' | Stored(data, b) && Stored(data, b') && Key(b) == Key(b') :: b == b'
  }

  lemma AgreeingHolds(index: Index, data: Data, b: Binding)
    requires Agrees(index, data) && Stored(data, b)
    ensures Key(b) in index && Stored(data, index[Key(b)]) && Key(index[Key(b)]) == Key(b)
  {
    var channel, user :| Find(data, Address(channel, user)) == Some(b);
  }

  /** The file determines the index exactly when no two chats on it share an agent. */
  lemma WinnerDeterminedIff(one: Index, data: Data)
    requires Agrees(one, data)
    ensures (forall two: Index | Agrees(two, data) :: two == one) <==> NoSharedAgent(data)
  {
    if NoSharedAgent(data) {
      forall two: Index | Agrees(two, data) ensures two == one { AgreeingEqual(one, two, data); }
    } else {
      var b, b' :| Stored(data, b) && Stored(data, b') && Key(b) == Key(b') && b != b';
      AgreeingHolds(one, data, b);
      var other := if one[Key(b)] == b then b' else b;
      var two := one[Key(b) := other];
      assert Agrees(two, data);
      assert two[Key(b)] != one[Key(b)];
    }
  }

  lemma AgreeingEqual(one: Index, two: Index, data: Data)
    requires Agrees(one, data) && Agrees(two, data) && NoSharedAgent(data)
    ensures two == one
  {
    forall key | key in one ensures key in two && two[key] == one[key] { AgreeingHolds(two, data, one[key]); }
    forall key | key in two ensures key in one { AgreeingHolds(one, data, two[key]); }
  }

  /** So two indexes can agree with one file and name different chats. */
  lemma WinnerNotDetermined()
    ensures exists data: Data, one: Index, two: Index :: Agrees(one, data) && Agrees(two, data) && one != two
  {
    var a, b := Binding("telegram", "1", 5, "@Human", map[]), Binding("telegram", "2", 5, "@Human", map[]);
    var data: Data := map["telegram" := Users(map["1" := Readable(a), "2" := Readable(b)])];
    var one: Index, two: Index := map[(5, "@Human") := a], map[(5, "@Human") := b];
    assert Find(data, Address("telegram", "1")) == Some(a) && Find(data, Address("telegram", "2")) == Some(b);
    assert Agrees(one, data) && Agrees(two, data);
    assert one[(5, "@Human")] != two[(5, "@Human")];
  }

  /** The index that a walk over the records leaves: a later one takes the place of an earlier. */
  function LastWins(walk: seq<Binding>): Index {
    if walk == [] then map[] else
      var last := walk[|walk| - 1];
      LastWins(walk[..|walk| - 1])[Key(last) := last]
  }

  /** The walk meets the readable records on file and nothing else. */
  ghost predicate WalksOver(walk: seq<Binding>, data: Data) {
    forall b :: b in walk <==> Stored(data, b)
  }

  /** Place `i` of the walk holds this binding, and no later place one of the same agent. */
  predicate IsLast(walk: seq<Binding>, i: nat, b: Binding) {
    && i < |walk| && walk[i] == b
    && forall k | i < k < |walk| :: Key(walk[k]) != Key(b)
  }

  /** An index answers with the last record of each agent in the walk, and for no other agent. */
  lemma {:induction false} LastWinsIs(walk: seq<Binding>, b: Binding)
    ensures Key(b) in LastWins(walk) && LastWins(walk)[Key(b)] == b <==> exists i: nat :: IsLast(walk, i, b)
  {
    if walk == [] {
    } else {
      var init, last := walk[..|walk| - 1], walk[|walk| - 1];
      assert walk == init + [last];
      LastWinsIs(init, b);
      IsLastNext(init, last, b);
    }
  }

  lemma IsLastNext(init: seq<Binding>, last: Binding, b: Binding)
    ensures (exists i: nat :: IsLast(init + [last], i, b)) <==>
              if Key(last) == Key(b) then last == b else exists i: nat :: IsLast(init, i, b)
  {
    var all := init + [last];
    assert all[|init|] == last;
    if last == b {
      assert IsLast(all, |init|, b);
    } else if Key(last) != Key(b) {
      forall i: nat | IsLast(init, i, b) ensures IsLast(all, i, b) {}
      forall i: nat | IsLast(all, i, b) ensures IsLast(init, i, b) {
        assert forall k | i < k < |init| :: all[k] == init[k];
      }
    }
  }

  lemma {:induction false} LastWinsKeys(walk: seq<Binding>)
    ensures forall key :: key in LastWins(walk) <==> exists b <- walk :: Key(b) == key
    ensures forall key <- LastWins(walk) :: LastWins(walk)[key] in walk && Key(LastWins(walk)[key]) == key
  {
    if walk == [] {
    } else {
      LastWinsKeys(walk[..|walk| - 1]);
      assert walk == walk[..|walk| - 1] + [walk[|walk| - 1]];
    }
  }

  lemma WalkAgrees(walk: seq<Binding>, data: Data)
    requires WalksOver(walk, data)
    ensures Agrees(LastWins(walk), data)
  {
    LastWinsKeys(walk);
    forall channel, user | Find(data, Address(channel, user)).Some?
      ensures Key(Find(data, Address(channel, user)).value) in LastWins(walk)
    {
      assert Stored(data, Find(data, Address(channel, user)).value);
    }
  }

  // ----- the registry itself -----

  class YamlChannelRegistry {
    const enabled: bool
    var disk: Disk
    var syncIndex: Index

    /** Disabled, the registry holds nothing; enabled, its index agrees with the file. */
    ghost predicate Valid()
      reads this
    {
      if enabled then Agrees(syncIndex, Load(disk)) else syncIndex == map[] && disk == Missing
    }

    constructor (enabled: bool, disk: Disk)
      requires !enabled ==> disk == Missing
      ensures Valid() && this.enabled == enabled && this.disk == disk
      ensures !disk.Mapping? ==> syncIndex == map[]
    {
      this.enabled, this.disk := enabled, disk;
      new;
      var index, _ := IndexFromData(Load(disk));
      syncIndex := index;
    }

    /** Every readable record of one section, in any order, behind those walked before. */
    static method IndexSection(records: map<string, Record>, before: Index, ghost walked: seq<Binding>)
      returns (index: Index, ghost walk: seq<Binding>)
      requires before == LastWins(walked)
      ensures index == LastWins(walk) && walked <= walk
      ensures forall b :: b in walk <==> b in walked || exists user <- records :: records[user] == Readable(b)
    {
      index, walk := before, walked;
      var todo := records.Keys;
      while todo != {}
        invariant todo <= records.Keys
        invariant index == LastWins(walk) && walked <= walk
        invariant forall b :: b in walk <==>
                  b in walked || exists user <- records :: user !in todo && records[user] == Readable(b)
        decreases todo
      {
        var user :| user in todo;
        todo := todo - {user};
        if records[user].Readable? {
          var b := records[user].binding;
          index := index[Key(b) := b];
          assert (walk + [b])[..|walk|] == walk;
          walk := walk + [b];
        }
      }
    }

    /** Walks all readable records, section by section, and keeps the last of each agent. */
    static method IndexFromData(data: Data) returns (index: Index, ghost walk: seq<Binding>)
      ensures index == LastWins(walk) && WalksOver(walk, data)
      ensures Agrees(index, data)
    {
      index, walk := map[], [];
      var todo := data.Keys;
      while todo != {}
        invariant todo <= data.Keys
        invariant index == LastWins(walk)
        invariant forall b :: b in walk <==>
                  exists channel, user :: channel !in todo && Find(data, Address(channel, user)) == Some(b)
        decreases todo
      {
        var channel :| channel in todo;
        todo := todo - {channel};
        if data[channel].Users? {
          ghost var walked := walk;
          index, walk := IndexSection(data[channel].records, index, walk);
          SectionWalked(data, channel, todo, walked, walk);
        }
      }
      assert WalksOver(walk, data);
      WalkAgrees(walk, data);
    }

    static lemma SectionWalked(data: Data, channel: string, todo: set<string>, walked: seq<Binding>, walk: seq<Binding>)
      requires channel in data && data[channel].Users? && channel !in todo
      requires forall b :: b in walk <==>
                b in walked || exists user <- data[channel].records :: data[channel].records[user] == Readable(b)
      requires forall b :: b in walked <==>
                 exists c, user :: c !in todo + {channel} && Find(data, Address(c, user)) == Some(b)
      ensures forall b :: b in walk <==> exists c, user :: c !in todo && Find(data, Address(c, user)) == Some(b)
    {
      forall b | b in walk ensures exists c, user :: c !in todo && Find(data, Address(c, user)) == Some(b) {
        if b !in walked {
          var user :| user in data[channel].records && data[channel].records[user] == Readable(b);
          assert Find(data, Address(channel, user)) == Some(b);
        }
      }
      forall b, c, user | c !in todo && Find(data, Address(c, user)) == Some(b) ensures b in walk {
        if c == channel { assert data[channel].records[user] == Readable(b); }
      }
    }

    /** File and index move together. */
    method Commit(data: Data)
      requires enabled
      modifies this
      ensures Valid() && disk == Mapping(data) && Load(disk) == data
    {
      disk := Mapping(data);
      var index, _ := IndexFromData(data);
      syncIndex := index;
    }

    method Register(b: Binding)
      requires Valid()
      modifies this
      ensures Valid()
      ensures enabled ==> disk == Mapping(Registered(Load(old(disk)), b))
      ensures !enabled ==> disk == old(disk)
    {
      if !enabled { return; }
      var data := Load(disk);
      if b.channel !in data || data[b.channel].Malformed? {
        data := data[b.channel := Users(map[])];
      }
      data := data[b.channel := Users(data[b.channel].records[b.user := Readable(b)])];
      Commit(data);
    }

    method FindBinding(address: Address) returns (b: Option<Binding>)
      ensures b == Find(Load(disk), address)
    {
      var data := Load(disk);
      if address.channel !in data || data[address.channel].Malformed? { return None; }
      var records := data[address.channel].records;
      if address.user !in records || records[address.user].Unreadable? { return None; }
      b := Some(records[address.user].binding);
    }

    method Deregister(address: Address)
      requires Valid()
      modifies this
      ensures Valid() && Load(disk) == Deregistered(Load(old(disk)), address)
    {
      if !enabled { return; }
      var data := Load(disk);
      if address.channel !in data || data[address.channel].Malformed? { return; }
      var records := data[address.channel].records - {address.user};
      data := if records == map[] then data - {address.channel} else data[address.channel := Users(records)];
      Commit(data);
    }

    /** Nothing is written when the team has no record. */
    method DeregisterTeam(team: TeamId)
      requires Valid()
      modifies this
      ensures Valid() && Load(disk) == Pruned(Load(old(disk)), team)
      ensures Load(disk) == Load(old(disk)) ==> disk == old(disk)
    {
      if !enabled { return; }
      var data, removed := PruneTeam(Load(disk), team);
      if !removed { return; }
      Commit(data);
    }

    /** Drops the team's records section by section, and a section it has emptied; `removed`
        says whether anything went. */
    static method PruneTeam(before: Data, team: TeamId) returns (data: Data, removed: bool)
      ensures data == Pruned(before, team)
      ensures removed == (data != before)
    {
      data, removed := before, false;
      var todo := before.Keys;
      while todo != {}
        invariant todo <= before.Keys
        invariant forall channel :: channel in data <==>
                  channel in before && (channel in todo || !Emptied(before[channel], team))
        invariant forall channel <- data ::
                    data[channel] == if channel in todo then before[channel] else PrunedSection(before[channel], team)
        invariant removed <==> exists channel <- before :: channel !in todo && Loses(before[channel], team)
        decreases todo
      {
        var channel :| channel in todo;
        todo := todo - {channel};
        if before[channel].Users? {
          var records := PruneSection(before[channel].records, team);
          var emptied := records != before[channel].records;
          if emptied && records == map[] { data := data - {channel}; } else { data := data[channel := Users(records)]; }
          removed := removed || emptied;
        }
      }
      PrunedChanges(before, team);
    }

    /** The record-by-record deletion inside one section. */
    static method PruneSection(before: map<string, Record>, team: TeamId) returns (records: map<string, Record>)
      ensures records == PrunedRecords(before, team)
    {
      records := before;
      var todo := before.Keys;
      while todo != {}
        invariant todo <= before.Keys
        invariant forall user :: user in records <==> user in before && (user in todo || !OfTeam(before[user], team))
        invariant forall user <- records :: records[user] == before[user]
        decreases todo
      {
        var user :| user in todo;
        todo := todo - {user};
        if OfTeam(before[user], team) { records := records - {user}; }
      }
    }

    static predicate Loses(section: Section, team: TeamId) {
      section.Users? && PrunedRecords(section.records, team) != section.records
    }

    static lemma PrunedChanges(data: Data, team: TeamId)
      ensures Pruned(data, team) != data <==> exists channel <- data :: Loses(data[channel], team)
    {
      if forall channel <- data :: !Loses(data[channel], team) {
        assert Pruned(data, team) == data;
      } else {
        var channel :| channel in data && Loses(data[channel], team);
        assert channel in Pruned(data, team) ==> Pruned(data, team)[channel] != data[channel];
      }
    }

    /** From memory alone: some record of that team and agent, if there is any. */
    method FindBindingSync(team: TeamId, agent: string) returns (b: Option<Binding>)
      requires Valid()
      ensures b.Some? <==> exists channel, user ::
                var s := Find(Load(disk), Address(channel, user));
                s.Some? && s.value.team == team && s.value.agent == agent
      ensures b.Some? ==> Stored(Load(disk), b.value) && b.value.team == team && b.value.agent == agent
    {
      if (team, agent) in syncIndex {
        b := Some(syncIndex[(team, agent)]);
        ghost var channel, user :| Find(Load(disk), Address(channel, user)) == Some(b.value);
      } else {
        b := None;
      }
    }
  }
}
