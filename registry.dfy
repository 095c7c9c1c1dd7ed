/**
 Connection records and the queries over the registry that hold no state of their own.
 */
module Registry {
  import opened Wrappers
  import opened JsMap
  import opened Signaling
  import opened Channels

  /** `ConnectionState`. */
  datatype ConnState = Init | Open | Closed

  /** One connection record. The record object and its transport are created together and never
      separated, so the transport handle also identifies the record. */
  datatype Connection = Connection(conn: Handle, name: string, id: PeerId, channels: map<string, Channel>, state: ConnState)

  /** The moves a record's state may make in one step: stay, leave `Init`, or close an open record. */
  predicate StateStep(before: ConnState, after: ConnState) {
    before == after || (before == Init && after != Init) || (before == Open && after == Closed)
  }

  /** The open records of the registry, in its iteration order: what `get_connections` collects. */
  function OpenConnections(entries: Entries<PeerId, Handle>, records: map<Handle, Connection>): (r: seq<Handle>)
  {
    if entries == [] then []
    else
      var n := |entries| - 1;
      var h := entries[n].1;
      OpenConnections(entries[..n], records) + (if h in records && records[h].state == Open then [h] else [])
  }

  /** A record is listed exactly when the registry holds it and it is open. */
  lemma {:induction false} OpenConnectionsMembers(entries: Entries<PeerId, Handle>, records: map<Handle, Connection>, h: Handle)
    ensures h in OpenConnections(entries, records) <==>
      (exists i :: 0 <= i < |entries| && entries[i].1 == h) && h in records && records[h].state == Open
  {
    if entries != [] {
      var n := |entries| - 1;
      OpenConnectionsMembers(entries[..n], records, h);
      if exists i :: 0 <= i < |entries| && entries[i].1 == h {
        var i :| 0 <= i < |entries| && entries[i].1 == h;
        if i < n {
          assert entries[..n][i].1 == h;
        }
      } else {
        assert forall i :: 0 <= i < n ==> entries[..n][i].1 != h;
      }
    }
  }

  /** A registry that holds each record once lists each open record once. */
  lemma {:induction false} OpenConnectionsDistinct(entries: Entries<PeerId, Handle>, records: map<Handle, Connection>)
    requires forall i, j :: 0 <= i < j < |entries| ==> entries[i].1 != entries[j].1
    ensures var r := OpenConnections(entries, records); forall i, j :: 0 <= i < j < |r| ==> r[i] != r[j]
  {
    if entries != [] {
      var n := |entries| - 1;
      var h := entries[n].1;
      OpenConnectionsDistinct(entries[..n], records);
      OpenConnectionsMembers(entries[..n], records, h);
      assert forall i :: 0 <= i < n ==> entries[..n][i].1 != h;
      var pre := OpenConnections(entries[..n], records);
      assert h !in pre;
      var r := OpenConnections(entries, records);
      assert forall i :: 0 <= i < |pre| ==> r[i] == pre[i];
    }
  }

  /** Record `h` is a live record of peer `id`. */
  predicate Live(records: map<Handle, Connection>, id: PeerId, h: Handle) {
    h in records && records[h].id == id && records[h].state != Closed
  }

  /** The registry invariant: one entry per id, each naming a live record of that id. */
  ghost predicate RegistryHolds(entries: Entries<PeerId, Handle>, records: map<Handle, Connection>) {
    DistinctKeys(entries) && forall i :: 0 <= i < |entries| ==> Live(records, entries[i].0, entries[i].1)
  }

  /** Storing a new live record under its id keeps the invariant. */
  lemma RegisterKeeps(entries: Entries<PeerId, Handle>, records: map<Handle, Connection>, h: Handle, c: Connection)
    requires RegistryHolds(entries, records) && h !in records && c.state != Closed
    ensures RegistryHolds(Set(entries, c.id, h), records[h := c])
  {
    var r := Set(entries, c.id, h);
    GetSet(entries, c.id, h, c.id);
    forall i | 0 <= i < |r|
      ensures Live(records[h := c], r[i].0, r[i].1)
    {
      if r[i].0 != c.id {
        assert r[i] == entries[i];
      }
    }
  }

  /** Closing record `h` and deleting its id keeps the invariant, whatever record the id held. */
  lemma RetireKeeps(entries: Entries<PeerId, Handle>, records: map<Handle, Connection>, h: Handle)
    requires RegistryHolds(entries, records) && h in records
    ensures RegistryHolds(Delete(entries, records[h].id), records[h := records[h].(state := Closed)])
  {
    var id := records[h].id;
    var r := Delete(entries, id);
    GetDelete(entries, id, id);
    var j := IndexOf(entries, id);
    forall i | 0 <= i < |r|
      ensures Live(records[h := records[h].(state := Closed)], r[i].0, r[i].1)
    {
      var k := if i < j then i else i + 1;
      assert r[i] == entries[k];
    }
  }

  /** Opening a live record keeps the invariant. */
  lemma OpenKeeps(entries: Entries<PeerId, Handle>, records: map<Handle, Connection>, h: Handle)
    requires RegistryHolds(entries, records) && h in records && records[h].state != Closed
    ensures RegistryHolds(entries, records[h := records[h].(state := Open)])
  {
  }
}
