/** The intrusive doubly linked client list of ftpvita.c on the heap. */
module ClientList {
  import opened ListSpec

  class ClientRecord {
    var next: ClientRecord?
    var prev: ClientRecord?
    var inClientList: bool
    var restorePoint: nat
    const thid: int

    constructor (thid: int)
      ensures this.thid == thid && !inClientList && next == null && prev == null
    {
      this.thid := thid;
      next, prev, inClientList, restorePoint := null, null, false, 0;
    }
  }

  /** What next and prev hold in a list of the records of s in order, with null at both ends. */
  ghost function NextIn(s: seq<ClientRecord>, i: nat): ClientRecord?
    requires i < |s|
  {
    if i + 1 < |s| then s[i + 1] else null
  }

  ghost function PrevIn(s: seq<ClientRecord>, i: nat): ClientRecord?
    requires i < |s|
  {
    if i > 0 then s[i - 1] else null
  }

  /** next and prev link the records of s in order. */
  ghost predicate Linked(s: seq<ClientRecord>)
    reads s
  {
    && (forall i {:trigger s[i].next} | 0 <= i < |s| :: s[i].next == NextIn(s, i))
    && (forall i {:trigger s[i].prev} | 0 <= i < |s| :: s[i].prev == PrevIn(s, i))
  }

  /** The record at the head of the list, if any. */
  ghost function First(s: seq<ClientRecord>): ClientRecord? {
    if s == [] then null else s[0]
  }

  /** The links of a list whose k-th record is skipped. */
  ghost function NextOver(s: seq<ClientRecord>, k: nat, i: nat): ClientRecord?
    requires i < |s| && k < |s|
  {
    if i + 1 == k then NextIn(s, k) else NextIn(s, i)
  }

  ghost function PrevOver(s: seq<ClientRecord>, k: nat, i: nat): ClientRecord?
    requires i < |s| && k < |s|
  {
    if i == k + 1 then PrevIn(s, k) else PrevIn(s, i)
  }

  /** t is s without the k-th record. */
  ghost predicate LacksOne(s: seq<ClientRecord>, t: seq<ClientRecord>, k: nat) {
    k < |s| == |t| + 1 && t == s[..k] + s[k + 1..]
  }

  lemma LinksBeforeOne(s: seq<ClientRecord>, t: seq<ClientRecord>, k: nat, i: nat)
    requires LacksOne(s, t, k) && i < k
    ensures t[i] == s[i] && NextOver(s, k, i) == NextIn(t, i) && PrevOver(s, k, i) == PrevIn(t, i)
  {
  }

  lemma LinksAfterOne(s: seq<ClientRecord>, t: seq<ClientRecord>, k: nat, i: nat)
    requires LacksOne(s, t, k) && k <= i < |t|
    ensures t[i] == s[i + 1] && NextOver(s, k, i + 1) == NextIn(t, i) && PrevOver(s, k, i + 1) == PrevIn(t, i)
  {
  }

  /** The two assignments that take the k-th record out. */
  method Skip(client: ClientRecord, ghost s: seq<ClientRecord>, ghost k: nat)
    requires k < |s| && client == s[k] && NoDuplicates(s) && Linked(s)
    modifies s
    ensures forall i {:trigger s[i].next} | 0 <= i < |s| :: s[i].next == NextOver(s, k, i)
    ensures forall i {:trigger s[i].prev} | 0 <= i < |s| :: s[i].prev == PrevOver(s, k, i)
    ensures forall r | r in s :: r.inClientList == old(r.inClientList) && r.restorePoint == old(r.restorePoint)
  {
    if client.prev != null {
      client.prev.next := client.next;
    }
    if client.next != null {
      client.next.prev := client.prev;
    }
  }

  /** Unlinking a record links its neighbours to each other. */
  method Bypass(client: ClientRecord, ghost s: seq<ClientRecord>)
    requires client in s && NoDuplicates(s) && Linked(s)
    modifies s
    ensures Linked(Without(s, client))
    ensures First(Without(s, client)) == if client == s[0] then client.next else s[0]
    ensures forall r | r in s :: r.inClientList == old(r.inClientList) && r.restorePoint == old(r.restorePoint)
  {
    ghost var k :| 0 <= k < |s| && s[k] == client;
    WithoutAt(s, k);
    Skip(client, s, k);
    ghost var t := Without(s, client);
    forall i | 0 <= i < |t|
      ensures t[i].next == NextIn(t, i) && t[i].prev == PrevIn(t, i)
    {
      if i < k { LinksBeforeOne(s, t, k, i); } else { LinksAfterOne(s, t, k, i); }
    }
  }

  /** The globals client_list and number_clients.  `nodes` is the list from head to tail,
      `known` every record that has been allocated and not freed. */
  class ClientList {
    var head: ClientRecord?
    var numberClients: nat
    ghost var nodes: seq<ClientRecord>
    ghost var known: set<ClientRecord>

    /** next and prev form one acyclic list over `nodes`; a known record is one of them
        exactly when its in_client_list is set; the counter is their number. */
    ghost predicate Valid()
      reads this, known, nodes
    {
      && (forall r | r in nodes :: r in known)
      && (forall r | r in known :: r.inClientList <==> r in nodes)
      && NoDuplicates(nodes)
      && numberClients == |nodes| <= MAX_CLIENTS
      && head == First(nodes)
      && Linked(nodes)
    }

    constructor ()
      ensures Valid() && nodes == [] && known == {}
    {
      head, numberClients := null, 0;
      nodes, known := [], {};
    }

    /** The accept thread allocates a record and its thread. */
    method Allocate(thid: int) returns (client: ClientRecord)
      requires Valid()
      modifies this
      ensures Valid() && nodes == old(nodes) && fresh(client) && known == old(known) + {client}
      ensures !client.inClientList && client.thid == thid
    {
      client := new ClientRecord(thid);
      known := known + {client};
    }

    /** free on a record that is off the list; none of the links left reaches it. */
    method Free(client: ClientRecord)
      requires Valid() && client in known && !client.inClientList
      modifies this
      ensures Valid() && nodes == old(nodes) && known == old(known) - {client}
      ensures forall r | r in nodes :: r.next != client && r.prev != client
    {
      known := known - {client};
    }

    /** client_list_add: at the front, unless a reboot was requested or the list is full. */
    method Add(client: ClientRecord, rebootQuiesceRequested: bool) returns (added: bool)
      requires Valid() && client in known && !client.inClientList
      modifies this, known
      ensures Valid() && known == old(known)
      ensures added == (!rebootQuiesceRequested && |old(nodes)| < MAX_CLIENTS)
      ensures nodes == if added then [client] + old(nodes) else old(nodes)
      ensures added ==> client.restorePoint == 0
      ensures !added ==> forall r | r in known :: unchanged(r)
    {
      if rebootQuiesceRequested || numberClients >= MAX_CLIENTS {
        return false;
      }
      if head == null {
        head := client;
        client.prev := null;
        client.next := null;
      } else {
        client.next := head;
        head.prev := client;
        client.prev := null;
        head := client;
      }
      client.restorePoint := 0;
      client.inClientList := true;
      numberClients := numberClients + 1;
      ghost var before := nodes;
      nodes := [client] + before;
      assert forall i | 0 < i < |nodes| :: nodes[i] == before[i - 1];
      return true;
    }

    /** client_list_delete: from any position; false when teardown already took the record off. */
    method Delete(client: ClientRecord) returns (removed: bool)
      requires Valid() && client in known
      modifies this, known
      ensures Valid() && known == old(known)
      ensures removed == old(client.inClientList) && !client.inClientList
      ensures nodes == Without(old(nodes), client)
      ensures removed ==> client.next == null && client.prev == null && client !in nodes
    {
      if !client.inClientList {
        NotInList(nodes, client);
        return false;
      }
      ghost var left := Without(nodes, client);
      Bypass(client, nodes);
      if client == head {
        head := client.next;
      }
      client.next := null;
      client.prev := null;
      client.inClientList := false;
      if numberClients > 0 {
        numberClients := numberClients - 1;
      }
      WithoutIsRemoval(nodes, client);
      nodes := left;
      return true;
    }

    /** The locked part of client_list_thread_end: the fixed array takes the thread of
        every client, in list order, and no record stays marked. */
    method DetachAll() returns (thids: seq<int>)
      requires Valid()
      modifies this, known
      ensures Valid() && known == old(known) && nodes == []
      ensures thids == seq(|old(nodes)|, i requires 0 <= i < |old(nodes)| => old(nodes)[i].thid)
      ensures |thids| <= MAX_CLIENTS
      ensures forall r | r in known :: !r.inClientList && r.restorePoint == old(r.restorePoint)
    {
      thids := [];
      var it := head;
      while it != null && |thids| < MAX_CLIENTS
        invariant nodes == old(nodes) && known == old(known) && numberClients == |nodes|
        invariant |thids| <= |nodes|
        invariant it == (if |thids| < |nodes| then nodes[|thids|] else null)
        invariant forall i | 0 <= i < |thids| :: thids[i] == nodes[i].thid
        invariant forall r | r in known :: r.inClientList <==> r in nodes[|thids|..]
        invariant Linked(nodes)
        invariant forall r | r in known :: r.restorePoint == old(r.restorePoint)
        decreases MAX_CLIENTS - |thids|
      {
        assert nodes[|thids|..] == [it] + nodes[|thids| + 1..];
        assert it !in nodes[|thids| + 1..];
        thids := thids + [it.thid];
        var next := it.next;
        it.inClientList := false;
        it := next;
      }
      head := null;
      numberClients := 0;
      nodes := [];
    }
  }

  lemma NotInList<T>(s: seq<T>, x: T)
    requires x !in s
    ensures Without(s, x) == s
  {
  }
}
