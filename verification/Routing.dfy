/** Which addresses a message goes to: the compiled form of a session's message filters. */
module Routing {
  import opened Bytes

  // ---------------------------------------------------------------- parsed configuration

  datatype Json = JString(s: string) | JOther

  /** A destination's entry; None stands for a member that is absent or not an array. */
  datatype Filter = Filter(dest: string, accept: Option<seq<Json>>, ignore: Option<seq<Json>>)

  datatype Entry = Entry(name: string, compId: UUID, nodeId: UUID)

  const CLIENT := "(client)"

  // ---------------------------------------------------------------- ComputationMap

  /** The three linked maps. */
  datatype Names = Names(nameToId: map<string, UUID>, idToName: map<UUID, string>, idToAddress: map<UUID, Address>)

  function AddEntry(m: Names, session: UUID, e: Entry): Names {
    Names(m.nameToId[e.name := e.compId],
          m.idToName[e.compId := e.name],
          m.idToAddress[e.compId := Address(session, e.nodeId, e.compId)])
  }

  function AddAll(session: UUID, entries: seq<Entry>): Names {
    if entries == [] then Names(map[], map[], map[])
    else AddEntry(AddAll(session, entries[..|entries| - 1]), session, entries[|entries| - 1])
  }

  /** The client's entry comes last, so it prevails over anything configured under its name or id. */
  function WithClient(entries: seq<Entry>): seq<Entry> {
    entries + [Entry(CLIENT, NULL, NULL)]
  }

  function BuildNames(session: UUID, entries: seq<Entry>): Names {
    AddAll(session, WithClient(entries))
  }

  /** Names lead to ids with an address, ids to names that exist, and addresses carry their id and the session. */
  ghost predicate Linked(m: Names, session: UUID) {
    && m.idToName.Keys == m.idToAddress.Keys
    && (forall n :: n in m.nameToId ==> m.nameToId[n] in m.idToAddress)
    && (forall id :: id in m.idToName ==> m.idToName[id] in m.nameToId)
    && (forall id :: id in m.idToAddress ==>
        m.idToAddress[id].computation == id && m.idToAddress[id].session == session)
  }

  lemma {:induction false} AddAllIsLinked(session: UUID, entries: seq<Entry>)
    ensures Linked(AddAll(session, entries), session)
  {
    if entries != [] {
      AddAllIsLinked(session, entries[..|entries| - 1]);
    }
  }

  /** The three maps agree, and the client is in each of them whatever was configured. */
  lemma NamesAreLinked(session: UUID, entries: seq<Entry>)
    ensures var m := BuildNames(session, entries);
      && Linked(m, session)
      && CLIENT in m.nameToId && m.nameToId[CLIENT] == NULL
      && NULL in m.idToName && m.idToName[NULL] == CLIENT
      && m.idToAddress[NULL] == Address(session, NULL, NULL)
  {
    AddAllIsLinked(session, WithClient(entries));
  }

  ghost predicate LastOfName(entries: seq<Entry>, i: int) {
    0 <= i < |entries| && forall j :: i < j < |entries| ==> entries[j].name != entries[i].name
  }

  ghost predicate LastOfId(entries: seq<Entry>, i: int) {
    0 <= i < |entries| && forall j :: i < j < |entries| ==> entries[j].compId != entries[i].compId
  }

  /** A name's last entry says what it leads to. */
  lemma {:induction false} NameToIdAt(session: UUID, entries: seq<Entry>, i: int)
    requires LastOfName(entries, i)
    ensures var m := AddAll(session, entries).nameToId; entries[i].name in m && m[entries[i].name] == entries[i].compId
  {
    if i < |entries| - 1 {
      NameToIdAt(session, entries[..|entries| - 1], i);
    }
  }

  lemma {:induction false} NameIsFrom(session: UUID, entries: seq<Entry>, name: string) returns (i: int)
    requires name in AddAll(session, entries).nameToId
    ensures LastOfName(entries, i) && entries[i].name == name
  {
    i := |entries| - 1;
    if entries[i].name != name {
      i := NameIsFrom(session, entries[..i], name);
    }
  }

  /** An id's last entry says what it is called. */
  lemma {:induction false} IdToNameAt(session: UUID, entries: seq<Entry>, i: int)
    requires LastOfId(entries, i)
    ensures var m := AddAll(session, entries).idToName; entries[i].compId in m && m[entries[i].compId] == entries[i].name
  {
    if i < |entries| - 1 {
      IdToNameAt(session, entries[..|entries| - 1], i);
    }
  }

  lemma {:induction false} IdIsFrom(session: UUID, entries: seq<Entry>, id: UUID) returns (i: int)
    requires id in AddAll(session, entries).idToName
    ensures LastOfId(entries, i) && entries[i].compId == id
  {
    i := |entries| - 1;
    if entries[i].compId != id {
      i := IdIsFrom(session, entries[..i], id);
    }
  }

  /** A name's entry, unless its id is renamed later, is found again through its id. */
  lemma NameReturnsIff(session: UUID, entries: seq<Entry>, i: int)
    requires LastOfName(entries, i)
    ensures var m := AddAll(session, entries); var n := entries[i].name;
      && n in m.nameToId && m.nameToId[n] in m.idToName
      && (m.idToName[m.nameToId[n]] == n <==> LastOfId(entries, i))
  {
    NameToIdAt(session, entries, i);
    AddAllIsLinked(session, entries);
    var j := IdIsFrom(session, entries, entries[i].compId);
    IdToNameAt(session, entries, j);
  }

  lemma IdReturnsIff(session: UUID, entries: seq<Entry>, i: int)
    requires LastOfId(entries, i)
    ensures var m := AddAll(session, entries); var id := entries[i].compId;
      && id in m.idToName && m.idToName[id] in m.nameToId
      && (m.nameToId[m.idToName[id]] == id <==> LastOfName(entries, i))
  {
    IdToNameAt(session, entries, i);
    AddAllIsLinked(session, entries);
    var j := NameIsFrom(session, entries, entries[i].name);
    NameToIdAt(session, entries, j);
  }

  ghost predicate NamesReturn(m: Names) {
    forall n :: n in m.nameToId ==> m.nameToId[n] in m.idToName && m.idToName[m.nameToId[n]] == n
  }

  ghost predicate IdsReturn(m: Names) {
    forall id :: id in m.idToName ==> m.idToName[id] in m.nameToId && m.nameToId[m.idToName[id]] == id
  }

  /** name -> id -> name is the identity exactly when no name's entry has its id taken by a later one. */
  lemma NamesRoundTripIff(session: UUID, entries: seq<Entry>)
    ensures var all := WithClient(entries);
      NamesReturn(BuildNames(session, entries)) <==> (forall i :: LastOfName(all, i) ==> LastOfId(all, i))
  {
    var m, all := BuildNames(session, entries), WithClient(entries);
    if NamesReturn(m) {
      forall i | LastOfName(all, i) ensures LastOfId(all, i) {
        NameReturnsIff(session, all, i);
      }
    }
    if forall i :: LastOfName(all, i) ==> LastOfId(all, i) {
      forall n | n in m.nameToId ensures m.nameToId[n] in m.idToName && m.idToName[m.nameToId[n]] == n {
        var i := NameIsFrom(session, all, n);
        NameReturnsIff(session, all, i);
      }
    }
  }

  /** A name leads to the address of the last entry with its id: the session, that entry's node, and the id. */
  lemma ResolvesTo(session: UUID, entries: seq<Entry>, i: int, j: int)
    requires LastOfName(WithClient(entries), i) && LastOfId(WithClient(entries), j)
    requires WithClient(entries)[i].compId == WithClient(entries)[j].compId
    ensures var all := WithClient(entries);
      Resolve(BuildNames(session, entries), all[i].name) == Ok(Address(session, all[j].nodeId, all[i].compId))
  {
    var all := WithClient(entries);
    NameToIdAt(session, all, i);
    AddressAt(session, all, j);
  }

  lemma {:induction false} AddressAt(session: UUID, entries: seq<Entry>, j: int)
    requires LastOfId(entries, j)
    ensures var m := AddAll(session, entries).idToAddress;
      entries[j].compId in m && m[entries[j].compId] == Address(session, entries[j].nodeId, entries[j].compId)
  {
    if j < |entries| - 1 {
      AddressAt(session, entries[..|entries| - 1], j);
    }
  }

  /** A name that was not configured leads nowhere, except for the client's. */
  lemma UnknownName(session: UUID, entries: seq<Entry>, name: string)
    requires name != "(client)" && forall i :: 0 <= i < |entries| ==> entries[i].name != name
    ensures Resolve(BuildNames(session, entries), name) == Err("KeyError")
  {
    if name in BuildNames(session, entries).nameToId {
      var i := NameIsFrom(session, WithClient(entries), name);
    }
  }

  /** id -> name -> id is the identity exactly when no id's entry has its name taken by a later one. */
  lemma IdsRoundTripIff(session: UUID, entries: seq<Entry>)
    ensures var all := WithClient(entries);
      IdsReturn(BuildNames(session, entries)) <==> (forall i :: LastOfId(all, i) ==> LastOfName(all, i))
  {
    var m, all := BuildNames(session, entries), WithClient(entries);
    if IdsReturn(m) {
      forall i | LastOfId(all, i) ensures LastOfName(all, i) {
        IdReturnsIff(session, all, i);
      }
    }
    if forall i :: LastOfId(all, i) ==> LastOfName(all, i) {
      forall id | id in m.idToName ensures m.idToName[id] in m.nameToId && m.nameToId[m.idToName[id]] == id {
        var i := IdIsFrom(session, all, id);
        IdReturnsIff(session, all, i);
      }
    }
  }

  /** Two computations configured with one id: the first is not found by it. */
  lemma SharedId(session: UUID, a: string, b: string, id: UUID, node: UUID)
    requires a != b && a != CLIENT
    ensures !NamesReturn(BuildNames(session, [Entry(a, id, node), Entry(b, id, node)]))
  {
    var entries := [Entry(a, id, node), Entry(b, id, node)];
    var all := WithClient(entries);
    NamesRoundTripIff(session, entries);
    assert LastOfName(all, 0) && all[1].compId == all[0].compId;
  }

  /** A computation that calls itself "(client)": its id leads to a name that leads to the client. */
  lemma FalseClient(session: UUID, id: UUID, node: UUID)
    requires id != NULL
    ensures !IdsReturn(BuildNames(session, [Entry(CLIENT, id, node)]))
  {
    var entries := [Entry(CLIENT, id, node)];
    var all := WithClient(entries);
    IdsRoundTripIff(session, entries);
    assert LastOfId(all, 0) && all[1].name == all[0].name;
  }

  // ---------------------------------------------------------------- the order of ids

  /** Byte by byte, as the map of addresses is ordered. */
  predicate Less(a: seq<byte>, b: seq<byte>) {
    b != [] && (a == [] || a[0] < b[0] || (a[0] == b[0] && Less(a[1..], b[1..])))
  }

  lemma {:induction false} LessIsTotal(a: seq<byte>, b: seq<byte>)
    ensures a == b || Less(a, b) || Less(b, a)
    ensures !(Less(a, b) && Less(b, a)) && !Less(a, a)
  {
    if a != [] {
      LessIsTotal(a[1..], a[1..]);
      if b != [] && a[0] == b[0] {
        LessIsTotal(a[1..], b[1..]);
        assert a == [a[0]] + a[1..] && b == [b[0]] + b[1..];
      }
    }
  }

  /** The first byte in which they differ decides. */
  predicate SmallerAt(a: seq<byte>, b: seq<byte>, i: int) {
    0 <= i < |a| == |b| && a[i] < b[i] && forall k :: 0 <= k < i ==> a[k] == b[k]
  }

  lemma {:induction false} LessIff(a: seq<byte>, b: seq<byte>)
    requires |a| == |b|
    ensures Less(a, b) <==> exists i :: SmallerAt(a, b, i)
  {
    if a != [] {
      LessIff(a[1..], b[1..]);
      if a[0] < b[0] {
        assert SmallerAt(a, b, 0);
      } else if a[0] == b[0] {
        SmallerBehind(a, b);
      }
    }
  }

  lemma SmallerBehind(a: seq<byte>, b: seq<byte>)
    requires |a| == |b| > 0 && a[0] == b[0]
    ensures (exists i :: SmallerAt(a, b, i)) <==> (exists i :: SmallerAt(a[1..], b[1..], i))
  {
    if i :| SmallerAt(a, b, i) {
      assert SmallerAt(a[1..], b[1..], i - 1);
    }
    if i :| SmallerAt(a[1..], b[1..], i) {
      forall k | 0 <= k < i + 1 ensures a[k] == b[k] {
        assert k > 0 ==> a[1..][k - 1] == b[1..][k - 1];
      }
      assert SmallerAt(a, b, i + 1);
    }
  }

  lemma {:induction false} LessIsTransitive(a: seq<byte>, b: seq<byte>, c: seq<byte>)
    requires Less(a, b) && Less(b, c)
    ensures Less(a, c)
  {
    if a != [] && a[0] == b[0] == c[0] {
      LessIsTransitive(a[1..], b[1..], c[1..]);
    }
  }

  ghost predicate IsLeast(id: seq<byte>, s: set<UUID>) {
    id in s && forall x :: x in s ==> x == id || Less(id, x)
  }

  lemma {:induction false} HasLeast(s: set<UUID>) returns (id: UUID)
    requires s != {}
    ensures IsLeast(id, s)
  {
    id :| id in s;
    if s != {id} {
      assert s - {id} != {};
      var y := HasLeast(s - {id});
      LessIsTotal(id, y);
      if Less(y, id) {
        id := y;
      } else {
        forall z | z in s && z != id ensures Less(id, z) {
          if z != y {
            LessIsTransitive(id, y, z);
          }
        }
      }
    }
  }

  /** Where an ordered map's iteration stands first. */
  method Least(s: set<UUID>) returns (id: UUID)
    requires s != {}
    ensures IsLeast(id, s)
  {
    ghost var least := HasLeast(s);
    id :| id in s && forall x :: x in s ==> x == id || Less(id, x);
  }

  ghost predicate Before(done: set<UUID>, todo: set<UUID>) {
    forall x, y :: x in done && y in todo ==> Less(x, y)
  }

  lemma LeastMoves(ids: set<UUID>, todo: set<UUID>, id: UUID)
    requires IsLeast(id, todo) && Before(ids - todo, todo)
    ensures ids - (todo - {id}) == ids - todo + (if id in ids then {id} else {})
    ensures Before(ids - (todo - {id}), todo - {id})
  {
  }

  /** The addresses of these ids, each once, in the order of the ids. */
  ghost predicate Lists(all: seq<Address>, m: Names, ids: set<UUID>) {
    && ids <= m.idToAddress.Keys
    && (forall a :: a in all ==> a.computation in ids && m.idToAddress[a.computation] == a)
    && (forall id :: id in ids ==> m.idToAddress[id] in all)
    && (forall i, j :: 0 <= i < j < |all| ==> Less(all[i].computation, all[j].computation))
  }

  lemma ListsOneMore(all: seq<Address>, m: Names, ids: set<UUID>, id: UUID)
    requires Lists(all, m, ids) && id in m.idToAddress && m.idToAddress[id].computation == id
    requires forall x :: x in ids ==> Less(x, id)
    ensures Lists(all + [m.idToAddress[id]], m, ids + {id})
  {
    var more := all + [m.idToAddress[id]];
    forall i, j | 0 <= i < j < |more| ensures Less(more[i].computation, more[j].computation) {
      assert all[i] in all;
    }
  }

  /** Every known id, with or without the client's. */
  function Ids(m: Names, includeClient: bool): set<UUID> {
    if includeClient then m.idToAddress.Keys else m.idToAddress.Keys - {NULL}
  }

  class ComputationMap {
    const session: UUID
    var names: Names

    constructor (session: UUID, entries: seq<Entry>)
      ensures this.session == session && names == BuildNames(session, entries)
    {
      this.session := session;
      names := Names(map[], map[], map[]);
      new;
      for k := 0 to |entries|
        invariant names == AddAll(session, entries[..k])
        invariant this.session == session
      {
        names := AddEntry(names, session, entries[k]);
        assert entries[..k + 1][..k] == entries[..k];
      }
      assert entries[..|entries|] == entries;
      names := AddEntry(names, session, Entry(CLIENT, NULL, NULL));
      assert WithClient(entries)[..|entries|] == entries;
    }

    /** The address of a computation by name, or the KeyError. */
    function AddressOf(name: string): Result<Address>
      reads this
    {
      Resolve(names, name)
    }

    /** All addresses in the order of their ids; the client's only on request. */
    method GetAllAddresses(includeClient: bool) returns (out: seq<Address>)
      requires Linked(names, session)
      ensures Lists(out, names, Ids(names, includeClient))
    {
      out := [];
      var todo, ids := names.idToAddress.Keys, Ids(names, includeClient);
      while todo != {}
        invariant todo <= names.idToAddress.Keys
        invariant Lists(out, names, ids - todo) && Before(ids - todo, todo)
      {
        var id := Least(todo);
        LeastMoves(ids, todo, id);
        if includeClient || id != NULL {
          ListsOneMore(out, names, ids - todo, id);
          out := out + [names.idToAddress[id]];
        }
        todo := todo - {id};
      }
      assert ids - todo == ids;
    }
  }

  function Resolve(m: Names, name: string): Result<Address> {
    if name !in m.nameToId || m.nameToId[name] !in m.idToAddress then Err("KeyError")
    else Ok(m.idToAddress[m.nameToId[name]])
  }

  // ---------------------------------------------------------------- what the filters mean

  /** The string entries of a list, in order. */
  function Strings(js: seq<Json>): seq<string> {
    if js == [] then []
    else if js[|js| - 1].JString? then Strings(js[..|js| - 1]) + [js[|js| - 1].s]
    else Strings(js[..|js| - 1])
  }

  function Listed(member: Option<seq<Json>>): seq<string> {
    if member.None? then [] else Strings(member.value)
  }

  function Count(names: seq<string>, name: string): nat {
    multiset(names)[name]
  }

  function Copies(a: Address, n: nat): seq<Address> { if n == 0 then [] else Copies(a, n - 1) + [a] }

  /** One destination's share: a copy per accept entry, or one copy unless it ignores the name. */
  function Share(a: Address, f: Filter, name: string): seq<Address> {
    if Listed(f.accept) != [] then Copies(a, Count(Listed(f.accept), name))
    else if name in Listed(f.ignore) then []
    else [a]
  }

  datatype Destination = Destination(addr: Address, filter: Filter)

  /** Which destinations want this name, asked naively, in configuration order. */
  function Wanted(ds: seq<Destination>, name: string): seq<Address> {
    if ds == [] then []
    else Wanted(ds[..|ds| - 1], name) + Share(ds[|ds| - 1].addr, ds[|ds| - 1].filter, name)
  }

  /** A string is listed if the member is there, an array, and has it among its entries. */
  lemma {:induction false} ListedIff(js: seq<Json>, name: string)
    ensures name in Strings(js) <==> JString(name) in js
    ensures Count(Strings(js), name) == multiset(js)[JString(name)]
  {
    if js != [] {
      ListedIff(js[..|js| - 1], name);
      assert js == js[..|js| - 1] + [js[|js| - 1]];
    }
  }

  /** Destination i is at this address and wants the name. */
  predicate WantedBy(ds: seq<Destination>, i: int, name: string, a: Address) {
    0 <= i < |ds| && ds[i].addr == a && Wants(ds[i].filter, name)
  }

  /** Who gets a message of a name: whoever accepts it by name or, accepting nothing by name, does not ignore it. */
  lemma {:induction false} WantedIff(ds: seq<Destination>, name: string, a: Address)
    ensures a in Wanted(ds, name) <==> exists i :: WantedBy(ds, i, name, a)
  {
    if ds != [] {
      var n := |ds| - 1;
      WantedIff(ds[..n], name, a);
      ShareIff(ds[n].addr, ds[n].filter, name, a);
      WantedPrefix(ds, name, a);
    }
  }

  lemma WantedPrefix(ds: seq<Destination>, name: string, a: Address)
    requires ds != []
    ensures var n := |ds| - 1;
      (exists i :: WantedBy(ds, i, name, a)) <==> (exists i :: WantedBy(ds[..n], i, name, a)) || WantedBy(ds, n, name, a)
  {
    var n := |ds| - 1;
    assert forall i :: WantedBy(ds[..n], i, name, a) <==> WantedBy(ds, i, name, a) && i != n;
  }

  /** The filter's own words: an accept list with any name in it decides; otherwise the ignore list does. */
  predicate Wants(f: Filter, name: string) {
    if f.accept.Some? && exists j :: 0 <= j < |f.accept.value| && f.accept.value[j].JString?
    then JString(name) in f.accept.value
    else !(f.ignore.Some? && JString(name) in f.ignore.value)
  }

  lemma ShareIff(b: Address, f: Filter, name: string, a: Address)
    ensures a in Share(b, f, name) <==> a == b && Wants(f, name)
  {
    CopiesAre(b, Count(Listed(f.accept), name));
    if f.accept.Some? {
      ListedIff(f.accept.value, name);
      SomeListed(f.accept.value);
    }
    if f.ignore.Some? {
      ListedIff(f.ignore.value, name);
    }
  }

  lemma {:induction false} SomeListed(js: seq<Json>)
    ensures Strings(js) != [] <==> exists j :: 0 <= j < |js| && js[j].JString?
  {
    if js != [] {
      SomeListed(js[..|js| - 1]);
    }
  }

  lemma {:induction false} CopiesAre(a: Address, n: nat)
    ensures |Copies(a, n)| == n && forall x :: x in Copies(a, n) ==> x == a
  {
    if n > 0 {
      CopiesAre(a, n - 1);
    }
  }

  /** Resolve destination names in order; the first unknown one is a KeyError. */
  function ResolveAll(m: Names, fs: seq<Filter>): Result<seq<Destination>> {
    if fs == [] then Ok([])
    else
      var init := ResolveAll(m, fs[..|fs| - 1]);
      var last := Resolve(m, fs[|fs| - 1].dest);
      if init.Err? then init
      else if last.Err? then Err(last.error)
      else Ok(init.value + [Destination(last.value, fs[|fs| - 1])])
  }

  // ---------------------------------------------------------------- the compiled form

  datatype Table = Table(mapped: map<string, seq<Address>>, default: seq<Address>)

  function Look(t: Table, name: string): seq<Address> {
    if name in t.mapped then t.mapped[name] else t.default
  }

  /** Every name's answer has grown by what an entry adds to it. */
  ghost predicate Pushed(t: Table, r: Table, a: Address, j: Json) {
    r.default == t.default && forall name :: Look(r, name) == Look(t, name) + (if j == JString(name) then [a] else [])
  }

  /** Append to one name's entry, which starts out as the default list. */
  method PushEntry(t: Table, j: Json, a: Address) returns (r: Table)
    ensures Pushed(t, r, a, j)
  {
    r := t;
    assert forall name :: Look(t, name) + [] == Look(t, name);
    if j.JString? {
      var entry := if j.s in t.mapped then t.mapped[j.s] else t.default;
      r := t.(mapped := t.mapped[j.s := entry + [a]]);
    }
  }

  /** Every name's answer has grown by a copy per string entry. */
  ghost predicate Accepted(t: Table, r: Table, a: Address, js: seq<Json>) {
    r.default == t.default && forall name :: Look(r, name) == Look(t, name) + Copies(a, Count(Strings(js), name))
  }

  lemma OneMore(a: Address, js: seq<Json>, j: Json, name: string)
    ensures Copies(a, Count(Strings(js + [j]), name))
            == Copies(a, Count(Strings(js), name)) + (if j == JString(name) then [a] else [])
  {
    assert (js + [j])[..|js|] == js;
  }

  lemma AcceptedMore(t: Table, r: Table, r': Table, a: Address, js: seq<Json>, j: Json)
    requires Accepted(t, r, a, js) && Pushed(r, r', a, j)
    ensures Accepted(t, r', a, js + [j])
  {
    forall name ensures Look(r', name) == Look(t, name) + Copies(a, Count(Strings(js + [j]), name)) {
      AcceptedByName(t, r, r', a, js, j, name);
    }
  }

  lemma AcceptedByName(t: Table, r: Table, r': Table, a: Address, js: seq<Json>, j: Json, name: string)
    requires Look(r, name) == Look(t, name) + Copies(a, Count(Strings(js), name))
    requires Look(r', name) == Look(r, name) + (if j == JString(name) then [a] else [])
    ensures Look(r', name) == Look(t, name) + Copies(a, Count(Strings(js + [j]), name))
  {
    OneMore(a, js, j, name);
    Regroup(Look(t, name), Copies(a, Count(Strings(js), name)), if j == JString(name) then [a] else []);
  }

  lemma Regroup(x: seq<Address>, y: seq<Address>, z: seq<Address>)
    ensures x + y + z == x + (y + z)
  {
  }

  /** The accept loop: one push per string entry, creating entries from the default list. */
  method AddAccepts(t: Table, a: Address, accepts: seq<Json>) returns (r: Table, found: bool)
    ensures found <==> Strings(accepts) != []
    ensures Accepted(t, r, a, accepts)
  {
    r, found := t, false;
    for k := 0 to |accepts|
      invariant found <==> Strings(accepts[..k]) != []
      invariant Accepted(t, r, a, accepts[..k])
    {
      ghost var before := r;
      r := PushEntry(r, accepts[k], a);
      found := found || accepts[k].JString?;
      AcceptedMore(t, before, r, a, accepts[..k], accepts[k]);
      assert accepts[..k] + [accepts[k]] == accepts[..k + 1];
    }
    assert accepts[..|accepts|] == accepts;
  }

  /** The ignore list collected into a set. */
  method CollectIgnores(ignores: seq<Json>) returns (r: set<string>)
    ensures forall name :: name in r <==> name in Strings(ignores)
  {
    r := {};
    for k := 0 to |ignores|
      invariant forall name :: name in r <==> name in Strings(ignores[..k])
    {
      assert ignores[..k + 1][..k] == ignores[..k];
      if ignores[k].JString? {
        r := r + {ignores[k].s};
      }
    }
    assert ignores[..|ignores|] == ignores;
  }

  /** Give the destination every mapped name it does not ignore; return the ignored names not yet mapped. */
  method AddToMapped(t: Table, a: Address, ignores: set<string>) returns (r: Table, unmapped: set<string>)
    ensures r.default == t.default && r.mapped.Keys == t.mapped.Keys
    ensures forall name :: name in t.mapped ==>
              r.mapped[name] == (if name in ignores then t.mapped[name] else t.mapped[name] + [a])
    ensures unmapped == ignores - t.mapped.Keys
  {
    r, unmapped := t, ignores;
    var todo := t.mapped.Keys;
    while todo != {}
      invariant todo <= t.mapped.Keys
      invariant r.default == t.default && r.mapped.Keys == t.mapped.Keys
      invariant forall name :: name in t.mapped ==>
                  r.mapped[name] == (if name in ignores || name in todo then t.mapped[name] else t.mapped[name] + [a])
      invariant unmapped == ignores - (t.mapped.Keys - todo)
    {
      var name :| name in todo;
      if name !in unmapped {
        r := r.(mapped := r.mapped[name := r.mapped[name] + [a]]);
      } else {
        unmapped := unmapped - {name};
      }
      todo := todo - {name};
    }
  }

  /** Ignored names without an entry get one, so that the default list can grow past them. */
  method MapIgnored(t: Table, unmapped: set<string>) returns (r: Table)
    requires unmapped !! t.mapped.Keys
    ensures r.default == t.default && r.mapped.Keys == t.mapped.Keys + unmapped
    ensures forall name :: name in t.mapped ==> r.mapped[name] == t.mapped[name]
    ensures forall name :: name in unmapped ==> r.mapped[name] == t.default
  {
    r := t;
    var todo := unmapped;
    while todo != {}
      invariant todo <= unmapped
      invariant r.default == t.default && r.mapped.Keys == t.mapped.Keys + (unmapped - todo)
      invariant forall name :: name in t.mapped ==> r.mapped[name] == t.mapped[name]
      invariant forall name :: name in unmapped - todo ==> r.mapped[name] == t.default
    {
      var name :| name in todo;
      r := r.(mapped := r.mapped[name := r.default]);
      todo := todo - {name};
    }
  }

  /** One destination folded into the table: every name, mapped or not, gains exactly its share. */
  method AddDestination(t: Table, a: Address, f: Filter) returns (r: Table)
    ensures forall name :: Look(r, name) == Look(t, name) + Share(a, f, name)
  {
    var found := false;
    r := t;
    if f.accept.Some? {
      r, found := AddAccepts(t, a, f.accept.value);
    }
    if found {
      return;
    }
    assert forall name :: Look(r, name) == Look(t, name) by {
      assert f.accept.Some? ==> forall name :: Count(Strings(f.accept.value), name) == 0;
    }
    var ignores := {};
    if f.ignore.Some? {
      ignores := CollectIgnores(f.ignore.value);
    }
    var shared, unmapped := AddToMapped(r, a, ignores);
    ghost var before := r;
    r := MapIgnored(shared, unmapped);
    r := r.(default := r.default + [a]);
    forall name ensures Look(r, name) == Look(t, name) + Share(a, f, name) {
      assert Look(before, name) == Look(t, name);
    }
  }

  /** The Addressing constructor's pass over a source's filters. */
  method Compile(m: Names, fs: seq<Filter>) returns (r: Result<Table>)
    ensures r.Ok? <==> ResolveAll(m, fs).Ok?
    ensures r.Ok? ==> forall name :: Look(r.value, name) == Wanted(ResolveAll(m, fs).value, name)
    ensures r.Err? ==> r.error == "KeyError"
  {
    var t := Table(map[], []);
    for k := 0 to |fs|
      invariant ResolveAll(m, fs[..k]).Ok?
      invariant forall name :: Look(t, name) == Wanted(ResolveAll(m, fs[..k]).value, name)
    {
      assert fs[..k + 1][..k] == fs[..k];
      var a := Resolve(m, fs[k].dest);
      if a.Err? {
        UnknownStays(m, fs, k + 1);
        return Err(a.error);
      }
      ghost var ds := ResolveAll(m, fs[..k]).value;
      ghost var ds1 := ResolveAll(m, fs[..k + 1]).value;
      assert ds1 == ds + [Destination(a.value, fs[k])] && ds1[..|ds1| - 1] == ds;
      t := AddDestination(t, a.value, fs[k]);
    }
    assert fs[..|fs|] == fs;
    return Ok(t);
  }

  lemma {:induction false} UnknownStays(m: Names, fs: seq<Filter>, k: nat)
    requires k <= |fs| && ResolveAll(m, fs[..k]).Err?
    ensures ResolveAll(m, fs).Err?
    decreases |fs| - k
  {
    if k == |fs| {
      assert fs[..k] == fs;
    } else {
      assert fs[..k + 1][..k] == fs[..k];
      UnknownStays(m, fs, k + 1);
    }
  }

  /** Compilation fails exactly when some destination has no address. */
  lemma {:induction false} ResolveAllIff(m: Names, fs: seq<Filter>)
    ensures ResolveAll(m, fs).Ok? <==> forall i :: 0 <= i < |fs| ==> Resolve(m, fs[i].dest).Ok?
    ensures ResolveAll(m, fs).Ok? ==>
              && |ResolveAll(m, fs).value| == |fs|
              && forall i :: 0 <= i < |fs| ==>
                   ResolveAll(m, fs).value[i] == Destination(Resolve(m, fs[i].dest).value, fs[i])
  {
    if fs != [] {
      var init := fs[..|fs| - 1];
      ResolveAllIff(m, init);
      assert forall i :: 0 <= i < |init| ==> init[i] == fs[i];
    }
  }

  // ---------------------------------------------------------------- Addressing and Addresser

  /** Everything a computation needs to address its messages; read-only once built. */
  datatype Addressing = Addressing(source: Address, table: Table, all: seq<Address>)

  const NO_ADDRESS := Address(NULL, NULL, NULL)

  const NO_ADDRESSING := Addressing(NO_ADDRESS, Table(map[], []), [])

  /** The filters configured for a source, or none. */
  function FiltersFor(filters: map<string, seq<Filter>>, source: string): seq<Filter> {
    if source in filters then filters[source] else []
  }

  /** A source without a map entry has no address and no destinations. */
  function SourceAddress(m: Names, source: UUID): Address {
    if source in m.idToAddress then m.idToAddress[source] else NO_ADDRESS
  }

  function Destinations(m: Names, source: UUID, filters: map<string, seq<Filter>>): Result<seq<Destination>> {
    if source !in m.idToAddress || source !in m.idToName then Ok([])
    else ResolveAll(m, FiltersFor(filters, m.idToName[source]))
  }

  /** Who is meant by a source's filters for a name: nobody for a source that is not there or has none. */
  ghost predicate Answers(m: Names, source: UUID, filters: map<string, seq<Filter>>, a: Addressing) {
    if source in m.idToName && source in m.idToAddress then
      && a.source == m.idToAddress[source]
      && var n := m.idToName[source];
         if n in filters
         then ResolveAll(m, filters[n]).Ok?
              && forall name :: Look(a.table, name) == Wanted(ResolveAll(m, filters[n]).value, name)
         else forall name :: Look(a.table, name) == []
    else a.source == NO_ADDRESS && forall name :: Look(a.table, name) == []
  }

  method BuildAddressing(cm: ComputationMap, source: UUID, filters: map<string, seq<Filter>>)
    returns (r: Result<Addressing>)
    requires Linked(cm.names, cm.session)
    ensures var ds := Destinations(cm.names, source, filters);
      && (r.Ok? <==> ds.Ok?)
      && (r.Ok? ==>
          && r.value.source == SourceAddress(cm.names, source)
          && forall name :: Look(r.value.table, name) == Wanted(ds.value, name))
    ensures r.Ok? ==> Lists(r.value.all, cm.names, Ids(cm.names, false))
    ensures r.Ok? ==> Answers(cm.names, source, filters, r.value)
    ensures r.Err? ==> source in cm.names.idToName && cm.names.idToName[source] in filters
  {
    var all := cm.GetAllAddresses(false);
    if source !in cm.names.idToAddress {
      return Ok(Addressing(NO_ADDRESS, Table(map[], []), all));
    }
    var t := Compile(cm.names, FiltersFor(filters, cm.names.idToName[source]));
    if t.Err? {
      return Err(t.error);
    }
    return Ok(Addressing(cm.names.idToAddress[source], t.value, all));
  }

  class Addresser {
    var addressing: Addressing
    ghost var destinations: seq<Destination>

    /** The table in force answers for these destinations. */
    ghost predicate Valid()
      reads this
    {
      forall name :: Look(addressing.table, name) == Wanted(destinations, name)
    }

    constructor ()
      ensures Valid() && addressing == NO_ADDRESSING && destinations == []
    {
      addressing, destinations := NO_ADDRESSING, [];
    }

    /** Build first, swap after: a KeyError while building leaves the old addressing in force. */
    method Update(cm: ComputationMap, source: UUID, filters: map<string, seq<Filter>>) returns (ok: bool)
      requires Valid() && Linked(cm.names, cm.session)
      modifies this
      ensures Valid()
      ensures var ds := Destinations(cm.names, source, filters);
        && (ok <==> ds.Ok?)
        && (ok ==> addressing.source == SourceAddress(cm.names, source) && destinations == ds.value)
      ensures ok ==> Lists(addressing.all, cm.names, Ids(cm.names, false)) && Answers(cm.names, source, filters, addressing)
      ensures !ok ==> addressing == old(addressing) && destinations == old(destinations)
    {
      var r := BuildAddressing(cm, source, filters);
      ok := r.Ok?;
      if ok {
        addressing, destinations := r.value, Destinations(cm.names, source, filters).value;
      }
    }

    /** address(): where from, and to whoever wants the name. */
    method AddressEnvelope(routingName: string) returns (from: Address, to: seq<Address>)
      requires Valid()
      ensures from == addressing.source && to == Look(addressing.table, routingName) == Wanted(destinations, routingName)
    {
      from, to := addressing.source, Look(addressing.table, routingName);
    }

    method AddressToAll() returns (from: Address, to: seq<Address>)
      ensures from == addressing.source && to == addressing.all
    {
      from, to := addressing.source, addressing.all;
    }
  }
}
