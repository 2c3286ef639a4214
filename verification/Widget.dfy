/**
  The chat widget's message list: pages, pushes, acknowledgements and read events are merged into one
  list that never shows a message twice, never drops one and stays in order.
 */
module Widget {
  import opened Prelude
  import opened ChatModel

  datatype ShownStatus = ShownSending | ShownSent | ShownRead | ShownFailed | ShownNone

  /** A normalized list entry; id 0 means that the server has not confirmed it. */
  datatype Entry = Entry(id: nat, clientId: string, sender: Sender, content: string, status: ShownStatus,
                         createdAt: int)

  /** Records with neither an id nor a client id are skipped. */
  predicate IsNormalized(e: Entry) {
    e.id > 0 || e.clientId != ""
  }

  datatype Key = ById(id: nat) | ByClient(clientId: string)

  function KeyOf(e: Entry): Key {
    if e.id > 0 then ById(e.id) else ByClient(e.clientId)
  }

  /** The later record wins, except that a missing status keeps the known one. */
  function MergeRecord(current: Option<Entry>, incoming: Entry): Entry {
    if incoming.status == ShownNone && current.Some? && current.value.status != ShownNone
    then incoming.(status := current.value.status) else incoming
  }

  // ----- An insertion-ordered map of entries by key

  function IndexOf(list: seq<Entry>, key: Key): (r: Option<nat>)
    ensures r.Some? ==> r.value < |list| && KeyOf(list[r.value]) == key
    ensures r.None? ==> forall i :: 0 <= i < |list| ==> KeyOf(list[i]) != key
  {
    if list == [] then None
    else if KeyOf(list[|list| - 1]) == key then Some(|list| - 1)
    else IndexOf(list[..|list| - 1], key)
  }

  function Put(list: seq<Entry>, e: Entry): seq<Entry> {
    match IndexOf(list, KeyOf(e))
    case Some(i) => list[i := e]
    case None => list + [e]
  }

  function Get(list: seq<Entry>, key: Key): Option<Entry> {
    match IndexOf(list, key)
    case Some(i) => Some(list[i])
    case None => None
  }

  function Remove(list: seq<Entry>, key: Key): seq<Entry> {
    match IndexOf(list, key)
    case Some(i) => list[..i] + list[i + 1..]
    case None => list
  }

  /** The working state of a merge: entries by key, and the key under which each client id is filed. */
  datatype Merge = Merge(list: seq<Entry>, index: map<string, Key>)

  function File(m: Merge, e: Entry): Merge {
    Merge(Put(m.list, e), if e.clientId != "" then m.index[e.clientId := KeyOf(e)] else m.index)
  }

  /** The key of the entry an incoming record belongs to: by client id first, then by its own key. */
  function Hit(m: Merge, incoming: Entry): Option<Key> {
    if incoming.clientId != "" && incoming.clientId in m.index then Some(m.index[incoming.clientId])
    else if IndexOf(m.list, KeyOf(incoming)).Some? then Some(KeyOf(incoming))
    else None
  }

  function Absorb(m: Merge, incoming: Entry): Merge {
    if !IsNormalized(incoming) then m
    else match Hit(m, incoming)
    case None => File(m, incoming)
    case Some(hit) =>
      var merged := MergeRecord(Get(m.list, hit), incoming);
      File(if KeyOf(merged) != hit then m.(list := Remove(m.list, hit)) else m, merged)
  }

  function Load(messages: seq<Entry>): Merge {
    if messages == [] then Merge([], map[])
    else
      var front, last := Load(messages[..|messages| - 1]), messages[|messages| - 1];
      if IsNormalized(last) then File(front, last) else front
  }

  function AbsorbAll(m: Merge, items: seq<Entry>): Merge {
    if items == [] then m else Absorb(AbsorbAll(m, items[..|items| - 1]), items[|items| - 1])
  }

  // ----- Order

  /** Confirmed messages by id, before unconfirmed ones by time. */
  predicate Precedes(a: Entry, b: Entry) {
    if a.id > 0 && b.id > 0 && a.id != b.id then a.id < b.id
    else if a.id > 0 && b.id == 0 then true
    else if a.id == 0 && b.id > 0 then false
    else a.createdAt < b.createdAt
  }

  /** Stable insertion from the right: past every entry that must come later. */
  function Insert(sorted: seq<Entry>, e: Entry): seq<Entry> {
    if sorted == [] || !Precedes(e, sorted[|sorted| - 1]) then sorted + [e]
    else Insert(sorted[..|sorted| - 1], e) + [sorted[|sorted| - 1]]
  }

  function Sort(list: seq<Entry>): seq<Entry> {
    if list == [] then [] else Insert(Sort(list[..|list| - 1]), list[|list| - 1])
  }

  ghost predicate IsSorted(list: seq<Entry>) {
    forall i, j :: 0 <= i < j < |list| ==> !Precedes(list[j], list[i])
  }

  function MergeMessages(messages: seq<Entry>, items: seq<Entry>): seq<Entry> {
    Sort(AbsorbAll(Load(messages), items).list)
  }

  // ----- Patches

  /** What an acknowledgement or a failure changes in an entry. */
  datatype Patch = Patch(id: nat, status: ShownStatus)

  function PatchEntry(e: Entry, p: Patch): Entry {
    e.(id := if p.id > 0 then p.id else e.id, status := if p.status != ShownNone then p.status else e.status)
  }

  function PatchAll(messages: seq<Entry>, clientId: string, p: Patch): (r: seq<Entry>)
    ensures |r| == |messages|
  {
    seq(|messages|, i requires 0 <= i < |messages| =>
      if messages[i].clientId == clientId then PatchEntry(messages[i], p) else messages[i])
  }

  predicate Mentions(messages: seq<Entry>, clientId: string) {
    exists i :: 0 <= i < |messages| && messages[i].clientId == clientId
  }

  function UpdateByClientId(messages: seq<Entry>, clientId: string, p: Patch): seq<Entry> {
    if clientId == "" || !Mentions(messages, clientId) then messages else Sort(PatchAll(messages, clientId, p))
  }

  /** A read event marks the sender's confirmed messages up to the bound. */
  function MarkSeen(messages: seq<Entry>, sender: Sender, upTo: nat): (r: seq<Entry>)
    ensures |r| == |messages|
  {
    seq(|messages|, i requires 0 <= i < |messages| =>
      if messages[i].sender == sender && 0 < messages[i].id <= upTo then messages[i].(status := ShownRead)
      else messages[i])
  }

  function SetStatus(messages: seq<Entry>, id: nat, status: ShownStatus): (r: seq<Entry>)
    ensures |r| == |messages|
  {
    seq(|messages|, i requires 0 <= i < |messages| =>
      if id > 0 && messages[i].id == id && status != ShownNone then messages[i].(status := status) else messages[i])
  }

  /** Everything that changes the list. */
  datatype Input =
    | Arrive(items: seq<Entry>)
    | Echo(entry: Entry)
    | Ack(clientId: string, messageId: nat, status: ShownStatus)
    | Fail(clientId: string)
    | ReadUpTo(sender: Sender, upTo: nat)
    | StatusOf(messageId: nat, status: ShownStatus)

  function React(messages: seq<Entry>, input: Input): seq<Entry> {
    match input
    case Arrive(items) => MergeMessages(messages, items)
    case Echo(entry) => MergeMessages(messages, [entry])
    case Ack(clientId, messageId, status) =>
      UpdateByClientId(messages, clientId, Patch(messageId, if status == ShownNone then ShownSent else status))
    case Fail(clientId) => UpdateByClientId(messages, clientId, Patch(0, ShownFailed))
    case ReadUpTo(sender, upTo) => MarkSeen(messages, sender, upTo)
    case StatusOf(messageId, status) => SetStatus(messages, messageId, status)
  }

  function Shown(inputs: seq<Input>): seq<Entry> {
    if inputs == [] then [] else React(Shown(inputs[..|inputs| - 1]), inputs[|inputs| - 1])
  }

  // ----- A server on which ids and client ids are one-to-one

  ghost predicate OneToOne(server: map<nat, string>) {
    forall i, j :: i in server && j in server && i != j && server[i] != "" ==> server[i] != server[j]
  }

  /** A confirmed record says what the server says. */
  ghost predicate Confirms(server: map<nat, string>, e: Entry) {
    e.id > 0 && e.id in server && server[e.id] == e.clientId
  }

  ghost predicate IsHonest(server: map<nat, string>, messages: seq<Entry>, input: Input) {
    match input
    case Arrive(items) => forall i :: 0 <= i < |items| ==> Confirms(server, items[i])
    case Echo(entry) =>
      entry.id == 0 && entry.clientId != "" && forall e :: e in messages ==> e.clientId != entry.clientId
    case Ack(clientId, messageId, _) =>
      messageId > 0 && clientId != "" ==> messageId in server && server[messageId] == clientId
    case _ => true
  }

  ghost predicate IsHonestRun(server: map<nat, string>, inputs: seq<Input>) {
    inputs == []
    || (&& IsHonestRun(server, inputs[..|inputs| - 1])
        && IsHonest(server, Shown(inputs[..|inputs| - 1]), inputs[|inputs| - 1]))
  }
}
