/** A participant's bounded memory: its records, the edits on them, the parser's pre-check and the
    reducer that rebuilds the memory from canonical evidence alone.

    A payload reference is the payload itself: references are content digests, taken as ideal. */
module MemoryContract {
  import opened Options

  type Session = string

  datatype RecordId = Issued(run: string, identity: string, sequence: nat) | Foreign(name: string)

  datatype Record = Record(id: RecordId, text: string)

  datatype Hash = OfRecords(records: seq<Record>) | OtherHash(text: string)

  datatype Request =
    | Remember(text: string)
    | Edit(id: RecordId, text: string)
    | Revise(id: RecordId, text: string)
    | Forget(id: RecordId)
    | Compress(ids: seq<RecordId>, text: string)
    | Clear
    | Read(retrieval: string)
    | Recover(previous: Session, next: Session, expected: Hash, reason: string)
    | Malformed

  const RETRIEVAL := "all_current_records_in_sequence"

  // ---------------------------------------------------------------- size

  function Width(c: char): nat {
    var code := c as int;
    if code < 0x80 then 1 else if code < 0x800 then 2 else if code < 0x10000 then 3 else 4
  }

  /** Length of the text's UTF-8 encoding. */
  function Utf8(text: string): nat {
    if text == "" then 0 else Width(text[0]) + Utf8(text[1..])
  }

  function Joined(texts: seq<string>): string {
    if texts == [] then "" else if |texts| == 1 then texts[0] else texts[0] + "\n" + Joined(texts[1..])
  }

  function Texts(records: seq<Record>): (texts: seq<string>)
    ensures |texts| == |records| && forall k :: 0 <= k < |records| ==> texts[k] == records[k].text
  {
    seq(|records|, k requires 0 <= k < |records| => records[k].text)
  }

  function Used(records: seq<Record>): nat { Utf8(Joined(Texts(records))) }

  // ---------------------------------------------------------------- edits

  function IndexOf(records: seq<Record>, id: RecordId): (k: nat)
    ensures k <= |records| && (k < |records| ==> records[k].id == id)
    ensures forall j :: 0 <= j < k ==> records[j].id != id
  {
    if records == [] || records[0].id == id then 0 else 1 + IndexOf(records[1..], id)
  }

  function Known(records: seq<Record>, id: RecordId): bool { IndexOf(records, id) < |records| }

  predicate Distinct<T(==)>(xs: seq<T>) {
    forall i, j :: 0 <= i < j < |xs| ==> xs[i] != xs[j]
  }

  /** The ids a compression may name: at least one, no duplicates, all of current records. */
  predicate Selectable(records: seq<Record>, ids: seq<RecordId>) {
    ids != [] && Distinct(ids) && forall id :: id in ids ==> Known(records, id)
  }

  function FirstSelected(records: seq<Record>, ids: seq<RecordId>): (k: nat)
    ensures k <= |records|
  {
    if records == [] || records[0].id in ids then 0 else 1 + FirstSelected(records[1..], ids)
  }

  function Survivors(records: seq<Record>, ids: seq<RecordId>): (kept: seq<Record>)
    ensures |kept| <= |records|
  {
    if records == [] then []
    else if records[0].id in ids then Survivors(records[1..], ids)
    else [records[0]] + Survivors(records[1..], ids)
  }

  /** The records after a participant's request; `issued` is the id of a record it creates.  None when
      the request names no such record, selects badly or asks for another retrieval. */
  function Edited(records: seq<Record>, request: Request, issued: RecordId): Option<seq<Record>> {
    match request
    case Remember(text) => Some(records + [Record(issued, text)])
    case Edit(id, text) => Retexted(records, id, text)
    case Revise(id, text) => Retexted(records, id, text)
    case Forget(id) =>
      var k := IndexOf(records, id);
      if k < |records| then Some(records[..k] + records[k + 1..]) else None
    case Compress(ids, text) =>
      if !Selectable(records, ids) then None
      else
        var first, kept := FirstSelected(records, ids), Survivors(records, ids);
        if first <= |kept| then Some(kept[..first] + [Record(issued, text)] + kept[first..]) else None
    case Clear => Some([])
    case Read(retrieval) => if retrieval == RETRIEVAL then Some(records) else None
    case Recover(_, _, _, _) => None
    case Malformed => None
  }

  function Retexted(records: seq<Record>, id: RecordId, text: string): Option<seq<Record>> {
    var k := IndexOf(records, id);
    if k < |records| then Some(records[k := Record(id, text)]) else None
  }

  // ---------------------------------------------------------------- the parser's pre-check

  /** The parser checks an edit on drafts: a record it would create has no id yet. */
  datatype Draft = Draft(id: Option<RecordId>, text: string)

  function DraftOf(r: Record): Draft { Draft(Some(r.id), r.text) }

  function Drafts(records: seq<Record>): (ds: seq<Draft>)
    ensures |ds| == |records| && forall k :: 0 <= k < |records| ==> ds[k] == DraftOf(records[k])
  {
    seq(|records|, k requires 0 <= k < |records| => DraftOf(records[k]))
  }

  function DraftIndex(ds: seq<Draft>, id: RecordId): (k: nat)
    ensures k <= |ds|
  {
    if ds == [] || ds[0].id == Some(id) then 0 else 1 + DraftIndex(ds[1..], id)
  }

  predicate Selects(ids: seq<RecordId>, d: Draft) { d.id.Some? && d.id.value in ids }

  function DraftFirst(ds: seq<Draft>, ids: seq<RecordId>): (k: nat)
    ensures k <= |ds|
  {
    if ds == [] || Selects(ids, ds[0]) then 0 else 1 + DraftFirst(ds[1..], ids)
  }

  function DraftRemaining(ds: seq<Draft>, ids: seq<RecordId>): seq<Draft> {
    if ds == [] then [] else if Selects(ids, ds[0]) then DraftRemaining(ds[1..], ids)
    else [ds[0]] + DraftRemaining(ds[1..], ids)
  }

  function Spliced(ds: seq<Draft>, at: nat, d: Draft): seq<Draft> {
    if at <= |ds| then ds[..at] + [d] + ds[at..] else ds + [d]
  }

  function DraftEdit(records: seq<Record>, request: Request): Option<seq<Draft>> {
    var next := Drafts(records);
    match request
    case Remember(text) => Some(next + [Draft(None, text)])
    case Edit(id, text) => DraftRetext(next, id, text)
    case Revise(id, text) => DraftRetext(next, id, text)
    case Forget(id) =>
      var k := DraftIndex(next, id); if k < |next| then Some(next[..k] + next[k + 1..]) else None
    case Compress(ids, text) =>
      if ids != [] && Distinct(ids) && forall id :: id in ids ==> DraftIndex(next, id) < |next|
      then Some(Spliced(DraftRemaining(next, ids), DraftFirst(next, ids), Draft(None, text)))
      else None
    case Clear => Some([])
    case Read(retrieval) => if retrieval == RETRIEVAL then Some(next) else None
    case Recover(_, _, _, _) => None
    case Malformed => None
  }

  function DraftRetext(ds: seq<Draft>, id: RecordId, text: string): Option<seq<Draft>> {
    var k := DraftIndex(ds, id);
    if k < |ds| then Some(ds[k := ds[k].(text := text)]) else None
  }

  function DraftTexts(ds: seq<Draft>): seq<string> {
    seq(|ds|, k requires 0 <= k < |ds| => ds[k].text)
  }

  /** What parseMemoryOperation accepts. */
  predicate Parses(request: Request, records: seq<Record>, capacity: nat) {
    var next := DraftEdit(records, request);
    next.Some? && Utf8(Joined(DraftTexts(next.value))) <= capacity
  }

  // ---------------------------------------------------------------- canonical evidence

  datatype Kind = WriteOp | EditOp | EvictOp | CompressOp | ClearOp | ReadOp | RecoverOp

  function KindOf(request: Request): Option<Kind> {
    match request
    case Remember(_) => Some(WriteOp)
    case Edit(_, _) => Some(EditOp)
    case Revise(_, _) => Some(EditOp)
    case Forget(_) => Some(EvictOp)
    case Compress(_, _) => Some(CompressOp)
    case Clear => Some(ClearOp)
    case Read(_) => Some(ReadOp)
    case Recover(_, _, _, _) => Some(RecoverOp)
    case Malformed => None
  }

  datatype Content =
    | ArchiveContent(records: seq<Record>, text: string)
    | RequestContent(request: Request)
    | AvailabilityContent(current: Content, decisions: seq<Content>, invocation: string, session: Session,
                          previous: Option<nat>, capacity: nat)
    | OtherContent(bytes: string)

  datatype Capacity = Capacity(bytes: nat, used: nat)

  datatype OperationId = OperationId(run: string, identity: string, sequence: nat)

  datatype Event =
    | Memory(identity: string, session: Session, invocation: string, turn: nat, parents: seq<nat>,
             operationId: OperationId, kind: Kind, inputs: seq<Content>, output: Content, availability: Content,
             before: Capacity, after: Capacity)
    | Invocation(invocation: string, session: Session, participant: string, turn: nat, phase: string,
                 memoryParser: bool, success: Option<Completion>, refs: seq<Content>)
    | OtherEvent(name: string)

  /** A successful model completion: the request it was parsed to, and the request its raw output is. */
  datatype Completion = Completion(parsed: Request, raw: Request)

  /** Canonical evidence: the events in order and the payloads stored so far. */
  datatype Log = Log(run: string, events: seq<Event>, payloads: set<Content>)

  datatype State = State(records: seq<Record>, sequence: nat, head: Option<nat>, owner: Session, capacity: nat,
                         sessions: seq<Session>)

  function ArchiveOf(records: seq<Record>): Content { ArchiveContent(records, Joined(Texts(records))) }

  function LastInvocation(events: seq<Event>, invocation: string): (k: nat)
    ensures k <= |events|
    ensures k < |events| ==> events[k].Invocation? && events[k].invocation == invocation
    ensures k == |events| ==> forall j :: 0 <= j < |events| ==> !(events[j].Invocation? && events[j].invocation == invocation)
  {
    if events == [] then 0
    else
      var n := |events| - 1;
      if events[n].Invocation? && events[n].invocation == invocation then n
      else
        var k := LastInvocation(events[..n], invocation);
        if k < n then k else |events|
  }

  predicate Invoked(events: seq<Event>, invocation: string, onlyMemoryPhase: bool) {
    exists j :: 0 <= j < |events| && events[j].Invocation? && events[j].invocation == invocation
                && (onlyMemoryPhase ==> events[j].phase == "memory_update")
  }

  /** The last invocation under this id is a successful memory-phase completion of exactly this
      request, not consumed by an earlier memory operation. */
  predicate Completed(events: seq<Event>, identity: string, session: Session, invocation: string, turn: nat,
                      request: Request, records: seq<Record>, capacity: nat) {
    var k := LastInvocation(events, invocation);
    && k < |events|
    && var source := events[k];
    && source.phase == "memory_update" && source.turn == turn && source.participant == identity
    && source.session == session && source.memoryParser && source.success.Some?
    && source.success.value.parsed == request && source.success.value.raw == request
    && Parses(request, records, capacity)
    && forall j :: k < j < |events| && events[j].Memory? && events[j].invocation == invocation ==> events[j].kind == RecoverOp
  }

  function CompletionRefs(events: seq<Event>, invocation: string): seq<Content> {
    var k := LastInvocation(events, invocation);
    if k < |events| then events[k].refs else []
  }

  /** The reducer's own state change: records, owner and the sessions seen. */
  function Reduced(state: State, request: Request, issued: RecordId): Option<State> {
    match request
    case Recover(previous, next, expected, _) =>
      if previous == state.owner && next != "" && next !in state.sessions && expected == OfRecords(state.records)
      then Some(state.(owner := next, sessions := state.sessions + [next])) else None
    case _ =>
      var records := Edited(state.records, request, issued);
      if records.Some? then Some(state.(records := records.value)) else None
  }

  /** The state a memory event must start from. */
  function Entering(previous: Option<State>, e: Event): State
    requires e.Memory?
  {
    if previous.Some? then previous.value else State([], 0, None, e.session, e.before.bytes, [e.session])
  }

  /** One step of the reducer: the state after memory event k, or None when the event is refused. */
  function Replayed(log: Log, k: nat, previous: Option<State>): Option<State>
    requires k < |log.events| && log.events[k].Memory?
  {
    var e := log.events[k];
    var state := Entering(previous, e);
    if !(|e.inputs| >= 2 && (forall c :: c in e.inputs ==> c in log.payloads) && e.output in log.payloads
         && e.availability in log.payloads && e.inputs[1].RequestContent?) then None
    else
      var request := e.inputs[1].request;
      if !(&& e.identity != "" && e.session != "" && e.invocation != ""
           && e.session == state.owner
           && e.parents == (if state.head.Some? then [state.head.value] else [])
           && e.operationId == OperationId(log.run, e.identity, state.sequence)
           && e.inputs[0] == ArchiveOf(state.records)
           && e.availability == AvailabilityContent(e.inputs[0], e.inputs[2..], e.invocation, e.session, state.head, state.capacity)
           && KindOf(request) == Some(e.kind)) then None
      else if !request.Recover? && Invoked(log.events[..k], e.invocation, request.Read?)
              && !(Completed(log.events[..k], e.identity, e.session, e.invocation, e.turn, request, state.records, state.capacity)
                   && forall c :: c in CompletionRefs(log.events[..k], e.invocation) ==> c in e.inputs) then None
      else
        var next := Reduced(state, request, Issued(log.run, e.identity, state.sequence));
        if next.Some? && e.output == ArchiveOf(next.value.records)
           && e.before == Capacity(state.capacity, Used(state.records))
           && e.after == Capacity(state.capacity, Used(next.value.records))
           && Used(next.value.records) <= state.capacity
        then Some(next.value.(sequence := state.sequence + 1, head := Some(k)))
        else None
  }

  datatype Rebuilt = Untouched | Rebuilt(state: State) | Corrupt

  predicate IsMemoryOf(e: Event, identity: string) { e.Memory? && e.identity == identity }

  /** The memory of `identity` after the first n events, rebuilt from evidence alone. */
  function Rebuild(log: Log, identity: string, n: nat): Rebuilt
    requires n <= |log.events|
  {
    if n == 0 then Untouched
    else
      var prior := Rebuild(log, identity, n - 1);
      if prior.Corrupt? || !IsMemoryOf(log.events[n - 1], identity) then prior
      else
        var next := Replayed(log, n - 1, if prior.Rebuilt? then Some(prior.state) else None);
        if next.Some? then Rebuilt(next.value) else Corrupt
  }
}
