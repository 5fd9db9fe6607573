/**
 Creating chunks and allocating gates: any number of concurrent calls, from
 any number of processes, over one maze's stored chunks. Every call reads
 unlocked first, and on a miss works under the maze's row lock.
 */
module Worlds {
  import opened HexGrid
  import opened Lattices
  import opened Graphs
  import opened ChunkGraphs
  import opened Spirals
  import opened NextGate
  import opened Params
  import opened Portals
  import opened Maps
  import opened Generates

  datatype Gating = NoGate | GateOf(chat: int, spiralIndex: nat)

  /** A stored chunk: the map its bytes decode to, and whose gate it is. */
  datatype Row = Row(m: Map, gate: Gating)

  type Table = map<Chunk, Row>

  /** A process's handle on the maze: its generator and its gate spacing. */
  datatype Handle = Handle(gen: Generator, spacing: int)

  datatype Request = EnsureChunk(ch: Chunk) | ActivateChat(chat: int)

  /** How far a call has got; from Locked to Pending it holds the maze's lock. */
  datatype Phase =
    | Begun
    | Missed
    | Locked
    | Ungated
    | Reading(ch: Chunk, d: nat, maps: map<Chunk, Map>)
    | Pending(ch: Chunk, row: Row)
    | AnsweredMap(m: Map)
    | AnsweredGate(ch: Chunk)
    | Failed

  datatype Call = Call(handle: Handle, request: Request, phase: Phase)

  datatype Lock = Free | Held(id: nat)

  datatype State = State(chunks: Table, lock: Lock, calls: map<nat, Call>)

  datatype Event =
    | Begin(id: nat, handle: Handle, request: Request)
    | ReadUnlocked(id: nat, found: Chunk)
    | TakeLock(id: nat)
    | Reread(id: nat, found: Chunk)
    | Choose(id: nat, created: seq<Chunk>, gates: seq<Chunk>, ch: Chunk)
    | ReadNeighbor(id: nat)
    | Insert(id: nat, m: Map)
    | Commit(id: nat, told: bool)
    | Abort(id: nat)

  // ---------- Reads ----------

  datatype ReadOutcome = Miss | Hit(m: Map) | Mismatch

  /** readChunk: a row of another radius does not decode under this handle's lattice. */
  function ReadChunk(h: Handle, chunks: Table, ch: Chunk): ReadOutcome {
    if ch !in chunks then Miss
    else if chunks[ch].m.graph.radius != h.gen.params.radius then Mismatch
    else Hit(chunks[ch].m)
  }

  predicate HasGate(chunks: Table, chat: int, ch: Chunk) {
    ch in chunks && chunks[ch].gate.GateOf? && chunks[ch].gate.chat == chat
  }

  ghost predicate Gateless(chunks: Table, chat: int) {
    forall ch :: !HasGate(chunks, chat, ch)
  }

  predicate IsGate(chunks: Table, ch: Chunk) {
    ch in chunks && chunks[ch].gate.GateOf?
  }

  function TypeOf(r: Request): ChunkType {
    if r.EnsureChunk? then Fabric else Gate
  }

  function GatingOf(r: Request, ch: Chunk): Gating {
    if r.EnsureChunk? then NoGate else GateOf(r.chat, SpiralIndex(ch))
  }

  function AnswerOf(r: Request, ch: Chunk, m: Map): Phase {
    if r.EnsureChunk? then AnsweredMap(m) else AnsweredGate(ch)
  }

  // ---------- Steps ----------

  predicate InLock(p: Phase) {
    p.Locked? || p.Ungated? || p.Reading? || p.Pending?
  }

  predicate Over(p: Phase) {
    p.AnsweredMap? || p.AnsweredGate? || p.Failed?
  }

  function SetPhase(s: State, id: nat, p: Phase): State
    requires id in s.calls
  {
    s.(calls := s.calls[id := s.calls[id].(phase := p)])
  }

  /** The phase a first look leads to: an answer, a failure, or onward. */
  ghost predicate Looked(h: Handle, r: Request, chunks: Table, found: Chunk, onward: Phase, p: Phase) {
    match r
    case EnsureChunk(ch) =>
      (match ReadChunk(h, chunks, ch)
       case Miss => p == onward
       case Hit(m) => p == AnsweredMap(m)
       case Mismatch => p == Failed)
    case ActivateChat(chat) =>
      if Gateless(chunks, chat) then p == onward else HasGate(chunks, chat, found) && p == AnsweredGate(found)
  }

  function Onward(r: Request): Phase {
    if r.EnsureChunk? then Reading(r.ch, 0, map[]) else Ungated
  }

  function Released(s: State, id: nat, p: Phase): State
    requires id in s.calls
  {
    SetPhase(s, id, p).(lock := if InLock(p) then s.lock else Free)
  }

  /** The coordinates of all stored chunks and of all stored gates, in some order. */
  ghost predicate Listed(created: seq<Chunk>, gates: seq<Chunk>, chunks: Table) {
    (forall ch :: ch in created <==> ch in chunks) && forall ch :: ch in gates <==> IsGate(chunks, ch)
  }

  /** The phase that reading the neighbour in direction d leads to. */
  function AfterNeighbor(h: Handle, chunks: Table, ch: Chunk, d: Direction, maps: map<Chunk, Map>): Phase {
    match ReadChunk(h, chunks, ChunkNeighbor(ch, d))
    case Miss => Reading(ch, d + 1, maps)
    case Hit(m) => Reading(ch, d + 1, maps[ChunkNeighbor(ch, d) := m])
    case Mismatch => Failed
  }

  ghost predicate Usable(h: Handle) {
    Ready(h.gen)
  }

  /** Generate gave call c map m for ch against maps: the chunk's own interior, filled. */
  ghost predicate GeneratedAs(c: Call, ch: Chunk, maps: map<Chunk, Map>, m: Map) {
    && Usable(c.handle) && NeighborsFit(c.handle.gen, maps)
    && IsGenerated(c.handle.gen, ch, TypeOf(c.request), maps, m)
  }

  ghost predicate StepBegin(s: State, e: Event, s': State)
    requires e.Begin?
  {
    e.id !in s.calls && Usable(e.handle) && s' == s.(calls := s.calls[e.id := Call(e.handle, e.request, Begun)])
  }

  ghost predicate StepLook(s: State, e: Event, s': State)
    requires e.ReadUnlocked? && e.id in s.calls
  {
    var c := s.calls[e.id];
    c.phase.Begun? && exists p :: Looked(c.handle, c.request, s.chunks, e.found, Missed, p) && s' == SetPhase(s, e.id, p)
  }

  ghost predicate StepLock(s: State, e: Event, s': State)
    requires e.TakeLock? && e.id in s.calls
  {
    s.calls[e.id].phase.Missed? && s.lock.Free? && s' == SetPhase(s, e.id, Locked).(lock := Held(e.id))
  }

  ghost predicate StepReread(s: State, e: Event, s': State)
    requires e.Reread? && e.id in s.calls
  {
    var c := s.calls[e.id];
    c.phase.Locked? && exists p :: Looked(c.handle, c.request, s.chunks, e.found, Onward(c.request), p) && s' == Released(s, e.id, p)
  }

  ghost predicate StepChoose(s: State, e: Event, s': State)
    requires e.Choose? && e.id in s.calls
  {
    var c := s.calls[e.id];
    && c.phase.Ungated?
    && Listed(e.created, e.gates, s.chunks)
    && 0 <= c.handle.spacing && Earliest(e.ch, e.created, e.gates, c.handle.spacing)
    && s' == SetPhase(s, e.id, Reading(e.ch, 0, map[]))
  }

  ghost predicate StepNeighbor(s: State, e: Event, s': State)
    requires e.ReadNeighbor? && e.id in s.calls
  {
    var c := s.calls[e.id];
    && c.phase.Reading? && c.phase.d < 6
    && s' == Released(s, e.id, AfterNeighbor(c.handle, s.chunks, c.phase.ch, c.phase.d, c.phase.maps))
  }

  ghost predicate StepInsert(s: State, e: Event, s': State)
    requires e.Insert? && e.id in s.calls
  {
    var c := s.calls[e.id];
    && c.phase.Reading? && c.phase.d == 6
    && GeneratedAs(c, c.phase.ch, c.phase.maps, e.m)
    && s' == SetPhase(s, e.id, Pending(c.phase.ch, Row(e.m, GatingOf(c.request, c.phase.ch))))
  }

  /** The commit lands; the caller may or may not be told. */
  ghost predicate StepCommit(s: State, e: Event, s': State)
    requires e.Commit? && e.id in s.calls
  {
    var c := s.calls[e.id];
    && c.phase.Pending?
    && s' == Released(s, e.id, if e.told then AnswerOf(c.request, c.phase.ch, c.phase.row.m) else Failed)
             .(chunks := s.chunks[c.phase.ch := c.phase.row])
  }

  /** Any failure: a missing maze row, a refused generation, an error, a spent budget, a commit that did not land. */
  ghost predicate StepAbort(s: State, e: Event, s': State)
    requires e.Abort? && e.id in s.calls
  {
    var p := s.calls[e.id].phase;
    !Over(p) && s' == (if InLock(p) then Released(s, e.id, Failed) else SetPhase(s, e.id, Failed))
  }

  ghost predicate Step(s: State, e: Event, s': State) {
    if e.Begin? then StepBegin(s, e, s')
    else
      e.id in s.calls &&
      match e
      case Begin(_, _, _) => false
      case ReadUnlocked(_, _) => StepLook(s, e, s')
      case TakeLock(_) => StepLock(s, e, s')
      case Reread(_, _) => StepReread(s, e, s')
      case Choose(_, _, _, _) => StepChoose(s, e, s')
      case ReadNeighbor(_) => StepNeighbor(s, e, s')
      case Insert(_, _) => StepInsert(s, e, s')
      case Commit(_, _) => StepCommit(s, e, s')
      case Abort(_) => StepAbort(s, e, s')
  }

  const EMPTY := State(map[], Free, map[])

  ghost predicate IsRun(states: seq<State>, events: seq<Event>) {
    && |states| == |events| + 1 && states[0] == EMPTY
    && forall i :: 0 <= i < |events| ==> Step(states[i], events[i], states[i + 1])
  }

  // ---------- What holds of every reachable state ----------

  ghost predicate RowOk(ch: Chunk, row: Row) {
    && WellFormed(row.m) && row.m.chunk == ch && SoundInterior(row.m)
    && (row.m.typ == Gate <==> row.gate.GateOf?)
    && (row.gate.GateOf? ==> row.gate.spiralIndex == SpiralIndex(ch))
  }

  /** Two neighbouring rows have one radius and give every shared face one state. */
  ghost predicate RowsAgree(a: Row, b: Row)
    requires WellFormed(a.m) && WellFormed(b.m)
  {
    a.m.graph.radius == b.m.graph.radius && AgreeAcross(a.m.graph.radius, a.m, b.m)
  }

  ghost predicate TableOk(chunks: Table) {
    && (forall ch :: ch in chunks ==> RowOk(ch, chunks[ch]))
    && (forall a, b :: a in chunks && b in chunks && ChunksAdjacent(a, b) ==> RowsAgree(chunks[a], chunks[b]))
    && (forall chat, a, b :: HasGate(chunks, chat, a) && HasGate(chunks, chat, b) ==> a == b)
  }

  ghost predicate LockOk(s: State) {
    && (forall id :: id in s.calls ==> (InLock(s.calls[id].phase) <==> s.lock == Held(id)))
    && (s.lock.Held? ==> s.lock.id in s.calls)
  }

  /** maps holds ch's stored neighbours in the directions below d, all readable under h. */
  ghost predicate NeighborsRead(h: Handle, chunks: Table, ch: Chunk, d: nat, maps: map<Chunk, Map>) {
    && (forall nc :: nc in maps ==> ChunksAdjacent(ch, nc) && ReadChunk(h, chunks, nc) == Hit(maps[nc]))
    && forall k: Direction :: k < d && ChunkNeighbor(ch, k) in chunks ==> ChunkNeighbor(ch, k) in maps
  }

  /** ch is one the call may create: absent, and for a gate, of a chat without one and far from every other gate. */
  ghost predicate MayCreate(c: Call, chunks: Table, ch: Chunk) {
    && ch !in chunks
    && match c.request
       case EnsureChunk(want) => ch == want
       case ActivateChat(chat) =>
         Gateless(chunks, chat) && forall g :: IsGate(chunks, g) ==> c.handle.spacing + 1 <= ChunkDistance(ch, g)
  }

  /** The row the call would store. */
  ghost predicate MayStore(c: Call, chunks: Table, ch: Chunk, row: Row) {
    && MayCreate(c, chunks, ch) && row.gate == GatingOf(c.request, ch)
    && exists maps :: NeighborsRead(c.handle, chunks, ch, 6, maps) && GeneratedAs(c, ch, maps, row.m)
  }

  /** What a call's phase says of the table. */
  ghost predicate CallOk(c: Call, chunks: Table) {
    Usable(c.handle) &&
    match c.phase
    case Ungated => c.request.ActivateChat? && Gateless(chunks, c.request.chat)
    case Reading(ch, d, maps) => d <= 6 && MayCreate(c, chunks, ch) && NeighborsRead(c.handle, chunks, ch, d, maps)
    case Pending(ch, row) => MayStore(c, chunks, ch, row)
    case AnsweredMap(m) => c.request.EnsureChunk? && c.request.ch in chunks && chunks[c.request.ch].m == m
    case AnsweredGate(ch) => c.request.ActivateChat? && HasGate(chunks, c.request.chat, ch)
    case _ => true
  }

  ghost predicate Inv(s: State) {
    TableOk(s.chunks) && LockOk(s) && forall id :: id in s.calls ==> CallOk(s.calls[id], s.chunks)
  }

  /** A row, once stored, is never changed or removed. */
  ghost predicate Grows(chunks: Table, chunks': Table) {
    forall ch :: ch in chunks ==> ch in chunks' && chunks'[ch] == chunks[ch]
  }

  // ---------- The invariant ----------

  lemma LookIsOk(c: Call, chunks: Table, found: Chunk, onward: Phase, p: Phase)
    requires Usable(c.handle) && Looked(c.handle, c.request, chunks, found, onward, p)
    requires onward == Missed || onward == Onward(c.request)
    ensures CallOk(c.(phase := p), chunks)
  {
    hide Usable, ChunksAdjacent;
  }

  lemma NeighborIsOk(c: Call, chunks: Table)
    requires CallOk(c, chunks) && c.phase.Reading? && c.phase.d < 6
    ensures CallOk(c.(phase := AfterNeighbor(c.handle, chunks, c.phase.ch, c.phase.d, c.phase.maps)), chunks)
  {
    hide Usable, MayCreate;
    var ch, d := c.phase.ch, c.phase.d;
    var p := AfterNeighbor(c.handle, chunks, ch, d, c.phase.maps);
    SameCreation(c, p, chunks, ch);
    assert ChunksAdjacent(ch, ChunkNeighbor(ch, d));
  }

  lemma SameCreation(c: Call, p: Phase, chunks: Table, ch: Chunk)
    requires MayCreate(c, chunks, ch)
    ensures MayCreate(c.(phase := p), chunks, ch)
  {
    hide Gateless;
  }

  lemma ChoiceIsOk(c: Call, chunks: Table, created: seq<Chunk>, gates: seq<Chunk>, ch: Chunk)
    requires CallOk(c, chunks) && c.phase.Ungated?
    requires Listed(created, gates, chunks)
    requires Earliest(ch, created, gates, c.handle.spacing)
    ensures CallOk(c.(phase := Reading(ch, 0, map[])), chunks)
  {
    hide Usable, Gateless, SpiralAt, SpiralIndex, ChunksAdjacent;
    assert Admissible(ch, created, gates, c.handle.spacing);
  }

  /** Between the lock's phases nothing a call relies on is lost as rows are added. */
  lemma CallOutsideLockStaysOk(c: Call, chunks: Table, chunks': Table)
    requires CallOk(c, chunks) && !InLock(c.phase) && Grows(chunks, chunks')
    ensures CallOk(c, chunks')
  {
    hide Usable;
  }

  /** The row a call commits agrees with every neighbour stored by then, and is its chat's only gate. */
  lemma CommitKeepsTable(c: Call, chunks: Table, ch: Chunk, row: Row)
    requires TableOk(chunks) && MayStore(c, chunks, ch, row)
    ensures TableOk(chunks[ch := row]) && Grows(chunks, chunks[ch := row])
  {
    var maps :| NeighborsRead(c.handle, chunks, ch, 6, maps) && GeneratedAs(c, ch, maps, row.m);
    MayStoreParts(c, chunks, ch, row);
    hide *;
    CommittedRowOk(c, ch, row, maps);
    forall b | b in chunks && ChunksAdjacent(ch, b)
      ensures WellFormed(row.m) && WellFormed(chunks[b].m) && RowsAgree(row, chunks[b]) && RowsAgree(chunks[b], row)
    {
      TableRow(chunks, b);
      CommittedAgrees(c, chunks, ch, row, maps, b);
    }
    TableGrows(chunks, ch, row, c.request);
    OneMoreRow(chunks, ch, row);
  }

  lemma MayStoreParts(c: Call, chunks: Table, ch: Chunk, row: Row)
    requires MayStore(c, chunks, ch, row)
    ensures ch !in chunks && row.gate == GatingOf(c.request, ch) && (c.request.ActivateChat? ==> Gateless(chunks, c.request.chat))
  {
  }

  lemma TableRow(chunks: Table, ch: Chunk)
    requires TableOk(chunks) && ch in chunks
    ensures RowOk(ch, chunks[ch]) && WellFormed(chunks[ch].m)
  {
    hide WellFormed, RowsAgree;
  }

  lemma OneMoreRow(chunks: Table, ch: Chunk, row: Row)
    requires ch !in chunks
    ensures Grows(chunks, chunks[ch := row])
  {
  }

  lemma CommittedRowOk(c: Call, ch: Chunk, row: Row, maps: map<Chunk, Map>)
    requires GeneratedAs(c, ch, maps, row.m) && row.gate == GatingOf(c.request, ch)
    ensures RowOk(ch, row) && WellFormed(row.m)
  {
    hide WellFormed, SpiralIndex, Ready, NeighborsFit, IsGenerated, SoundInterior;
    GeneratedIsSound(c.handle.gen, ch, TypeOf(c.request), maps, row.m);
  }

  lemma CommittedAgrees(c: Call, chunks: Table, ch: Chunk, row: Row, maps: map<Chunk, Map>, b: Chunk)
    requires NeighborsRead(c.handle, chunks, ch, 6, maps) && GeneratedAs(c, ch, maps, row.m)
    requires b in chunks && ChunksAdjacent(ch, b) && RowOk(b, chunks[b]) && RowOk(ch, row)
    ensures RowsAgree(row, chunks[b]) && RowsAgree(chunks[b], row)
  {
    var gen, typ := c.handle.gen, TypeOf(c.request);
    NeighborHeld(c.handle, chunks, ch, maps, b);
    ChunksAdjacentBack(ch, b);
    hide WellFormed, AgreeAcross, NeighborsFit, IsGenerated, SoundInterior, Ready, NeighborsRead, ChunksAdjacent, SpiralIndex;
    GeneratedAgrees(gen, ch, typ, maps, row.m, b);
    AgreeAcrossBack(gen.params.radius, row.m, maps[b]);
  }

  lemma NeighborHeld(h: Handle, chunks: Table, ch: Chunk, maps: map<Chunk, Map>, b: Chunk)
    requires NeighborsRead(h, chunks, ch, 6, maps) && b in chunks && ChunksAdjacent(ch, b)
    ensures b in maps && maps[b] == chunks[b].m
  {
    var k: Direction :| ChunkNeighbor(ch, k) == b;
  }

  /** A generated map agrees with each map it was generated against. */
  lemma GeneratedAgrees(gen: Generator, ch: Chunk, typ: ChunkType, maps: map<Chunk, Map>, m: Map, b: Chunk)
    requires Ready(gen) && NeighborsFit(gen, maps) && typ != Unset && IsGenerated(gen, ch, typ, maps, m)
    requires b in maps && b != ch
    ensures m.graph.radius == gen.params.radius && maps[b].graph.radius == gen.params.radius
    ensures WellFormed(m) && WellFormed(maps[b]) && AgreeAcross(gen.params.radius, m, maps[b])
  {
    ReadyIsSound(gen);
    SameRadius(gen, maps, b);
    hide WellFormed, AgreeAcross, NeighborsFit, HasInterior, Ready, Sound, IsFilled;
    var interior :| HasInterior(gen, ch, typ, interior) && IsFilled(gen, ch, typ, interior.open, maps, m);
    FilledParts(gen, ch, typ, interior.open, maps, m);
    AgreesWithNeighbor(gen, ch, typ, interior.open, maps, m, b);
  }

  lemma SameRadius(gen: Generator, maps: map<Chunk, Map>, b: Chunk)
    requires NeighborsFit(gen, maps) && b in maps
    ensures maps[b].graph.radius == gen.params.radius && WellFormed(maps[b])
  {
  }

  lemma TableGrows(chunks: Table, ch: Chunk, row: Row, r: Request)
    requires TableOk(chunks) && RowOk(ch, row) && ch !in chunks && row.gate == GatingOf(r, ch)
    requires r.ActivateChat? ==> Gateless(chunks, r.chat)
    requires forall b :: b in chunks && ChunksAdjacent(ch, b) ==> RowsAgree(row, chunks[b]) && RowsAgree(chunks[b], row)
    ensures TableOk(chunks[ch := row])
  {
    hide RowsAgree, WellFormed, SpiralIndex, SoundInterior, ChunkNeighbor;
    var chunks' := chunks[ch := row];
    forall a, b | a in chunks' && b in chunks' && ChunksAdjacent(a, b)
      ensures RowsAgree(chunks'[a], chunks'[b])
    {
      ChunksAdjacentBack(a, b);
    }
    forall chat, a, b | HasGate(chunks', chat, a) && HasGate(chunks', chat, b)
      ensures a == b
    {
      assert a != ch ==> HasGate(chunks, chat, a);
      assert b != ch ==> HasGate(chunks, chat, b);
    }
  }

  /** A step that leaves the table alone and moves one call on. */
  lemma MoveKeepsInv(s: State, id: nat, p: Phase, s': State)
    requires Inv(s) && id in s.calls && CallOk(s.calls[id].(phase := p), s.chunks)
    requires s'.chunks == s.chunks && s'.calls == s.calls[id := s.calls[id].(phase := p)]
    requires InLock(p) && !InLock(s.calls[id].phase) ==> s.lock == Free
    requires s'.lock == if InLock(p) then Held(id) else if InLock(s.calls[id].phase) then Free else s.lock
    ensures Inv(s')
  {
    hide CallOk, TableOk;
  }

  lemma StepKeepsInv(s: State, e: Event, s': State)
    requires Inv(s) && Step(s, e, s')
    ensures Inv(s') && Grows(s.chunks, s'.chunks)
  {
    hide CallOk, TableOk, Usable, LockOk, Earliest, GeneratedAs;
    if e.Begin? {
      BeginKeepsInv(s, e, s');
    } else if e.Commit? {
      CommitKeepsInv(s, e, s');
    } else {
      var c := s.calls[e.id];
      assert CallOk(c, s.chunks) && (InLock(c.phase) <==> s.lock == Held(e.id)) by { InvOf(s, e.id); }
      var p := s'.calls[e.id].phase;
      match e {
        case ReadUnlocked(_, _) => UsableOf(c, s.chunks); LookIsOk(c, s.chunks, e.found, Missed, p);
        case TakeLock(_) => LockedIsOk(c, s.chunks);
        case Reread(_, _) => UsableOf(c, s.chunks); LookIsOk(c, s.chunks, e.found, Onward(c.request), p);
        case Choose(_, _, _, _) => ChoiceIsOk(c, s.chunks, e.created, e.gates, e.ch);
        case ReadNeighbor(_) => NeighborIsOk(c, s.chunks);
        case Insert(_, _) => InsertIsOk(c, s.chunks, e.m);
        case Abort(_) => FailedIsOk(c, s.chunks);
      }
      MoveKeepsInv(s, e.id, p, s');
    }
  }

  lemma InvOf(s: State, id: nat)
    requires Inv(s) && id in s.calls
    ensures CallOk(s.calls[id], s.chunks) && (InLock(s.calls[id].phase) <==> s.lock == Held(id))
  {
  }

  lemma UsableOf(c: Call, chunks: Table)
    requires CallOk(c, chunks)
    ensures Usable(c.handle)
  {
  }

  lemma LockedIsOk(c: Call, chunks: Table)
    requires CallOk(c, chunks)
    ensures CallOk(c.(phase := Locked), chunks)
  {
  }

  lemma FailedIsOk(c: Call, chunks: Table)
    requires CallOk(c, chunks)
    ensures CallOk(c.(phase := Failed), chunks)
  {
  }

  lemma InsertIsOk(c: Call, chunks: Table, m: Map)
    requires CallOk(c, chunks) && c.phase.Reading? && c.phase.d == 6 && GeneratedAs(c, c.phase.ch, c.phase.maps, m)
    ensures CallOk(c.(phase := Pending(c.phase.ch, Row(m, GatingOf(c.request, c.phase.ch)))), chunks)
  {
    hide Usable, Gateless, IsGenerated, NeighborsFit, SpiralIndex, NeighborsRead;
    var c' := c.(phase := Pending(c.phase.ch, Row(m, GatingOf(c.request, c.phase.ch))));
    assert GeneratedAs(c', c.phase.ch, c.phase.maps, m);
    assert NeighborsRead(c'.handle, chunks, c.phase.ch, 6, c.phase.maps);
  }

  lemma BeginKeepsInv(s: State, e: Event, s': State)
    requires Inv(s) && e.Begin? && StepBegin(s, e, s')
    ensures Inv(s') && s'.chunks == s.chunks
  {
    hide TableOk, Usable;
    assert CallOk(s'.calls[e.id], s.chunks);
    assert forall id :: id in s.calls ==> s'.calls[id] == s.calls[id];
  }

  lemma CommitKeepsInv(s: State, e: Event, s': State)
    requires Inv(s) && e.Commit? && e.id in s.calls && StepCommit(s, e, s')
    ensures Inv(s') && Grows(s.chunks, s'.chunks)
  {
    hide TableOk, Usable, MayStore;
    var c := s.calls[e.id];
    InvOf(s, e.id);
    CommitKeepsTable(c, s.chunks, c.phase.ch, c.phase.row);
    forall id | id in s'.calls
      ensures CallOk(s'.calls[id], s'.chunks) && (InLock(s'.calls[id].phase) <==> s'.lock == Held(id))
    {
      if id == e.id {
        CommittedIsOk(c, s.chunks, e.told);
      } else {
        InvOf(s, id);
        CallOutsideLockStaysOk(s.calls[id], s.chunks, s'.chunks);
      }
    }
  }

  lemma CommittedIsOk(c: Call, chunks: Table, told: bool)
    requires CallOk(c, chunks) && c.phase.Pending?
    ensures var (ch, row) := (c.phase.ch, c.phase.row);
            CallOk(c.(phase := if told then AnswerOf(c.request, ch, row.m) else Failed), chunks[ch := row])
  {
    hide Usable, GeneratedAs, NeighborsRead, SpiralIndex;
  }

  /** Every reachable state keeps the invariant, whatever the interleaving and whatever fails. */
  lemma {:induction false} RunKeepsInv(states: seq<State>, events: seq<Event>, i: nat)
    requires IsRun(states, events) && i < |states|
    ensures Inv(states[i])
    decreases i
  {
    hide Step, Inv;
    if i == 0 {
      EmptyInv();
    } else {
      RunKeepsInv(states, events, i - 1);
      StepKeepsInv(states[i - 1], events[i - 1], states[i]);
    }
  }

  lemma EmptyInv()
    ensures Inv(EMPTY)
  {
  }

  /** Rows are immutable over a whole run, so everything ever answered stays true. */
  lemma {:induction false} RowsAreImmutable(states: seq<State>, events: seq<Event>, i: nat, j: nat)
    requires IsRun(states, events) && i <= j < |states|
    ensures Grows(states[i].chunks, states[j].chunks)
    decreases j
  {
    hide Step, Inv;
    if i < j {
      RowsAreImmutable(states, events, i, j - 1);
      RunKeepsInv(states, events, j - 1);
      StepKeepsInv(states[j - 1], events[j - 1], states[j]);
    }
  }

  /**
   In every reachable world any two neighbouring stored chunks have one radius
   and agree on every face between them, even when different generators made
   them; inside each the land is connected and the islands walled; no chat has two gates; no insert ever meets a stored row; and every
   answer is the stored row's.
   */
  lemma WorldIsConsistent(states: seq<State>, events: seq<Event>, i: nat, a: Chunk, b: Chunk)
    requires IsRun(states, events) && i < |states|
    ensures var s := states[i];
            a in s.chunks && b in s.chunks && ChunksAdjacent(a, b) ==>
              WellFormed(s.chunks[a].m) && WellFormed(s.chunks[b].m) && RowsAgree(s.chunks[a], s.chunks[b])
    ensures a in states[i].chunks ==> WellFormed(states[i].chunks[a].m) && SoundInterior(states[i].chunks[a].m)
    ensures a in states[i].chunks ==>
              var row := states[i].chunks[a];
              row.m.chunk == a && (row.m.typ == Gate <==> row.gate.GateOf?) && (row.gate.GateOf? ==> row.gate.spiralIndex == SpiralIndex(a))
    ensures forall chat :: HasGate(states[i].chunks, chat, a) && HasGate(states[i].chunks, chat, b) ==> a == b
    ensures forall id :: id in states[i].calls && states[i].calls[id].phase.Pending? ==> states[i].calls[id].phase.ch !in states[i].chunks
    ensures forall id :: id in states[i].calls && states[i].calls[id].phase.AnsweredMap? ==>
              var c := states[i].calls[id];
              c.request.EnsureChunk? && c.request.ch in states[i].chunks && states[i].chunks[c.request.ch].m == c.phase.m
    ensures forall id :: id in states[i].calls && states[i].calls[id].phase.AnsweredGate? ==>
              var c := states[i].calls[id]; c.request.ActivateChat? && HasGate(states[i].chunks, c.request.chat, c.phase.ch)
  {
    hide IsRun, RowsAgree, WellFormed, GeneratedAs, NeighborsRead, LockOk, Usable, SoundInterior;
    RunKeepsInv(states, events, i);
    var s := states[i];
    forall id | id in s.calls
      ensures CallOk(s.calls[id], s.chunks)
    {
      InvOf(s, id);
    }
  }

  // ---------- Gate spacing ----------

  ghost predicate SpacedOut(s: State, k: int) {
    forall a, b :: IsGate(s.chunks, a) && IsGate(s.chunks, b) && a != b ==> k + 1 <= ChunkDistance(a, b)
  }

  ghost predicate SpacingAtLeast(s: State, k: int) {
    forall id :: id in s.calls ==> k <= s.calls[id].handle.spacing
  }

  lemma StepKeepsSpacing(s: State, e: Event, s': State, k: int)
    requires Inv(s) && Step(s, e, s') && SpacedOut(s, k) && SpacingAtLeast(s, k)
    ensures SpacedOut(s', k)
  {
    hide Usable, GeneratedAs, NeighborsRead, TableOk, LockOk, Looked, Earliest, Hex, SpiralIndex;
    if e.Commit? {
      InvOf(s, e.id);
      var c := s.calls[e.id];
      var ch := c.phase.ch;
      forall a, b | IsGate(s'.chunks, a) && IsGate(s'.chunks, b) && a != b
        ensures k + 1 <= ChunkDistance(a, b)
      {
        ChunkDistanceSymmetric(a, b);
      }
    }
  }

  /** Gates placed by calls whose spacing is k or more are pairwise at least k + 1 apart, in every reachable state. */
  lemma {:induction false} GatesAreSpaced(states: seq<State>, events: seq<Event>, i: nat, k: int)
    requires IsRun(states, events) && i < |states|
    requires forall j :: 0 <= j < |states| ==> SpacingAtLeast(states[j], k)
    ensures SpacedOut(states[i], k)
    decreases i
  {
    hide Step, Inv, SpacedOut, SpacingAtLeast;
    if i == 0 {
      EmptySpaced(k);
    } else {
      GatesAreSpaced(states, events, i - 1, k);
      RunKeepsInv(states, events, i - 1);
      StepKeepsSpacing(states[i - 1], events[i - 1], states[i], k);
    }
  }

  lemma EmptySpaced(k: int)
    ensures SpacedOut(EMPTY, k)
  {
  }

  // ---------- One generator: the order of creation does not matter ----------

  /** Every stored map is what gen makes of its chunk and type alone. */
  ghost predicate BuiltAlone(gen: Generator, chunks: Table)
    requires Ready(gen)
  {
    forall ch :: ch in chunks ==> chunks[ch].m.chunk == ch && MadeAlone(gen, chunks[ch].m)
  }

  ghost predicate OnlyGenerator(s: State, gen: Generator) {
    forall id :: id in s.calls ==> s.calls[id].handle.gen == gen
  }

  lemma StepKeepsAlone(s: State, e: Event, s': State, gen: Generator)
    requires Ready(gen) && Inv(s) && Step(s, e, s') && OnlyGenerator(s, gen) && BuiltAlone(gen, s.chunks)
    ensures BuiltAlone(gen, s'.chunks)
  {
    hide Usable, Ready, GeneratedAs, NeighborsRead, TableOk, LockOk, Looked, Earliest, IsFilled, MayCreate, MadeAlone;
    if e.Commit? {
      InvOf(s, e.id);
      var c := s.calls[e.id];
      CommitIsAlone(c, s.chunks, c.phase.ch, c.phase.row);
    }
  }

  lemma CommitIsAlone(c: Call, chunks: Table, ch: Chunk, row: Row)
    requires Ready(c.handle.gen) && BuiltAlone(c.handle.gen, chunks) && MayStore(c, chunks, ch, row)
    ensures row.m.chunk == ch && MadeAlone(c.handle.gen, row.m)
  {
    hide Ready, MadeAlone, IsGenerated, NeighborsFit, ChunkNeighbor;
    var h := c.handle;
    var maps :| NeighborsRead(h, chunks, ch, 6, maps) && GeneratedAs(c, ch, maps, row.m);
    forall nc | nc in maps
      ensures nc != ch && MadeAlone(h.gen, maps[nc])
    {
      assert maps[nc] == chunks[nc].m;
    }
    GeneratedIsAlone(h.gen, ch, TypeOf(c.request), maps, row.m);
  }

  lemma {:induction false} WorldIsBuiltAlone(states: seq<State>, events: seq<Event>, i: nat, gen: Generator)
    requires Ready(gen) && IsRun(states, events) && i < |states|
    requires forall j :: 0 <= j < |states| ==> OnlyGenerator(states[j], gen)
    ensures BuiltAlone(gen, states[i].chunks)
    decreases i
  {
    hide Ready, Step, Inv, OnlyGenerator, MadeAlone;
    if i > 0 {
      WorldIsBuiltAlone(states, events, i - 1, gen);
      RunKeepsInv(states, events, i - 1);
      StepKeepsAlone(states[i - 1], events[i - 1], states[i], gen);
    }
  }

  /**
   In every world built by one generator, whatever its order, failures and
   concurrency: each stored chunk has, on every one of its six borders, the
   promised number of passages, no two of them sharing a vertex; and two stored
   neighbours show the same ones.
   */
  lemma WorldIsJoined(states: seq<State>, events: seq<Event>, i: nat, gen: Generator, ch: Chunk)
    requires Ready(gen) && IsRun(states, events) && i < |states| && ch in states[i].chunks
    requires forall j :: 0 <= j < |states| ==> OnlyGenerator(states[j], gen)
    ensures var m := states[i].chunks[ch].m;
            && m.chunk == ch && WellFormed(m) && m.graph.radius == gen.params.radius && |m.faces| == |m.graph.cells|
            && (forall nc :: ChunksAdjacent(ch, nc) ==> Guaranteed(gen.params, m, nc))
            && forall nc :: ChunksAdjacent(ch, nc) && nc in states[i].chunks ==>
                 var m' := states[i].chunks[nc].m;
                 m'.chunk == nc && WellFormed(m') && |m'.faces| == |m'.graph.cells| && PassagesInto(m, nc) == PassagesInto(m', ch)
  {
    hide Ready, IsRun, OnlyGenerator, MadeAlone, WellFormed, Guaranteed, PassagesInto, ChunksAdjacent, AgreeAcross;
    WorldIsBuiltAlone(states, events, i, gen);
    var m := states[i].chunks[ch].m;
    AloneIsGuaranteed(gen, m);
    FacesFit(m);
    forall nc | ChunksAdjacent(ch, nc) && nc in states[i].chunks
      ensures var m' := states[i].chunks[nc].m;
              m'.chunk == nc && WellFormed(m') && |m'.faces| == |m'.graph.cells| && PassagesInto(m, nc) == PassagesInto(m', ch)
    {
      var m' := states[i].chunks[nc].m;
      AloneIsGuaranteed(gen, m');
      FacesFit(m');
      ChunksAdjacentBack(ch, nc);
      AloneAgree(gen, m, m');
      PassagesFromEitherSide(gen.params.radius, m, m');
    }
  }

  /**
   Two worlds built by one generator, each in whatever order and with whatever
   failures, give a chunk they both store with one type the same map: the one
   the generator makes of it alone.
   */
  lemma CreationOrderDoesNotMatter(states: seq<State>, events: seq<Event>, i: nat, states': seq<State>, events': seq<Event>, i': nat,
                                   gen: Generator, ch: Chunk)
    requires Ready(gen) && IsRun(states, events) && i < |states| && IsRun(states', events') && i' < |states'|
    requires forall j :: 0 <= j < |states| ==> OnlyGenerator(states[j], gen)
    requires forall j :: 0 <= j < |states'| ==> OnlyGenerator(states'[j], gen)
    requires ch in states[i].chunks && ch in states'[i'].chunks
    requires states[i].chunks[ch].m.typ == states'[i'].chunks[ch].m.typ
    ensures states[i].chunks[ch].m == states'[i'].chunks[ch].m
  {
    hide Ready, IsRun, OnlyGenerator, MadeAlone;
    WorldIsBuiltAlone(states, events, i, gen);
    WorldIsBuiltAlone(states', events', i', gen);
    AloneIsUnique(gen, states[i].chunks[ch].m, states'[i'].chunks[ch].m);
  }
}
