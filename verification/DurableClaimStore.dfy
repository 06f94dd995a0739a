/** The durable claim store: a capability is claimed by creating its directory.

    Any number of calls, in any number of processes, run `claim`, `complete` and `inspect`
    at the same time. Every file-system call is one atomic step. A step may fail before or
    after taking effect, a call may die between any two steps, and a power loss ends
    every call and forgets the directory entries and file contents that were not synced. */
module DurableClaimStore {
  import opened Outcomes

  type Cap = string
  type Hash = string
  type CallId = nat
  type FileId = nat

  // ----- records

  datatype Terminal = ConsumedSuccess | ConsumedError

  /** Commitment hashes, symbolically: the hash domains of the two record kinds differ. */
  datatype Digest =
    | ClaimDigest(cap: Cap, auth: Hash)
    | TerminalDigest(cap: Cap, auth: Hash, claim: Digest, terminal: Terminal)
    | OtherDigest(n: nat)

  datatype ClaimRecord = ClaimRecord(cap: Cap, auth: Hash, commitment: Digest)

  datatype TerminalRecord = TerminalRecord(
    cap: Cap, auth: Hash, claimCommitment: Digest, terminal: Terminal, commitment: Digest)

  /** What the bytes of a file parse to; `Unreadable` is torn, oversized or malformed text. */
  datatype Content = Unreadable | ClaimBody(claim: ClaimRecord) | TerminalBody(record: TerminalRecord)

  datatype Error = Replay | IoFailed | Corrupt | BindingMismatch

  function MakeClaim(cap: Cap, auth: Hash): ClaimRecord {
    ClaimRecord(cap, auth, ClaimDigest(cap, auth))
  }

  function MakeTerminal(claim: ClaimRecord, terminal: Terminal): TerminalRecord {
    TerminalRecord(claim.cap, claim.auth, claim.commitment, terminal,
                   TerminalDigest(claim.cap, claim.auth, claim.commitment, terminal))
  }

  function ValidateClaim(content: Content): Result<ClaimRecord, Error> {
    match content
    case ClaimBody(c) => if c.commitment == ClaimDigest(c.cap, c.auth) then Ok(c) else Err(Corrupt)
    case _ => Err(Corrupt)
  }

  function ValidateTerminal(content: Content, claim: ClaimRecord): Result<TerminalRecord, Error> {
    match content
    case TerminalBody(t) =>
      if t.cap != claim.cap || t.auth != claim.auth || t.claimCommitment != claim.commitment then Err(Corrupt)
      else if t.commitment != TerminalDigest(claim.cap, claim.auth, claim.commitment, t.terminal) then Err(Corrupt)
      else Ok(t)
    case _ => Err(Corrupt)
  }

  /** The validators accept exactly what the makers write. */
  lemma ValidRecordsAreMade(content: Content, claim: ClaimRecord)
    ensures ValidateClaim(content).Ok?
        <==> exists cap, auth :: content == ClaimBody(MakeClaim(cap, auth))
    ensures ValidateTerminal(content, claim).Ok?
        <==> exists terminal :: content == TerminalBody(MakeTerminal(claim, terminal))
  {
    if ValidateClaim(content).Ok? {
      assert content == ClaimBody(MakeClaim(content.claim.cap, content.claim.auth));
    }
    if ValidateTerminal(content, claim).Ok? {
      assert content == TerminalBody(MakeTerminal(claim, content.record.terminal));
    }
  }

  // ----- the file system

  datatype Name = ClaimJson | TerminalJson | Temp(owner: CallId, forTerminal: bool)

  /** Directory entries as running processes see them, and as they are on the medium. */
  datatype Dir = Dir(now: map<Name, FileId>, medium: map<Name, FileId>)

  datatype File = File(content: Content, synced: bool, owner: CallId)

  datatype Disk = Disk(root: map<Cap, Dir>, rootMedium: set<Cap>, files: map<FileId, File>)

  function Read(d: Disk, cap: Cap, name: Name): Option<Content> {
    if cap in d.root && name in d.root[cap].now && d.root[cap].now[name] in d.files
    then Some(d.files[d.root[cap].now[name]].content) else None
  }

  predicate Exists(d: Disk, cap: Cap, name: Name) {
    cap in d.root && name in d.root[cap].now
  }

  /** The name leads somewhere in the directory, now or on the medium. */
  predicate Named(d: Disk, cap: Cap, name: Name) {
    cap in d.root && (name in d.root[cap].now || name in d.root[cap].medium)
  }

  // ----- calls

  datatype Job = ForClaim | ForTerminal(terminal: Terminal)

  /** Where a publication of a record stands: the step it will take next. */
  datatype Pub = OpenTemp | WriteTemp(f: FileId) | SyncTemp(f: FileId) | LinkFinal(f: FileId)
               | UnlinkTemp(f: FileId) | SyncDir(f: FileId)

  datatype Observed = Absent | ReservedIncomplete | Reserved | Consumed(terminal: Terminal)

  datatype Phase =
    | Mkdir
    | SyncRoot
    | Publish(job: Job, pub: Pub)
    | Cleanup(job: Job, why: Error)
    | ClaimRefused(why: Error)
    | Open                                  // claim returned; its handle is open
    | StatClaim(terminal: Terminal)         // complete called; its handle is finalizing
    | ReadClaim(terminal: Terminal)
    | Completed(terminal: Terminal)
    | FailedClosed(why: Error)
    | LookDir
    | LookClaim
    | GetClaim
    | LookTerminal(claim: ClaimRecord)
    | GetTerminal(claim: ClaimRecord)
    | Inspected(result: Result<Observed, Error>)
    | Dead

  datatype Call = Call(cap: Cap, auth: Hash, phase: Phase)

  /** `won` and `done` remember which calls returned success from `claim` and `complete`. */
  datatype State = State(disk: Disk, calls: map<CallId, Call>, won: set<CallId>, done: map<CallId, Terminal>)

  const INITIAL := State(Disk(map[], {}, map[]), map[], {}, map[])

  datatype Io = Fine | FailsBefore | FailsAfter

  datatype Action =
    | StartClaim(c: CallId, cap: Cap, auth: Hash)
    | StartComplete(c: CallId, terminal: Terminal)
    | StartInspect(c: CallId, cap: Cap, auth: Hash)
    | Step(c: CallId, io: Io, newFile: FileId, junk: Content)
    | Kill(c: CallId)
    | WriteBackRoot(cap: Cap)
    | WriteBackEntry(cap: Cap, name: Name)
    | PowerLoss(torn: map<FileId, Content>)

  // ----- steps of the file system

  function WithDir(d: Disk, cap: Cap, dir: Dir): Disk {
    d.(root := d.root[cap := dir])
  }

  function Linked(d: Disk, cap: Cap, name: Name, f: FileId): Disk
    requires cap in d.root
  {
    WithDir(d, cap, d.root[cap].(now := d.root[cap].now[name := f]))
  }

  function Unlinked(d: Disk, cap: Cap, name: Name): Disk
    requires cap in d.root
  {
    WithDir(d, cap, d.root[cap].(now := d.root[cap].now - {name}))
  }

  function DirSynced(d: Disk, cap: Cap): Disk
    requires cap in d.root
  {
    WithDir(d, cap, d.root[cap].(medium := d.root[cap].now))
  }

  function EntryWrittenBack(d: Disk, cap: Cap, name: Name): Disk
    requires cap in d.root
  {
    var dir := d.root[cap];
    WithDir(d, cap, dir.(medium := if name in dir.now then dir.medium[name := dir.now[name]]
                                   else dir.medium - {name}))
  }

  function AfterPowerLoss(d: Disk, junk: map<FileId, Content>): Disk {
    Disk(map cap | cap in d.root && cap in d.rootMedium :: Dir(d.root[cap].medium, d.root[cap].medium),
         d.rootMedium,
         map f | f in d.files ::
           if d.files[f].synced then d.files[f]
           else File(if f in junk then junk[f] else Unreadable, false, d.files[f].owner))
  }

  // ----- steps of a call

  function Target(job: Job): Name {
    if job.ForClaim? then ClaimJson else TerminalJson
  }

  function TempName(c: CallId, job: Job): Name {
    Temp(c, job.ForTerminal?)
  }

  function Body(k: Call, job: Job): Content {
    match job
    case ForClaim => ClaimBody(MakeClaim(k.cap, k.auth))
    case ForTerminal(t) => TerminalBody(MakeTerminal(MakeClaim(k.cap, k.auth), t))
  }

  function Failed(job: Job, why: Error): Phase {
    if job.ForClaim? then ClaimRefused(why) else FailedClosed(why)
  }

  function Goto(s: State, c: CallId, d: Disk, p: Phase): State
    requires c in s.calls
  {
    s.(disk := d, calls := s.calls[c := s.calls[c].(phase := p)])
  }

  function DoMkdir(s: State, c: CallId, io: Io): State
    requires c in s.calls
  {
    var cap := s.calls[c].cap;
    if io == FailsBefore then Goto(s, c, s.disk, ClaimRefused(IoFailed))
    else if cap in s.disk.root then Goto(s, c, s.disk, ClaimRefused(Replay))
    else Goto(s, c, WithDir(s.disk, cap, Dir(map[], map[])),
              if io == Fine then SyncRoot else ClaimRefused(IoFailed))
  }

  function DoSyncRoot(s: State, c: CallId, io: Io): State
    requires c in s.calls
  {
    if io == FailsBefore then Goto(s, c, s.disk, ClaimRefused(IoFailed))
    else Goto(s, c, s.disk.(rootMedium := s.disk.root.Keys),
              if io == Fine then Publish(ForClaim, OpenTemp) else ClaimRefused(IoFailed))
  }

  /** Success of the last step of a publication is success of the call. */
  function Returned(s: State, c: CallId, job: Job, d: Disk): State
    requires c in s.calls
  {
    match job
    case ForClaim => Goto(s, c, d, Open).(won := s.won + {c})
    case ForTerminal(t) => Goto(s, c, d, Completed(t)).(done := s.done[c := t])
  }

  function DoPublish(s: State, c: CallId, job: Job, pub: Pub, io: Io, newFile: FileId, junk: Content): State
    requires c in s.calls
  {
    var k, d, temp := s.calls[c], s.disk, TempName(c, job);
    if k.cap !in d.root then Goto(s, c, d, Failed(job, IoFailed))
    else match pub
    case OpenTemp =>
      if io == FailsBefore || temp in d.root[k.cap].now then Goto(s, c, d, Failed(job, IoFailed))
      else if newFile in d.files then s
      else Goto(s, c, Linked(d, k.cap, temp, newFile).(files := d.files[newFile := File(Unreadable, false, c)]),
                if io == Fine then Publish(job, WriteTemp(newFile)) else Failed(job, IoFailed))
    case WriteTemp(f) =>
      if io == Fine then Goto(s, c, d.(files := d.files[f := File(Body(k, job), false, c)]), Publish(job, SyncTemp(f)))
      else Goto(s, c, d.(files := d.files[f := File(junk, false, c)]), Cleanup(job, IoFailed))
    case SyncTemp(f) =>
      if io == FailsBefore || f !in d.files then Goto(s, c, d, Cleanup(job, IoFailed))
      else Goto(s, c, d.(files := d.files[f := d.files[f].(synced := true)]),
                if io == Fine then Publish(job, LinkFinal(f)) else Cleanup(job, IoFailed))
    case LinkFinal(f) =>
      if io == FailsBefore then Goto(s, c, d, Cleanup(job, IoFailed))
      else if Target(job) in d.root[k.cap].now then Goto(s, c, d, Cleanup(job, Replay))
      else Goto(s, c, Linked(d, k.cap, Target(job), f),
                if io == Fine then Publish(job, UnlinkTemp(f)) else Cleanup(job, IoFailed))
    case UnlinkTemp(f) =>
      if io == FailsBefore then Goto(s, c, d, Cleanup(job, IoFailed))
      else Goto(s, c, Unlinked(d, k.cap, temp),
                if io == Fine then Publish(job, SyncDir(f)) else Cleanup(job, IoFailed))
    case SyncDir(f) =>
      if io == FailsBefore then Goto(s, c, d, Failed(job, IoFailed))
      else if io == FailsAfter then Goto(s, c, DirSynced(d, k.cap), Failed(job, IoFailed))
      else Returned(s, c, job, DirSynced(d, k.cap))
  }

  function DoCleanup(s: State, c: CallId, job: Job, why: Error, io: Io): State
    requires c in s.calls
  {
    var cap := s.calls[c].cap;
    Goto(s, c, if io == FailsBefore || cap !in s.disk.root then s.disk else Unlinked(s.disk, cap, TempName(c, job)),
         Failed(job, why))
  }

  function DoStatClaim(s: State, c: CallId, t: Terminal, io: Io): State
    requires c in s.calls
  {
    Goto(s, c, s.disk,
         if io != Fine then FailedClosed(IoFailed)
         else if !Exists(s.disk, s.calls[c].cap, ClaimJson) then FailedClosed(Corrupt)
         else ReadClaim(t))
  }

  function DoReadClaim(s: State, c: CallId, t: Terminal, io: Io): State
    requires c in s.calls
  {
    var k := s.calls[c];
    var raw := Read(s.disk, k.cap, ClaimJson);
    Goto(s, c, s.disk,
         if io != Fine || raw.None? then FailedClosed(IoFailed)
         else if ValidateClaim(raw.value) != Ok(MakeClaim(k.cap, k.auth)) then FailedClosed(Corrupt)
         else Publish(ForTerminal(t), OpenTemp))
  }

  function DoInspect(d: Disk, k: Call, io: Io): Phase {
    if io != Fine then Inspected(Err(IoFailed))
    else match k.phase
    case LookDir => if k.cap !in d.root then Inspected(Ok(Absent)) else LookClaim
    case LookClaim => if !Exists(d, k.cap, ClaimJson) then Inspected(Ok(ReservedIncomplete)) else GetClaim
    case GetClaim =>
      (match Read(d, k.cap, ClaimJson)
       case None => Inspected(Err(IoFailed))
       case Some(raw) =>
         match ValidateClaim(raw)
         case Err(e) => Inspected(Err(e))
         case Ok(claim) =>
           if claim.cap != k.cap || claim.auth != k.auth then Inspected(Err(BindingMismatch))
           else LookTerminal(claim))
    case LookTerminal(claim) =>
      if !Exists(d, k.cap, TerminalJson) then Inspected(Ok(Reserved)) else GetTerminal(claim)
    case GetTerminal(claim) =>
      (match Read(d, k.cap, TerminalJson)
       case None => Inspected(Err(IoFailed))
       case Some(raw) =>
         match ValidateTerminal(raw, claim)
         case Err(e) => Inspected(Err(e))
         case Ok(t) => Inspected(Ok(Consumed(t.terminal))))
    case _ => k.phase
  }

  predicate Inspecting(p: Phase) {
    p.LookDir? || p.LookClaim? || p.GetClaim? || p.LookTerminal? || p.GetTerminal?
  }

  function DoStep(s: State, c: CallId, io: Io, newFile: FileId, junk: Content): State
    requires c in s.calls
  {
    var p := s.calls[c].phase;
    if Inspecting(p) then Goto(s, c, s.disk, DoInspect(s.disk, s.calls[c], io))
    else match p
    case Mkdir => DoMkdir(s, c, io)
    case SyncRoot => DoSyncRoot(s, c, io)
    case Publish(job, pub) => DoPublish(s, c, job, pub, io, newFile, junk)
    case Cleanup(job, why) => DoCleanup(s, c, job, why, io)
    case StatClaim(t) => DoStatClaim(s, c, t, io)
    case ReadClaim(t) => DoReadClaim(s, c, t, io)
    case _ => s
  }

  /** One step of the whole system; an action that is not possible changes nothing. */
  function Next(s: State, a: Action): State {
    match a
    case StartClaim(c, cap, auth) =>
      if c in s.calls then s else s.(calls := s.calls[c := Call(cap, auth, Mkdir)])
    case StartInspect(c, cap, auth) =>
      if c in s.calls then s else s.(calls := s.calls[c := Call(cap, auth, LookDir)])
    case StartComplete(c, t) =>
      if c in s.calls && s.calls[c].phase == Open then Goto(s, c, s.disk, StatClaim(t)) else s
    case Step(c, io, newFile, junk) =>
      if c in s.calls then DoStep(s, c, io, newFile, junk) else s
    case Kill(c) =>
      if c in s.calls then Goto(s, c, s.disk, Dead) else s
    case WriteBackRoot(cap) =>
      if cap in s.disk.root then s.(disk := s.disk.(rootMedium := s.disk.rootMedium + {cap})) else s
    case WriteBackEntry(cap, name) =>
      if cap in s.disk.root then s.(disk := EntryWrittenBack(s.disk, cap, name)) else s
    case PowerLoss(junk) =>
      s.(disk := AfterPowerLoss(s.disk, junk), calls := map c | c in s.calls :: s.calls[c].(phase := Dead))
  }

  function Run(s: State, actions: seq<Action>): State
    decreases |actions|
  {
    if actions == [] then s else Run(Next(s, actions[0]), actions[1..])
  }

  lemma {:induction false} RunSplit(s: State, a: seq<Action>, b: seq<Action>)
    ensures Run(s, a + b) == Run(Run(s, a), b)
    decreases |a|
  {
    if a == [] {
      assert a + b == b;
    } else {
      assert (a + b)[1..] == a[1..] + b;
      RunSplit(Next(s, a[0]), a[1..], b);
    }
  }
}
