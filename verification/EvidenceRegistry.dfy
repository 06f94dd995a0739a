/** The on-chain evidence registry: storage entries for the admin, the writers and the records,
    and the events published beside them. */
module EvidenceRegistry {
  import opened Outcomes

  type Address = string
  type Hash = string

  datatype Status = Active | Revoked

  datatype AnchorRecord = AnchorRecord(
    batch: Hash, root: Hash, manifest: Hash, evidence: Hash, issuer: Address, ledger: nat,
    status: Status, reason: Option<Hash>)

  datatype Event =
    | Initialized(admin: Address)
    | WriterUpdated(writer: Address, authorized: bool)
    | AnchorRegistered(batch: Hash, issuer: Address, root: Hash, manifest: Hash, evidence: Hash)
    | AnchorRevoked(batch: Hash, caller: Address, reason: Hash)

  /** An event with the number of the ledger it was published in. */
  datatype Entry = Entry(ledger: nat, event: Event)

  /** `NotSigned` is the host trapping in `require_auth`. */
  datatype Error =
    | AlreadyInitialized | NotInitialized | Unauthorized
    | RecordAlreadyExists | RecordNotFound | RecordRevoked | NotSigned

  datatype Storage = Storage(admin: Option<Address>, writers: map<Address, bool>, records: map<Hash, AnchorRecord>)

  const EMPTY := Storage(None, map[], map[])

  predicate IsWriter(st: Storage, a: Address) {
    a in st.writers && st.writers[a]
  }

  // ----- the log as the storage's meaning

  /** What a reader of the events would do to a copy of the storage. */
  function Apply(st: Storage, entry: Entry): Storage {
    match entry.event
    case Initialized(a) => st.(admin := Some(a), writers := st.writers[a := true])
    case WriterUpdated(w, on) => st.(writers := st.writers[w := on])
    case AnchorRegistered(b, issuer, root, manifest, evidence) =>
      st.(records := st.records[b := AnchorRecord(b, root, manifest, evidence, issuer, entry.ledger, Active, None)])
    case AnchorRevoked(b, _, reason) =>
      if b in st.records then st.(records := st.records[b := st.records[b].(status := Revoked, reason := Some(reason))])
      else st
  }

  function Replay(log: seq<Entry>): Storage {
    if log == [] then EMPTY else Apply(Replay(log[..|log| - 1]), log[|log| - 1])
  }

  lemma ReplaySnoc(log: seq<Entry>, entry: Entry)
    ensures Replay(log + [entry]) == Apply(Replay(log), entry)
  {
    assert (log + [entry])[..|log|] == log;
  }

  /** The event was allowed where it was published. */
  predicate Allowed(st: Storage, e: Event) {
    match e
    case Initialized(_) => st.admin.None?
    case WriterUpdated(_, _) => st.admin.Some?
    case AnchorRegistered(b, issuer, _, _, _) => st.admin.Some? && IsWriter(st, issuer) && b !in st.records
    case AnchorRevoked(b, caller, _) =>
      && st.admin.Some? && b in st.records && st.records[b].status == Active
      && (caller == st.admin.value || caller == st.records[b].issuer)
  }

  ghost predicate Lawful(log: seq<Entry>) {
    forall i :: 0 <= i < |log| ==> Allowed(Replay(log[..i]), log[i].event)
  }

  lemma LawfulSnoc(log: seq<Entry>, entry: Entry)
    requires Lawful(log) && Allowed(Replay(log), entry.event)
    ensures Lawful(log + [entry])
  {
    forall i | 0 <= i < |log + [entry]| ensures Allowed(Replay((log + [entry])[..i]), (log + [entry])[i].event) {
      if i < |log| { assert (log + [entry])[..i] == log[..i]; } else { assert (log + [entry])[..i] == log; }
    }
  }

  // ----- what the storage says about the log

  predicate RegistersAt(log: seq<Entry>, i: int, b: Hash) {
    0 <= i < |log| && log[i].event.AnchorRegistered? && log[i].event.batch == b
  }

  predicate RevokesAt(log: seq<Entry>, i: int, b: Hash) {
    0 <= i < |log| && log[i].event.AnchorRevoked? && log[i].event.batch == b
  }

  ghost predicate EverRevoked(log: seq<Entry>, b: Hash) {
    exists j :: RevokesAt(log, j, b)
  }

  /** The record of a batch repeats its registration, and shows a revocation if there was one. */
  ghost predicate RecordTells(log: seq<Entry>, b: Hash, i: int, r: AnchorRecord) {
    && RegistersAt(log, i, b)
    && r.batch == b && r.root == log[i].event.root && r.manifest == log[i].event.manifest
    && r.evidence == log[i].event.evidence && r.issuer == log[i].event.issuer && r.ledger == log[i].ledger
    && (r.status == Revoked <==> EverRevoked(log, b))
    && (r.reason.Some? <==> EverRevoked(log, b))
    && (forall j :: RevokesAt(log, j, b) ==> r.reason == Some(log[j].event.reason))
  }

  lemma Extended(log: seq<Entry>, entry: Entry, b: Hash)
    ensures forall i :: i < |log| ==> (RegistersAt(log + [entry], i, b) <==> RegistersAt(log, i, b))
    ensures forall i :: i < |log| ==> (RevokesAt(log + [entry], i, b) <==> RevokesAt(log, i, b))
    ensures EverRevoked(log + [entry], b) <==>
              EverRevoked(log, b) || (entry.event.AnchorRevoked? && entry.event.batch == b)
  {
    var more := log + [entry];
    if EverRevoked(log, b) {
      var j :| RevokesAt(log, j, b);
      assert RevokesAt(more, j, b);
    }
    if entry.event.AnchorRevoked? && entry.event.batch == b { assert RevokesAt(more, |log|, b); }
    if EverRevoked(more, b) {
      var j :| RevokesAt(more, j, b);
      assert j < |log| ==> RevokesAt(log, j, b);
    }
  }

  lemma LawfulPrefix(log: seq<Entry>, k: nat)
    requires Lawful(log) && k <= |log|
    ensures Lawful(log[..k])
  {
    forall i | 0 <= i < k ensures Allowed(Replay(log[..k][..i]), log[..k][i].event) {
      assert log[..k][..i] == log[..i];
    }
  }

  /** In every lawful log a batch is registered at most once and revoked at most once, and the
      record, if there is one, tells exactly that. */
  lemma {:induction false} StorageMeaning(log: seq<Entry>, b: Hash)
    requires Lawful(log)
    ensures b in Replay(log).records <==> exists i :: RegistersAt(log, i, b)
    ensures b in Replay(log).records ==>
              exists i :: RegistersAt(log, i, b) && RecordTells(log, b, i, Replay(log).records[b])
    ensures b !in Replay(log).records ==> !EverRevoked(log, b)
    ensures forall i, j :: RegistersAt(log, i, b) && RegistersAt(log, j, b) ==> i == j
    ensures forall i, j :: RevokesAt(log, i, b) && RevokesAt(log, j, b) ==> i == j
    decreases |log|
  {
    if log != [] {
      var n := |log| - 1;
      var before, entry := log[..n], log[n];
      assert log == before + [entry];
      LawfulPrefix(log, n);
      StorageMeaning(before, b);
      Extended(before, entry, b);
      assert Allowed(Replay(before), entry.event);
      StepMeaning(before, entry, b);
    }
  }

  lemma StepMeaning(log: seq<Entry>, entry: Entry, b: Hash)
    requires Allowed(Replay(log), entry.event)
    requires b in Replay(log).records <==> exists i :: RegistersAt(log, i, b)
    requires b in Replay(log).records ==>
               exists i :: RegistersAt(log, i, b) && RecordTells(log, b, i, Replay(log).records[b])
    requires b !in Replay(log).records ==> !EverRevoked(log, b)
    requires forall i, j :: RegistersAt(log, i, b) && RegistersAt(log, j, b) ==> i == j
    requires forall i, j :: RevokesAt(log, i, b) && RevokesAt(log, j, b) ==> i == j
    ensures var more := log + [entry];
            && (b in Replay(more).records <==> exists i :: RegistersAt(more, i, b))
            && (b in Replay(more).records ==>
                  exists i :: RegistersAt(more, i, b) && RecordTells(more, b, i, Replay(more).records[b]))
            && (b !in Replay(more).records ==> !EverRevoked(more, b))
            && (forall i, j :: RegistersAt(more, i, b) && RegistersAt(more, j, b) ==> i == j)
            && (forall i, j :: RevokesAt(more, i, b) && RevokesAt(more, j, b) ==> i == j)
  {
    var more := log + [entry];
    ReplaySnoc(log, entry);
    Extended(log, entry, b);
    if b in Replay(log).records {
      var i :| RegistersAt(log, i, b) && RecordTells(log, b, i, Replay(log).records[b]);
      assert RegistersAt(more, i, b);
      StepTells(log, entry, b, i);
    } else if b in Replay(more).records {
      assert RegistersAt(more, |log|, b);
      assert forall j :: RevokesAt(more, j, b) ==> EverRevoked(more, b);
      assert RecordTells(more, b, |log|, Replay(more).records[b]);
    }
  }

  lemma StepTells(log: seq<Entry>, entry: Entry, b: Hash, i: int)
    requires Allowed(Replay(log), entry.event) && b in Replay(log).records
    requires RecordTells(log, b, i, Replay(log).records[b])
    ensures var st := Apply(Replay(log), entry);
            b in st.records && RecordTells(log + [entry], b, i, st.records[b])
  {
    var more, r := log + [entry], Apply(Replay(log), entry).records[b];
    Extended(log, entry, b);
    forall j | RevokesAt(more, j, b) ensures r.reason == Some(more[j].event.reason) {
      assert j < |log| ==> RevokesAt(log, j, b);
      if j < |log| { assert EverRevoked(log, b); }
    }
  }

  // ----- who may do what

  /** The event makes the address a writer, or takes that away. */
  predicate Grants(e: Event, a: Address, on: bool) {
    (on && e == Initialized(a)) || e == WriterUpdated(a, on)
  }

  predicate GrantsAt(log: seq<Entry>, i: int, a: Address, on: bool) {
    0 <= i < |log| && Grants(log[i].event, a, on)
  }

  /** Somebody made the address a writer, and nobody has taken that away since. */
  ghost predicate Granted(log: seq<Entry>, a: Address) {
    exists i :: GrantsAt(log, i, a, true) && forall j :: i < j ==> !GrantsAt(log, j, a, false)
  }

  lemma GrantedSnoc(log: seq<Entry>, entry: Entry, a: Address)
    ensures Granted(log + [entry], a) <==>
              Grants(entry.event, a, true) || (Granted(log, a) && !Grants(entry.event, a, false))
  {
    var more, n := log + [entry], |log|;
    assert forall i, on :: i < n ==> (GrantsAt(more, i, a, on) <==> GrantsAt(log, i, a, on));
    assert forall on :: GrantsAt(more, n, a, on) <==> Grants(entry.event, a, on);
    if Grants(entry.event, a, true) { assert GrantsAt(more, n, a, true); }
    if i :| Granted(log, a) && !Grants(entry.event, a, false)
            && GrantsAt(log, i, a, true) && forall j :: i < j ==> !GrantsAt(log, j, a, false) {
      assert GrantsAt(more, i, a, true);
    }
  }

  /** The writers are those who were made writers last, and the admin is the address that was initialized. */
  lemma {:induction false} AccessMeaning(log: seq<Entry>)
    requires Lawful(log)
    ensures forall a :: IsWriter(Replay(log), a) <==> Granted(log, a)
    ensures forall a :: Replay(log).admin == Some(a) <==> exists i :: InitializesAt(log, i, a)
    decreases |log|
  {
    if log != [] {
      var n := |log| - 1;
      var init, entry := log[..n], log[n];
      assert log == init + [entry];
      LawfulPrefix(log, n);
      AccessMeaning(init);
      assert Allowed(Replay(init), entry.event);
      forall a ensures IsWriter(Replay(log), a) <==> Granted(log, a) { GrantedSnoc(init, entry, a); }
      forall a ensures Replay(log).admin == Some(a) <==> exists i :: InitializesAt(log, i, a) {
        AdminSnoc(init, entry, a);
      }
    }
  }

  predicate InitializesAt(log: seq<Entry>, i: int, a: Address) {
    0 <= i < |log| && log[i].event == Initialized(a)
  }

  lemma AdminSnoc(log: seq<Entry>, entry: Entry, a: Address)
    ensures (exists i :: InitializesAt(log + [entry], i, a))
       <==> (exists i :: InitializesAt(log, i, a)) || entry.event == Initialized(a)
  {
    if i :| InitializesAt(log, i, a) { assert InitializesAt(log + [entry], i, a); }
    if entry.event == Initialized(a) { assert InitializesAt(log + [entry], |log|, a); }
    if i :| InitializesAt(log + [entry], i, a) { assert i < |log| ==> InitializesAt(log, i, a); }
  }

  /** Every registration was made by a writer of that moment, for a batch that was never registered before;
      every revocation by the admin or by the address that had registered the batch. */
  lemma OnlyTheEntitled(log: seq<Entry>, k: nat)
    requires Lawful(log) && k < |log|
    ensures var e := log[k].event;
            && (e.AnchorRegistered? ==> Granted(log[..k], e.issuer) && forall i :: !RegistersAt(log[..k], i, e.batch))
            && (e.AnchorRevoked? ==>
                  && !EverRevoked(log[..k], e.batch)
                  && exists i :: && RegistersAt(log[..k], i, e.batch)
                                 && (log[i].event.issuer == e.caller || InitializedBy(log[..k], e.caller)))
            && (e.Initialized? ==> forall a :: !InitializedBy(log[..k], a))
  {
    var init, e := log[..k], log[k].event;
    LawfulPrefix(log, k);
    AccessMeaning(init);
    assert Allowed(Replay(init), e);
    if e.AnchorRegistered? { StorageMeaning(init, e.batch); }
    if e.AnchorRevoked? {
      StorageMeaning(init, e.batch);
      var i :| RegistersAt(init, i, e.batch) && RecordTells(init, e.batch, i, Replay(init).records[e.batch]);
      assert log[i] == init[i];
    }
    assert forall a :: InitializedBy(init, a) <==> Replay(init).admin == Some(a);
  }

  ghost predicate InitializedBy(log: seq<Entry>, a: Address) {
    exists i :: InitializesAt(log, i, a)
  }

  // ----- verification and history

  predicate Matching(st: Storage, b: Hash, root: Hash, manifest: Hash, evidence: Hash) {
    b in st.records && var r := st.records[b];
    r.status == Active && r.root == root && r.manifest == manifest && r.evidence == evidence
  }

  predicate RegistersAs(log: seq<Entry>, i: int, b: Hash, root: Hash, manifest: Hash, evidence: Hash) {
    && RegistersAt(log, i, b)
    && log[i].event.root == root && log[i].event.manifest == manifest && log[i].event.evidence == evidence
  }

  /** Verification says yes exactly for a batch that was registered with these hashes and never
      revoked, whoever did what in between. */
  lemma VerifyMeaning(log: seq<Entry>, b: Hash, root: Hash, manifest: Hash, evidence: Hash)
    requires Lawful(log)
    ensures Matching(Replay(log), b, root, manifest, evidence) <==>
              !EverRevoked(log, b) && exists i :: RegistersAs(log, i, b, root, manifest, evidence)
  {
    StorageMeaning(log, b);
    var st := Replay(log);
    if b in st.records {
      var i :| RegistersAt(log, i, b) && RecordTells(log, b, i, st.records[b]);
      if Matching(st, b, root, manifest, evidence) { assert RegistersAs(log, i, b, root, manifest, evidence); }
    } else {
      assert forall i :: RegistersAs(log, i, b, root, manifest, evidence) ==> RegistersAt(log, i, b);
    }
  }

  /** Later is the record as it was, or the same one revoked; and revoked is for good. */
  predicate Continues(before: AnchorRecord, after: AnchorRecord) {
    || after == before
    || (before.status == Active && after == before.(status := Revoked, reason := after.reason))
  }

  lemma ContinuesChain(a: AnchorRecord, b: AnchorRecord, c: AnchorRecord)
    requires Continues(a, b) && Continues(b, c)
    ensures Continues(a, c)
  {
  }

  lemma StepContinues(st: Storage, entry: Entry, b: Hash)
    requires Allowed(st, entry.event) && b in st.records
    ensures b in Apply(st, entry).records && Continues(st.records[b], Apply(st, entry).records[b])
  {
  }

  lemma StepFrom(log: seq<Entry>, k: nat, b: Hash)
    requires Lawful(log) && k < |log| && b in Replay(log[..k]).records
    ensures b in Replay(log[..k + 1]).records
    ensures Continues(Replay(log[..k]).records[b], Replay(log[..k + 1]).records[b])
  {
    assert log[..k + 1] == log[..k] + [log[k]];
    ReplaySnoc(log[..k], log[k]);
    assert Allowed(Replay(log[..k]), log[k].event);
    StepContinues(Replay(log[..k]), log[k], b);
  }

  /** Over every lawful history a record's hashes, issuer and ledger stay, and its status goes from
      active to revoked at most once. */
  lemma {:induction false} RecordsContinue(log: seq<Entry>, k: nat, b: Hash)
    requires Lawful(log) && k <= |log| && b in Replay(log[..k]).records
    ensures b in Replay(log).records && Continues(Replay(log[..k]).records[b], Replay(log).records[b])
    decreases |log| - k
  {
    if k == |log| {
      assert log[..k] == log;
    } else {
      StepFrom(log, k, b);
      RecordsContinue(log, k + 1, b);
      ContinuesChain(Replay(log[..k]).records[b], Replay(log[..k + 1]).records[b], Replay(log).records[b]);
    }
  }

  /** The admin never changes. */
  lemma {:induction false} AdminStays(log: seq<Entry>, k: nat)
    requires Lawful(log) && k <= |log| && Replay(log[..k]).admin.Some?
    ensures Replay(log).admin == Replay(log[..k]).admin
    decreases |log| - k
  {
    if k == |log| {
      assert log[..k] == log;
    } else {
      assert log[..k + 1] == log[..k] + [log[k]];
      ReplaySnoc(log[..k], log[k]);
      AdminStays(log, k + 1);
    }
  }

  // ----- the contract

  /** `signers` are the addresses that authorised the invocation, `ledger` the current ledger. */
  class Registry {
    var admin: Option<Address>
    var writers: map<Address, bool>
    var records: map<Hash, AnchorRecord>
    var log: seq<Entry>

    ghost function Stored(): Storage
      reads this
    {
      Storage(admin, writers, records)
    }

    /** The storage is the replay of the published events, all of which were allowed. */
    ghost predicate Valid()
      reads this
    {
      Stored() == Replay(log) && Lawful(log)
    }

    constructor ()
      ensures Valid() && log == []
    {
      admin, writers, records, log := None, map[], map[], [];
    }

    /** A refused call changes nothing; an accepted one publishes one event. */
    ghost method Published(before: seq<Entry>, entry: Entry)
      requires Lawful(before) && Allowed(Replay(before), entry.event)
      requires log == before + [entry] && Stored() == Apply(Replay(before), entry)
      ensures Valid()
    {
      ReplaySnoc(before, entry);
      LawfulSnoc(before, entry);
    }

    method Initialize(address: Address, signers: set<Address>, ledger: nat) returns (r: Result<(), Error>)
      requires Valid()
      modifies this
      ensures Valid()
      ensures r == if old(admin).Some? then Err(AlreadyInitialized)
                   else if address !in signers then Err(NotSigned) else Ok(())
      ensures log == if r.Ok? then old(log) + [Entry(ledger, Initialized(address))] else old(log)
    {
      if admin.Some? { return Err(AlreadyInitialized); }
      if address !in signers { return Err(NotSigned); }
      admin := Some(address);
      writers := writers[address := true];
      log := log + [Entry(ledger, Initialized(address))];
      Published(old(log), Entry(ledger, Initialized(address)));
      return Ok(());
    }

    method SetWriter(writer: Address, authorized: bool, signers: set<Address>, ledger: nat)
      returns (r: Result<(), Error>)
      requires Valid()
      modifies this
      ensures Valid()
      ensures r == if admin.None? then Err(NotInitialized)
                   else if admin.value !in signers then Err(NotSigned) else Ok(())
      ensures log == if r.Ok? then old(log) + [Entry(ledger, WriterUpdated(writer, authorized))] else old(log)
    {
      if admin.None? { return Err(NotInitialized); }
      if admin.value !in signers { return Err(NotSigned); }
      writers := writers[writer := authorized];
      log := log + [Entry(ledger, WriterUpdated(writer, authorized))];
      Published(old(log), Entry(ledger, WriterUpdated(writer, authorized)));
      return Ok(());
    }

    method Register(writer: Address, batch: Hash, root: Hash, manifest: Hash, evidence: Hash,
                    signers: set<Address>, ledger: nat) returns (r: Result<AnchorRecord, Error>)
      requires Valid()
      modifies this
      ensures Valid()
      ensures r.Err? ==> r.error == if admin.None? then NotInitialized
                                    else if writer !in signers then NotSigned
                                    else if !IsWriter(Stored(), writer) then Unauthorized else RecordAlreadyExists
      ensures r.Ok? <==> admin.Some? && writer in signers && IsWriter(Stored(), writer) && batch !in old(records)
      ensures r.Ok? ==> batch in records && records[batch] == r.value
      ensures log == if r.Err? then old(log)
                     else old(log) + [Entry(ledger, AnchorRegistered(batch, writer, root, manifest, evidence))]
    {
      if admin.None? { return Err(NotInitialized); }
      if writer !in signers { return Err(NotSigned); }
      if !(writer in writers && writers[writer]) { return Err(Unauthorized); }
      if batch in records { return Err(RecordAlreadyExists); }
      var record := AnchorRecord(batch, root, manifest, evidence, writer, ledger, Active, None);
      records := records[batch := record];
      log := log + [Entry(ledger, AnchorRegistered(batch, writer, root, manifest, evidence))];
      Published(old(log), Entry(ledger, AnchorRegistered(batch, writer, root, manifest, evidence)));
      return Ok(record);
    }

    method Revoke(caller: Address, batch: Hash, reason: Hash, signers: set<Address>, ledger: nat)
      returns (r: Result<AnchorRecord, Error>)
      requires Valid()
      modifies this
      ensures Valid()
      ensures r.Err? ==> r.error == if admin.None? then NotInitialized
                                    else if caller !in signers then NotSigned
                                    else if batch !in records then RecordNotFound
                                    else if records[batch].status == Revoked then RecordRevoked else Unauthorized
      ensures r.Ok? <==> && admin.Some? && caller in signers && batch in old(records)
                         && old(records)[batch].status == Active
                         && (caller == admin.value || caller == old(records)[batch].issuer)
      ensures r.Ok? ==> batch in records && records[batch] == r.value
      ensures log == if r.Err? then old(log) else old(log) + [Entry(ledger, AnchorRevoked(batch, caller, reason))]
    {
      if admin.None? { return Err(NotInitialized); }
      if caller !in signers { return Err(NotSigned); }
      if batch !in records { return Err(RecordNotFound); }
      var record := records[batch];
      if record.status == Revoked { return Err(RecordRevoked); }
      if caller != admin.value && caller != record.issuer { return Err(Unauthorized); }
      record := record.(status := Revoked, reason := Some(reason));
      records := records[batch := record];
      log := log + [Entry(ledger, AnchorRevoked(batch, caller, reason))];
      Published(old(log), Entry(ledger, AnchorRevoked(batch, caller, reason)));
      return Ok(record);
    }

    method Get(batch: Hash) returns (r: Result<AnchorRecord, Error>)
      requires Valid()
      ensures r.Err? ==> r.error == RecordNotFound && forall i :: !RegistersAt(log, i, batch)
      ensures r.Ok? ==> exists i :: RegistersAt(log, i, batch) && RecordTells(log, batch, i, r.value)
    {
      StorageMeaning(log, batch);
      if batch !in records { return Err(RecordNotFound); }
      return Ok(records[batch]);
    }

    method Verify(batch: Hash, root: Hash, manifest: Hash, evidence: Hash) returns (ok: bool)
      requires Valid()
      ensures ok <==>
                !EverRevoked(log, batch) && exists i :: RegistersAs(log, i, batch, root, manifest, evidence)
    {
      VerifyMeaning(log, batch, root, manifest, evidence);
      if batch !in records { return false; }
      var r := records[batch];
      return r.status == Active && r.root == root && r.manifest == manifest && r.evidence == evidence;
    }
  }
}
