/** External assignment sync: a registry of source accounts (connections from
    one owner to an external platform, unique per owner and source name) and a
    mapping store from (source account, external id) to the internal assignment
    and the external modification time last reconciled. Change detection
    compares a polled batch against the mapping store with a strict timestamp
    rule; recording a resolution is an upsert. */
module ExternalAssignmentSync {
  import opened Common
  import CanvasApi

  type UserId = string
  type AssignmentRef = string

  datatype ConnectionDetails = ConnectionDetails(apiToken: string, baseUrl: string)

  datatype SourceAccount = SourceAccount(
    id: Id,
    owner: UserId,
    sourceType: string,
    sourceName: string,
    connectionDetails: ConnectionDetails,
    lastSuccessfulPoll: Option<Time>)

  datatype Mapping = Mapping(
    id: Id,
    source: Id,
    externalId: string,
    internalAssignment: AssignmentRef,
    lastExternalModificationTimestamp: Time)

  datatype AssignmentDetails = AssignmentDetails(name: string, description: Option<string>, dueDate: Option<Time>)

  datatype RawAssignment = RawAssignment(externalId: string, details: AssignmentDetails, externalModificationTimestamp: Time)

  /** A new or changed record and the internal assignment it is mapped to, if any. */
  datatype WorkItem = WorkItem(raw: RawAssignment, existingInternalId: Option<AssignmentRef>)

  datatype ConnectionCause = AccountMissing | TokenRejected

  datatype SyncError =
    | DuplicateSource
    | InvalidCredentials
    | NetworkError
    | RateLimitExceeded
    | SourceNotFound
    | SourceConnectionError(cause: ConnectionCause)
    | MappingNotFound

  // ------------------------------------------------------ account registry

  function DifferentSourceName(a: SourceAccount, b: SourceAccount): bool {
    a.owner != b.owner || a.sourceName != b.sourceName
  }

  function DifferentAccountId(a: SourceAccount, b: SourceAccount): bool {
    a.id != b.id
  }

  predicate HasSourceNamed(accounts: seq<SourceAccount>, owner: UserId, sourceName: string) {
    exists i :: 0 <= i < |accounts| && accounts[i].owner == owner && accounts[i].sourceName == sourceName
  }

  /** Index of the first account with this id, or |accounts| when there is none. */
  function AccountIndex(accounts: seq<SourceAccount>, id: Id): (k: nat)
    ensures k <= |accounts|
    ensures k < |accounts| ==> accounts[k].id == id
    ensures forall j :: 0 <= j < k ==> accounts[j].id != id
  {
    FirstIndex(accounts, (a: SourceAccount) => a.id == id)
  }

  predicate HasAccount(accounts: seq<SourceAccount>, id: Id) {
    exists i :: 0 <= i < |accounts| && accounts[i].id == id
  }

  /** The accounts left after deleting the one with this id. */
  function WithoutAccount(accounts: seq<SourceAccount>, id: Id): seq<SourceAccount> {
    Filter(accounts, (a: SourceAccount) => a.id != id)
  }

  function OwnedBy(accounts: seq<SourceAccount>, user: UserId): seq<SourceAccount> {
    Filter(accounts, (a: SourceAccount) => a.owner == user)
  }

  // ---------------------------------------------------------- mapping store

  function DifferentKey(m: Mapping, n: Mapping): bool {
    m.source != n.source || m.externalId != n.externalId
  }

  /** At most one mapping per (source, externalId). */
  ghost predicate KeysUnique(ms: seq<Mapping>) {
    Pairwise(ms, DifferentKey)
  }

  /** Index of the first mapping with this key, or |ms| when there is none. */
  function MappingIndex(ms: seq<Mapping>, source: Id, externalId: string): (k: nat)
    ensures k <= |ms|
    ensures k < |ms| ==> ms[k].source == source && ms[k].externalId == externalId
    ensures forall j :: 0 <= j < k ==> !(ms[j].source == source && ms[j].externalId == externalId)
  {
    FirstIndex(ms, (m: Mapping) => m.source == source && m.externalId == externalId)
  }

  /** `findOne({ source, externalId })`. */
  function Lookup(ms: seq<Mapping>, source: Id, externalId: string): (r: Option<Mapping>)
    ensures r.Some? ==> r.value in ms && r.value.source == source && r.value.externalId == externalId
    ensures r.None? <==> forall j :: 0 <= j < |ms| ==> !(ms[j].source == source && ms[j].externalId == externalId)
  {
    var k := MappingIndex(ms, source, externalId);
    if k < |ms| then Some(ms[k]) else None
  }

  function MappingsOf(ms: seq<Mapping>, source: Id): seq<Mapping> {
    Filter(ms, (m: Mapping) => m.source == source)
  }

  function DetachedFrom(ms: seq<Mapping>, source: Id): seq<Mapping> {
    Filter(ms, (m: Mapping) => m.source != source)
  }

  // -------------------------------------------------------- change detection

  /** The work items one raw record yields: none, or one. */
  function Emitted(ms: seq<Mapping>, source: Id, raw: RawAssignment): seq<WorkItem> {
    match Lookup(ms, source, raw.externalId)
    case None => [WorkItem(raw, None)]
    case Some(m) =>
      if raw.externalModificationTimestamp > m.lastExternalModificationTimestamp
      then [WorkItem(raw, Some(m.internalAssignment))]
      else []
  }

  /** The work list for a batch, record by record in batch order. */
  function Classify(ms: seq<Mapping>, source: Id, raws: seq<RawAssignment>): seq<WorkItem>
    decreases |raws|
  {
    if raws == [] then []
    else Classify(ms, source, raws[..|raws| - 1]) + Emitted(ms, source, raws[|raws| - 1])
  }

  /** The work list of two batches is the two work lists in order. */
  lemma {:induction false} ClassifyAppend(ms: seq<Mapping>, source: Id, a: seq<RawAssignment>, b: seq<RawAssignment>)
    ensures Classify(ms, source, a + b) == Classify(ms, source, a) + Classify(ms, source, b)
    decreases |b|
  {
    if b == [] {
      assert a + b == a;
    } else {
      var b' := b[..|b| - 1];
      assert (a + b)[..|a + b| - 1] == a + b';
      assert (a + b)[|a + b| - 1] == b[|b| - 1];
      ClassifyAppend(ms, source, a, b');
    }
  }

  /** Every work item comes from a record of the batch and is new (no mapping)
      or strictly newer than its mapping, carrying the mapped internal id. */
  lemma {:induction false} ClassifySound(ms: seq<Mapping>, source: Id, raws: seq<RawAssignment>, w: WorkItem)
    requires w in Classify(ms, source, raws)
    ensures w.raw in raws
    ensures Lookup(ms, source, w.raw.externalId).None? ==> w.existingInternalId.None?
    ensures Lookup(ms, source, w.raw.externalId).Some? ==>
      var m := Lookup(ms, source, w.raw.externalId).value;
      w.raw.externalModificationTimestamp > m.lastExternalModificationTimestamp &&
      w.existingInternalId == Some(m.internalAssignment)
    decreases |raws|
  {
    var init := raws[..|raws| - 1];
    if w in Classify(ms, source, init) {
      ClassifySound(ms, source, init, w);
    }
  }

  /** Every record of the batch that has no mapping, or a strictly newer
      timestamp than its mapping, is in the work list; a record whose timestamp
      is equal or older leaves nothing. */
  lemma {:induction false} ClassifyComplete(ms: seq<Mapping>, source: Id, raws: seq<RawAssignment>, raw: RawAssignment)
    requires raw in raws
    ensures Lookup(ms, source, raw.externalId).None? ==> WorkItem(raw, None) in Classify(ms, source, raws)
    ensures Lookup(ms, source, raw.externalId).Some? ==>
      var m := Lookup(ms, source, raw.externalId).value;
      (raw.externalModificationTimestamp > m.lastExternalModificationTimestamp ==>
         WorkItem(raw, Some(m.internalAssignment)) in Classify(ms, source, raws)) &&
      (raw.externalModificationTimestamp <= m.lastExternalModificationTimestamp ==>
         forall k :: 0 <= k < |Classify(ms, source, raws)| ==> Classify(ms, source, raws)[k].raw != raw)
    decreases |raws|
  {
    var init := raws[..|raws| - 1];
    var last := raws[|raws| - 1];
    assert raws == init + [last];
    if raw in init {
      ClassifyComplete(ms, source, init, raw);
    }
    var m := Lookup(ms, source, raw.externalId);
    if m.Some? && raw.externalModificationTimestamp <= m.value.lastExternalModificationTimestamp {
      forall k | 0 <= k < |Classify(ms, source, raws)| ensures Classify(ms, source, raws)[k].raw != raw {
        var w := Classify(ms, source, raws)[k];
        if w.raw == raw {
          ClassifySound(ms, source, raws, w);
        }
      }
    }
  }

  /** No more work items than records. */
  lemma {:induction false} ClassifyLength(ms: seq<Mapping>, source: Id, raws: seq<RawAssignment>)
    ensures |Classify(ms, source, raws)| <= |raws|
    decreases |raws|
  {
    if raws != [] {
      ClassifyLength(ms, source, raws[..|raws| - 1]);
    }
  }

  // ------------------------------------------------------------ the upsert

  /** `recordInternalSync` on the mapping store: overwrite the mapping for the
      key, or append a new one with the given fresh id. */
  function Upsert(ms: seq<Mapping>, source: Id, externalId: string, internalId: AssignmentRef, stamp: Time, freshId: Id): seq<Mapping> {
    var k := MappingIndex(ms, source, externalId);
    if k < |ms|
    then ms[k := ms[k].(internalAssignment := internalId, lastExternalModificationTimestamp := stamp)]
    else ms + [Mapping(freshId, source, externalId, internalId, stamp)]
  }

  /** After the upsert the key maps to the given internal id and timestamp,
      and every other key maps to what it mapped to before. */
  lemma UpsertLookup(ms: seq<Mapping>, source: Id, externalId: string, internalId: AssignmentRef, stamp: Time, freshId: Id, s: Id, e: string)
    ensures var after := Lookup(Upsert(ms, source, externalId, internalId, stamp, freshId), s, e);
      if s == source && e == externalId
      then after.Some? && after.value.internalAssignment == internalId &&
           after.value.lastExternalModificationTimestamp == stamp
      else after == Lookup(ms, s, e)
  {
    var k := MappingIndex(ms, source, externalId);
    var ms' := Upsert(ms, source, externalId, internalId, stamp, freshId);
    var j' := MappingIndex(ms', s, e);
    if s != source || e != externalId {
      var j := MappingIndex(ms, s, e);
      assert forall x :: 0 <= x < |ms| ==> ms'[x].source == ms[x].source && ms'[x].externalId == ms[x].externalId;
      assert forall x :: 0 <= x < |ms| && x != k ==> ms'[x] == ms[x];
      if j < |ms| {
        assert ms'[j].source == s && ms'[j].externalId == e;
        assert j' == j;
      } else {
        assert j' >= |ms|;
      }
    } else if k < |ms| {
      assert ms'[k].source == s && ms'[k].externalId == e;
      assert j' == k;
    } else {
      assert ms'[|ms|].source == s && ms'[|ms|].externalId == e;
      assert j' == |ms|;
    }
  }

  /** Every mapping under another key is left exactly where and as it was; the
      store grows by at most one mapping. */
  lemma UpsertLeavesOthers(ms: seq<Mapping>, source: Id, externalId: string, internalId: AssignmentRef, stamp: Time, freshId: Id)
    ensures var ms' := Upsert(ms, source, externalId, internalId, stamp, freshId);
      |ms| <= |ms'| <= |ms| + 1 &&
      forall j :: 0 <= j < |ms| && !(ms[j].source == source && ms[j].externalId == externalId) ==> ms'[j] == ms[j]
  {
  }

  /** The upsert keeps (source, externalId) unique. */
  lemma UpsertKeepsKeysUnique(ms: seq<Mapping>, source: Id, externalId: string, internalId: AssignmentRef, stamp: Time, freshId: Id)
    requires KeysUnique(ms)
    ensures KeysUnique(Upsert(ms, source, externalId, internalId, stamp, freshId))
  {
    var k := MappingIndex(ms, source, externalId);
    var ms' := Upsert(ms, source, externalId, internalId, stamp, freshId);
    forall i, j | 0 <= i < j < |ms'| ensures DifferentKey(ms'[i], ms'[j]) {
      if j == |ms| {
        assert ms'[i] == ms[i];
      } else {
        assert DifferentKey(ms[i], ms[j]);
      }
    }
  }

  /** Repeating a call with the same arguments gives the state one call gave,
      whatever id the fresh-id source would have offered the second time. */
  lemma UpsertIdempotent(ms: seq<Mapping>, source: Id, externalId: string, internalId: AssignmentRef, stamp: Time, freshId: Id, freshId2: Id)
    ensures var once := Upsert(ms, source, externalId, internalId, stamp, freshId);
      Upsert(once, source, externalId, internalId, stamp, freshId2) == once
  {
    var k := MappingIndex(ms, source, externalId);
    var once := Upsert(ms, source, externalId, internalId, stamp, freshId);
    var k2 := MappingIndex(once, source, externalId);
    if k < |ms| {
      assert once[k].source == source && once[k].externalId == externalId;
    } else {
      assert once[|ms|].source == source && once[|ms|].externalId == externalId;
    }
  }

  /** After recording (s, e, i, t), a later record for e is a work item exactly
      when its timestamp is greater than t, and it then carries i. */
  lemma RecordedThenClassified(ms: seq<Mapping>, source: Id, externalId: string, internalId: AssignmentRef, stamp: Time, freshId: Id, raw: RawAssignment)
    requires raw.externalId == externalId
    ensures var ms' := Upsert(ms, source, externalId, internalId, stamp, freshId);
      Emitted(ms', source, raw) ==
        if raw.externalModificationTimestamp > stamp then [WorkItem(raw, Some(internalId))] else []
  {
    UpsertLookup(ms, source, externalId, internalId, stamp, freshId, source, externalId);
  }

  /** One reconciliation cycle: two assignments with no mapping are both new
      work; once the first is mapped at its timestamp, a newer version of it
      is changed work and the same version is not. */
  lemma ReconciliationScenario(source: Id, d: AssignmentDetails, freshId: Id)
    ensures var r1 := RawAssignment("1", d, 100);
      var r2 := RawAssignment("2", d, 100);
      var ms := Upsert([], source, "1", "I1", 100, freshId);
      Classify([], source, [r1, r2]) == [WorkItem(r1, None), WorkItem(r2, None)] &&
      Classify(ms, source, [RawAssignment("1", d, 150)]) == [WorkItem(RawAssignment("1", d, 150), Some("I1"))] &&
      Classify(ms, source, [r1]) == []
  {
    var r1 := RawAssignment("1", d, 100);
    var r2 := RawAssignment("2", d, 100);
    var r3 := RawAssignment("1", d, 150);
    var ms := Upsert([], source, "1", "I1", 100, freshId);
    assert [r1, r2][..1] == [r1];
    assert [r1][..0] == [];
    assert [r3][..0] == [];
    assert Classify([], source, [r1]) == [WorkItem(r1, None)];
    assert Classify([], source, [r1, r2]) == [WorkItem(r1, None)] + Emitted([], source, r2);
    RecordedThenClassified([], source, "1", "I1", 100, freshId, r3);
    RecordedThenClassified([], source, "1", "I1", 100, freshId, r1);
    assert Classify(ms, source, [r3]) == Emitted(ms, source, r3);
    assert Classify(ms, source, [r1]) == Emitted(ms, source, r1);
  }

  // -------------------------------------------------------------- polling

  /** The record `pollExternalSource` builds from a Canvas assignment:
      `String(id)`, `description || undefined`, the due time when `due_at`
      is set, and `updated_at` as the modification timestamp. */
  function Normalize(a: CanvasApi.CanvasAssignment): (r: RawAssignment)
    ensures r.externalId == DecimalString(a.id)
    ensures r.details.dueDate.None? <==> !(a.dueAt.Some? && a.dueAt.value.text != "")
    ensures r.details.dueDate.Some? ==> r.details.dueDate.value == a.dueAt.value.millis
    ensures r.externalModificationTimestamp == a.updatedAt.millis
  {
    RawAssignment(
      DecimalString(a.id),
      AssignmentDetails(
        a.name,
        if a.description.Some? && a.description.value != "" then a.description else None,
        if a.dueAt.Some? && a.dueAt.value.text != "" then Some(a.dueAt.value.millis) else None),
      a.updatedAt.millis)
  }

  /** Distinct Canvas ids give distinct external ids. */
  lemma NormalizeSeparatesIds(a: CanvasApi.CanvasAssignment, b: CanvasApi.CanvasAssignment)
    requires a.id != b.id
    ensures Normalize(a).externalId != Normalize(b).externalId
  {
    if Normalize(a).externalId == Normalize(b).externalId {
      DecimalStringInjective(a.id, b.id);
    }
  }

  /** What a successful Canvas poll returns, item by item. */
  function NormalizeAll(xs: seq<CanvasApi.CanvasAssignment>): (r: seq<RawAssignment>)
    ensures |r| == |xs|
    ensures forall i :: 0 <= i < |xs| ==> r[i] == Normalize(xs[i])
  {
    seq(|xs|, i requires 0 <= i < |xs| => Normalize(xs[i]))
  }

  /** The placeholder batch polled from a source that is not Canvas. */
  const MockAssignment: RawAssignment :=
    RawAssignment("mock-assign-1", AssignmentDetails("Mock Assignment 1", Some("First assignment"), Some(1678886400000)), 1678800000000)

  /** The error a failed Canvas fetch is reported as; anything unrecognised is
      folded into the network error. */
  function PollError(e: CanvasApi.Raised): (r: SyncError)
    ensures e == CanvasApi.Code(CanvasApi.InvalidCredentials) <==> r == SourceConnectionError(TokenRejected)
    ensures e == CanvasApi.Code(CanvasApi.RateLimit) <==> r == RateLimitExceeded
    ensures r == NetworkError <==> e != CanvasApi.Code(CanvasApi.InvalidCredentials) && e != CanvasApi.Code(CanvasApi.RateLimit)
  {
    if e == CanvasApi.Code(CanvasApi.InvalidCredentials) then SourceConnectionError(TokenRejected)
    else if e == CanvasApi.Code(CanvasApi.RateLimit) then RateLimitExceeded
    else NetworkError
  }

  /** How connectSource judges the credentials: the Canvas check, or for other
      platforms the placeholder rule that rejects the token "invalid_token". */
  function CredentialVerdict(sourceType: string, details: ConnectionDetails, reply: CanvasApi.Reply<()>): (r: Option<SyncError>)
    ensures r.None? || r == Some(InvalidCredentials) || r == Some(NetworkError)
    ensures sourceType == "Canvas" ==>
      (r.None? <==> CanvasApi.ValidateCanvasCredentials(reply) == CanvasApi.Accepted) &&
      (r == Some(NetworkError) <==> CanvasApi.ValidateCanvasCredentials(reply) == CanvasApi.Unreachable)
    ensures sourceType != "Canvas" ==> (r.None? <==> details.apiToken != "invalid_token")
  {
    if sourceType == "Canvas" then
      match CanvasApi.ValidateCanvasCredentials(reply)
      case Accepted => None
      case Rejected => Some(InvalidCredentials)
      case Unreachable => Some(NetworkError)
    else if details.apiToken == "invalid_token" then Some(InvalidCredentials)
    else None
  }

  // ------------------------------------------------------------ the concept

  class ExternalAssignmentSyncConcept {
    var accounts: seq<SourceAccount>
    var mappings: seq<Mapping>
    var nextId: Id

    ghost predicate Valid()
      reads this
    {
      && (forall i :: 0 <= i < |accounts| ==> accounts[i].id < nextId)
      && (forall i :: 0 <= i < |mappings| ==> mappings[i].id < nextId)
      && Pairwise(accounts, DifferentAccountId)
      && Pairwise(accounts, DifferentSourceName)
      && KeysUnique(mappings)
    }

    constructor ()
      ensures Valid() && accounts == [] && mappings == []
    {
      accounts, mappings, nextId := [], [], 0;
    }

    /** connectSource: the duplicate check comes first and consults nothing
        remote; then the credentials are judged; only then is one account
        inserted, with no successful poll yet. `validation` is the reply the
        platform would give to the credential check, and `consulted` tells
        whether that check was made. */
    method ConnectSource(owner: UserId, sourceType: string, sourceName: string, details: ConnectionDetails,
                         validation: CanvasApi.Reply<()>)
      returns (r: Result<Id, SyncError>, consulted: bool)
      requires Valid()
      modifies this
      ensures Valid()
      ensures mappings == old(mappings)
      ensures HasSourceNamed(old(accounts), owner, sourceName) ==> r == Err(DuplicateSource) && !consulted
      ensures consulted <==> !HasSourceNamed(old(accounts), owner, sourceName) && sourceType == "Canvas"
      ensures !HasSourceNamed(old(accounts), owner, sourceName) ==>
        match CredentialVerdict(sourceType, details, validation)
        case Some(e) => r == Err(e)
        case None => r == Ok(old(nextId))
      ensures r.Err? ==> accounts == old(accounts) && nextId == old(nextId)
      ensures r.Ok? ==> accounts == old(accounts) + [SourceAccount(r.value, owner, sourceType, sourceName, details, None)]
      ensures r.Ok? ==> !HasAccount(old(accounts), r.value)
    {
      consulted := false;
      if exists i :: 0 <= i < |accounts| && accounts[i].owner == owner && accounts[i].sourceName == sourceName {
        return Err(DuplicateSource), consulted;
      }
      if sourceType == "Canvas" {
        consulted := true;
        var check := CanvasApi.ValidateCanvasCredentials(validation);
        if check == CanvasApi.Rejected {
          return Err(InvalidCredentials), consulted;
        } else if check == CanvasApi.Unreachable {
          return Err(NetworkError), consulted;
        }
      } else if details.apiToken == "invalid_token" {
        return Err(InvalidCredentials), consulted;
      }
      var id := nextId;
      accounts := accounts + [SourceAccount(id, owner, sourceType, sourceName, details, None)];
      nextId := nextId + 1;
      r := Ok(id);
    }

    /** disconnectSource: deletes the account and every mapping whose source
        it is; other accounts and their mappings stay, in order. */
    method DisconnectSource(sourceAccount: Id) returns (r: Result<(), SyncError>)
      requires Valid()
      modifies this
      ensures Valid() && nextId == old(nextId)
      ensures !HasAccount(old(accounts), sourceAccount) ==>
        r == Err(SourceNotFound) && accounts == old(accounts) && mappings == old(mappings)
      ensures HasAccount(old(accounts), sourceAccount) ==>
        r == Ok(()) &&
        accounts == WithoutAccount(old(accounts), sourceAccount) &&
        mappings == DetachedFrom(old(mappings), sourceAccount)
      ensures forall i :: 0 <= i < |accounts| ==> accounts[i].id != sourceAccount
      ensures r.Ok? ==> forall j :: 0 <= j < |mappings| ==> mappings[j].source != sourceAccount
    {
      if !exists i :: 0 <= i < |accounts| && accounts[i].id == sourceAccount {
        return Err(SourceNotFound);
      }
      FilterPairwise(accounts, (a: SourceAccount) => a.id != sourceAccount, DifferentAccountId);
      FilterPairwise(accounts, (a: SourceAccount) => a.id != sourceAccount, DifferentSourceName);
      FilterPairwise(mappings, (m: Mapping) => m.source != sourceAccount, DifferentKey);
      accounts := WithoutAccount(accounts, sourceAccount);
      mappings := DetachedFrom(mappings, sourceAccount);
      r := Ok(());
    }

    /** pollExternalSource: on success it returns the normalised batch and
        sets only this account's lastSuccessfulPoll to `now`; every failure
        leaves the whole state as it was. `server` is what Canvas answers. */
    method PollExternalSource(sourceAccount: Id, server: CanvasApi.CanvasServer, now: Time)
      returns (r: Result<seq<RawAssignment>, SyncError>)
      requires Valid()
      modifies this
      ensures Valid()
      ensures mappings == old(mappings) && nextId == old(nextId)
      ensures r.Err? ==> accounts == old(accounts)
      ensures !HasAccount(old(accounts), sourceAccount) ==> r == Err(SourceConnectionError(AccountMissing))
      ensures HasAccount(old(accounts), sourceAccount) ==>
        var k := AccountIndex(old(accounts), sourceAccount);
        var a := old(accounts)[k];
        (a.sourceType == "Canvas" ==>
          match CanvasApi.FetchOutcome(server)
          case Ok(xs) => r == Ok(NormalizeAll(xs))
          case Err(e) => r == Err(PollError(e))) &&
        (a.sourceType != "Canvas" ==> r == Ok([MockAssignment])) &&
        (r.Ok? ==> accounts == old(accounts)[k := a.(lastSuccessfulPoll := Some(now))])
    {
      var k := AccountIndex(accounts, sourceAccount);
      if k == |accounts| {
        return Err(SourceConnectionError(AccountMissing));
      }
      var account := accounts[k];
      var raws: seq<RawAssignment>;
      if account.sourceType == "Canvas" {
        var fetched := CanvasApi.FetchCanvasAssignments(server);
        if fetched.Err? {
          return Err(PollError(fetched.error));
        }
        raws := NormalizeAll(fetched.value);
      } else {
        raws := [MockAssignment];
      }
      accounts := accounts[k := account.(lastSuccessfulPoll := Some(now))];
      r := Ok(raws);
    }

    /** identifyChanges: walks the batch in order and collects the new and
        changed records; it reads the mapping store and changes nothing. */
    method IdentifyChanges(sourceAccount: Id, raws: seq<RawAssignment>) returns (work: seq<WorkItem>)
      ensures work == Classify(mappings, sourceAccount, raws)
    {
      work := [];
      for i := 0 to |raws|
        invariant work == Classify(mappings, sourceAccount, raws[..i])
      {
        assert raws[..i + 1][..i] == raws[..i];
        var existing := Lookup(mappings, sourceAccount, raws[i].externalId);
        if existing.None? {
          work := work + [WorkItem(raws[i], None)];
        } else if raws[i].externalModificationTimestamp > existing.value.lastExternalModificationTimestamp {
          work := work + [WorkItem(raws[i], Some(existing.value.internalAssignment))];
        }
      }
      assert raws[..|raws|] == raws;
    }

    /** recordInternalSync: the upsert, drawing a fresh id only on insert. */
    method RecordInternalSync(sourceAccount: Id, externalId: string, internalId: AssignmentRef, stamp: Time)
      requires Valid()
      modifies this
      ensures Valid() && accounts == old(accounts)
      ensures mappings == Upsert(old(mappings), sourceAccount, externalId, internalId, stamp, old(nextId))
      ensures nextId == old(nextId) + (if Lookup(old(mappings), sourceAccount, externalId).Some? then 0 else 1)
      ensures GetMappedInternalId(externalId, sourceAccount) == Ok(internalId)
    {
      UpsertKeepsKeysUnique(mappings, sourceAccount, externalId, internalId, stamp, nextId);
      UpsertLookup(mappings, sourceAccount, externalId, internalId, stamp, nextId, sourceAccount, externalId);
      var k := MappingIndex(mappings, sourceAccount, externalId);
      if k < |mappings| {
        mappings := mappings[k := mappings[k].(internalAssignment := internalId, lastExternalModificationTimestamp := stamp)];
      } else {
        mappings := mappings + [Mapping(nextId, sourceAccount, externalId, internalId, stamp)];
        nextId := nextId + 1;
      }
    }

    /** _getSourcesForUser: the user's accounts, in collection order. */
    function GetSourcesForUser(user: UserId): (sources: seq<SourceAccount>)
      reads this
      ensures forall i :: 0 <= i < |sources| ==> sources[i] in accounts && sources[i].owner == user
      ensures forall i :: 0 <= i < |accounts| && accounts[i].owner == user ==> accounts[i] in sources
    {
      OwnedBy(accounts, user)
    }

    /** _getMappedInternalId: the internal id mapped to the key, if any. */
    function GetMappedInternalId(externalId: string, sourceAccount: Id): (r: Result<AssignmentRef, SyncError>)
      reads this
      ensures r.Err? ==> r.error == MappingNotFound
      ensures r.Ok? <==> exists j :: 0 <= j < |mappings| && mappings[j].source == sourceAccount && mappings[j].externalId == externalId
      ensures r.Ok? ==> exists j :: (0 <= j < |mappings| && mappings[j].source == sourceAccount &&
        mappings[j].externalId == externalId && mappings[j].internalAssignment == r.value)
    {
      match Lookup(mappings, sourceAccount, externalId)
      case None => Err(MappingNotFound)
      case Some(m) => Ok(m.internalAssignment)
    }

    /** _getAssignmentsForSource: the source's mappings, or SourceNotFound
        when the account does not exist. */
    function GetAssignmentsForSource(sourceAccount: Id): (r: Result<seq<Mapping>, SyncError>)
      reads this
      ensures r.Err? <==> !HasAccount(accounts, sourceAccount)
      ensures r.Err? ==> r.error == SourceNotFound
      ensures r.Ok? ==>
        (forall i :: 0 <= i < |r.value| ==> r.value[i] in mappings && r.value[i].source == sourceAccount) &&
        (forall j :: 0 <= j < |mappings| && mappings[j].source == sourceAccount ==> mappings[j] in r.value)
    {
      if AccountIndex(accounts, sourceAccount) == |accounts| then Err(SourceNotFound)
      else Ok(MappingsOf(mappings, sourceAccount))
    }
  }

  /** After disconnectSource(A): A is no longer among its owner's sources, and
      asking for A's mappings reports SourceNotFound. */
  method DisconnectThenQuery(c: ExternalAssignmentSyncConcept, a: Id, owner: UserId)
    requires c.Valid()
    modifies c
    ensures forall i :: 0 <= i < |c.GetSourcesForUser(owner)| ==> c.GetSourcesForUser(owner)[i].id != a
    ensures c.GetAssignmentsForSource(a) == Err(SourceNotFound)
  {
    var _ := c.DisconnectSource(a);
  }
}
