/**
 The agent's metadata table (internal/agentstate/sqlite.go, with the writers in
 internal/enrollment, cmd/fleetint/unenroll.go and internal/inventory/sink).
 Each SQL statement is one atomic operation on a map from key to value.
 */
module Metadata {
  import opened Prelude

  type Rows = map<string, string>

  const MACHINE_ID := "machine_id"
  const TOKEN := "token"
  const SAK_TOKEN := "sak_token"
  const BACKEND_BASE_URL := "backend_base_url"
  const ENROLLED_AT := "enrolled_at"
  const NODE_GROUP := "node_group"
  const COMPUTE_ZONE := "compute_zone"

  /** The keys un-enrollment deletes in one statement. */
  const ENROLLMENT_KEYS: set<string> := {
    TOKEN, SAK_TOKEN, BACKEND_BASE_URL, ENROLLED_AT, NODE_GROUP, COMPUTE_ZONE,
    "enroll_endpoint", "metrics_endpoint", "logs_endpoint", "nonce_endpoint"
  }

  datatype Placement = Placement(nodeGroup: string, computeZone: string)

  /** A missing row and an empty value read alike. */
  function Value(rows: Rows, key: string): string
  {
    if key in rows then rows[key] else ""
  }

  /** `readAgentUUIDDB`: only a non-empty value counts. */
  function Identity(rows: Rows): Option<string>
  {
    if Value(rows, MACHINE_ID) != "" then Some(Value(rows, MACHINE_ID)) else None
  }

  /** The conditional upsert of `GetOrCreateAgentUUIDMetadata`: insert, or repair an empty value. */
  function UpsertIdentity(rows: Rows, candidate: string): Rows
  {
    if MACHINE_ID !in rows || rows[MACHINE_ID] == "" then rows[MACHINE_ID := candidate] else rows
  }

  function ReadPlacement(rows: Rows): Placement
  {
    Placement(Value(rows, NODE_GROUP), Value(rows, COMPUTE_ZONE))
  }

  function Coalesce(field: Option<string>, current: string): string
  {
    if field.Some? then field.value else current
  }

  /** `UpdateNodePlacementMetadata`: one statement, or none when both arguments are nil. */
  function WritePlacement(rows: Rows, nodeGroup: Option<string>, computeZone: Option<string>): Rows
  {
    if nodeGroup.None? && computeZone.None? then rows
    else
      rows[NODE_GROUP := Coalesce(nodeGroup, Value(rows, NODE_GROUP))]
          [COMPUTE_ZONE := Coalesce(computeZone, Value(rows, COMPUTE_ZONE))]
  }

  /** `removeEnrollmentMetadata`. */
  function RemoveEnrollment(rows: Rows): Rows
  {
    rows - ENROLLMENT_KEYS
  }

  /** The constant keys are pairwise different where the proofs need it. */
  lemma KeysDiffer()
    ensures MACHINE_ID !in ENROLLMENT_KEYS
    ensures MACHINE_ID != NODE_GROUP && MACHINE_ID != COMPUTE_ZONE && NODE_GROUP != COMPUTE_ZONE
    ensures {TOKEN, SAK_TOKEN, BACKEND_BASE_URL, ENROLLED_AT} !! {MACHINE_ID, NODE_GROUP, COMPUTE_ZONE}
  {
  }

  /** What enrollment stores; a placement field that is `None` is left as it is. */
  datatype EnrollConfig = EnrollConfig(
    baseURL: string, jwt: string, sak: string, enrolledAt: string,
    nodeGroup: Option<string>, computeZone: Option<string>)

  /** One statement of `storeConfigInMetadata`. */
  function ConfigStatement(rows: Rows, c: EnrollConfig, n: nat): Rows
  {
    if n == 0 then rows[SAK_TOKEN := c.sak]
    else if n == 1 then rows[TOKEN := c.jwt]
    else if n == 2 then rows[BACKEND_BASE_URL := c.baseURL]
    else if n == 3 then rows[ENROLLED_AT := c.enrolledAt]
    else WritePlacement(rows, c.nodeGroup, c.computeZone)
  }

  /** The table once the first `n` statements have committed. */
  function ConfigWritten(rows: Rows, c: EnrollConfig, n: nat): Rows
  {
    if n == 0 then rows else ConfigStatement(ConfigWritten(rows, c, n - 1), c, n - 1)
  }

  /** However many statements commit, only enrollment rows move, and the identity is not one of them. */
  lemma {:induction false} ConfigKeepsOthers(rows: Rows, c: EnrollConfig, n: nat)
    ensures forall key :: key !in ENROLLMENT_KEYS ==> Value(ConfigWritten(rows, c, n), key) == Value(rows, key)
    ensures Identity(ConfigWritten(rows, c, n)) == Identity(rows)
  {
    KeysDiffer();
    if n > 0 {
      ConfigKeepsOthers(rows, c, n - 1);
    }
  }

  /**
   The SAK first, then the JWT, the URL, the time and last the placement: each is stored
   when enough statements have committed and is as it was before otherwise.
   */
  ghost predicate StoredUpTo(before: Rows, c: EnrollConfig, commits: nat, rows: Rows)
  {
    && Value(rows, "sak_token") == (if commits >= 1 then c.sak else Value(before, "sak_token"))
    && Value(rows, "token") == (if commits >= 2 then c.jwt else Value(before, "token"))
    && Value(rows, "backend_base_url") == (if commits >= 3 then c.baseURL else Value(before, "backend_base_url"))
    && Value(rows, "enrolled_at") == (if commits >= 4 then c.enrolledAt else Value(before, "enrolled_at"))
    && Value(rows, "node_group") ==
         (if commits >= 5 && c.nodeGroup.Some? then c.nodeGroup.value else Value(before, "node_group"))
    && Value(rows, "compute_zone") ==
         (if commits >= 5 && c.computeZone.Some? then c.computeZone.value else Value(before, "compute_zone"))
  }

  lemma {:induction false} ConfigStored(rows: Rows, c: EnrollConfig, n: nat)
    requires n <= 5
    ensures StoredUpTo(rows, c, n, ConfigWritten(rows, c, n))
  {
    EnrollmentKeysDiffer();
    if n > 0 {
      ConfigStored(rows, c, n - 1);
    }
  }

  lemma EnrollmentKeysDiffer()
    ensures Different([SAK_TOKEN, TOKEN, BACKEND_BASE_URL, ENROLLED_AT, NODE_GROUP, COMPUTE_ZONE])
  {
  }

  predicate Different(keys: seq<string>)
  {
    forall i, j :: 0 <= i < j < |keys| ==> keys[i] != keys[j]
  }

  /** What a caller of `GetOrCreateAgentUUIDMetadata` gets. */
  datatype Claim = Claim(value: string, created: bool) | ClaimFailed

  /** What `Export` returns. */
  datatype Exported = Success | NotReady | StateFailed | BackendFailed | PersistFailed

  /** Which step before the upsert fails: reading the URL, the token or the identity, or making the client. */
  datatype Fault = NoFault | ReadURL | ReadToken | ReadIdentity | MakeClient

  /** The table, one method per SQL statement, and the routines composed of them. */
  class Table {
    var rows: Rows

    constructor ()
      ensures rows == map[]
    {
      rows := map[];
    }

    method ReadAgentUUID() returns (value: Option<string>)
      ensures value == Identity(rows)
      ensures value == if MACHINE_ID in rows && rows[MACHINE_ID] != "" then Some(rows[MACHINE_ID]) else None
    {
      var found := if MACHINE_ID in rows then Some(rows[MACHINE_ID]) else None;
      match found
      case Some(v) => value := if v != "" then found else None;
      case None => value := None;
    }

    method InsertAgentUUID(candidate: string)
      modifies this
      ensures rows == UpsertIdentity(old(rows), candidate)
      ensures MACHINE_ID !in old(rows) || old(rows)[MACHINE_ID] == "" ==> rows == old(rows)[MACHINE_ID := candidate]
      ensures MACHINE_ID in old(rows) && old(rows)[MACHINE_ID] != "" ==> rows == old(rows)
    {
      if MACHINE_ID !in rows {
        rows := rows[MACHINE_ID := candidate];
      } else if rows[MACHINE_ID] == "" {
        rows := rows[MACHINE_ID := candidate];
      }
    }

    method SetMetadata(key: string, value: string)
      modifies this
      ensures rows == old(rows)[key := value]
    {
      rows := rows[key := value];
    }

    method ReadNodePlacement() returns (placement: Placement)
      ensures placement == ReadPlacement(rows)
      ensures placement.nodeGroup == (if "node_group" in rows then rows["node_group"] else "")
      ensures placement.computeZone == (if "compute_zone" in rows then rows["compute_zone"] else "")
    {
      placement := Placement(Value(rows, NODE_GROUP), Value(rows, COMPUTE_ZONE));
    }

    method UpdateNodePlacement(nodeGroup: Option<string>, computeZone: Option<string>)
      modifies this
      ensures rows == WritePlacement(old(rows), nodeGroup, computeZone)
      ensures nodeGroup.None? && computeZone.None? ==> rows == old(rows)
      ensures Value(rows, NODE_GROUP) == if nodeGroup.Some? then nodeGroup.value else Value(old(rows), NODE_GROUP)
      ensures Value(rows, COMPUTE_ZONE) == if computeZone.Some? then computeZone.value else Value(old(rows), COMPUTE_ZONE)
      ensures forall key :: key != NODE_GROUP && key != COMPUTE_ZONE ==>
        (key in rows <==> key in old(rows)) && Value(rows, key) == Value(old(rows), key)
    {
      KeysDiffer();
      if nodeGroup.None? && computeZone.None? {
        return;
      }
      var group, zone := Coalesce(nodeGroup, Value(rows, NODE_GROUP)), Coalesce(computeZone, Value(rows, COMPUTE_ZONE));
      rows := rows[NODE_GROUP := group];
      rows := rows[COMPUTE_ZONE := zone];
    }

    /** Un-enrollment: every enrollment row is gone, the identity and every other row stay. */
    method RemoveEnrollmentMetadata()
      modifies this
      ensures rows == RemoveEnrollment(old(rows))
      ensures rows.Keys !! {"token", "sak_token", "backend_base_url", "enrolled_at", "node_group", "compute_zone"}
      ensures rows.Keys !! {"enroll_endpoint", "metrics_endpoint", "logs_endpoint", "nonce_endpoint"}
      ensures forall key :: key !in ENROLLMENT_KEYS ==> (key in rows <==> key in old(rows)) && Value(rows, key) == Value(old(rows), key)
      ensures Identity(rows) == Identity(old(rows)) && ReadPlacement(rows) == Placement("", "")
      ensures forall baseURL, backend, writable ::
        ExportSpec(rows, baseURL, NoFault, true, backend, writable) == (rows, NotReady, false)
    {
      KeysDiffer();
      rows := rows - ENROLLMENT_KEYS;
    }

    /** `GetOrCreateAgentUUIDMetadata` when no other writer interferes; `create` is the outcome of the callback. */
    method GetOrCreateAgentUUID(create: Option<string>) returns (claim: Claim)
      modifies this
      ensures forall key :: key != MACHINE_ID ==> Value(rows, key) == Value(old(rows), key)
      ensures Identity(old(rows)).Some? ==> rows == old(rows) && claim == Claim(Identity(rows).value, false)
      ensures Identity(old(rows)).None? && (create.None? || create.value == "") ==> rows == old(rows) && claim.ClaimFailed?
      ensures Identity(old(rows)).None? && create.Some? && create.value != "" ==>
        Identity(rows) == create && claim == Claim(create.value, true)
    {
      var existing := ReadAgentUUID();
      if existing.Some? {
        return Claim(existing.value, false);
      }
      if create.None? || create.value == "" {
        return ClaimFailed;
      }
      InsertAgentUUID(create.value);
      var committed := ReadAgentUUID();
      if committed.None? {
        return ClaimFailed;
      }
      claim := Claim(committed.value, committed.value == create.value);
    }

    /**
     `storeConfigInMetadata`: five statements, of which the first `commits` commit; a
     failing one ends the call and leaves the earlier ones in place.
     */
    method StoreConfig(c: EnrollConfig, commits: nat) returns (ok: bool)
      modifies this
      ensures ok <==> commits >= 5
      ensures rows == ConfigWritten(old(rows), c, if ok then 5 else commits)
      ensures StoredUpTo(old(rows), c, commits, rows)
      ensures Identity(rows) == Identity(old(rows))
      ensures forall key :: key !in ENROLLMENT_KEYS ==> Value(rows, key) == Value(old(rows), key)
    {
      ConfigKeepsOthers(rows, c, if commits >= 5 then 5 else commits);
      ConfigStored(rows, c, if commits >= 5 then 5 else commits);
      ok := false;
      if commits == 0 {
        return;
      }
      SetMetadata(SAK_TOKEN, c.sak);
      assert rows == ConfigWritten(old(rows), c, 1);
      if commits == 1 {
        return;
      }
      SetMetadata(TOKEN, c.jwt);
      assert rows == ConfigWritten(old(rows), c, 2);
      if commits == 2 {
        return;
      }
      SetMetadata(BACKEND_BASE_URL, c.baseURL);
      assert rows == ConfigWritten(old(rows), c, 3);
      if commits == 3 {
        return;
      }
      SetMetadata(ENROLLED_AT, c.enrolledAt);
      assert rows == ConfigWritten(old(rows), c, 4);
      if commits == 4 {
        return;
      }
      UpdateNodePlacement(c.nodeGroup, c.computeZone);
      ok := true;
    }

    /**
     `Export` of the inventory sink when nobody else writes: `readable` says whether the
     placement read succeeded, `backend` is the node upsert, `writable` whether the write-back commits.
     */
    method Export(baseURL: Option<string>, fault: Fault, readable: bool, backend: Placement -> Option<Placement>, writable: bool)
      returns (outcome: Exported, wrote: bool)
      modifies this
      ensures (rows, outcome, wrote) == ExportSpec(old(rows), baseURL, fault, readable, backend, writable)
      ensures fault.NoFault? && Ready(old(rows), baseURL) ==>
        ExportsTo(old(rows), if readable then ReadPlacement(old(rows)) else Placement("", ""), readable, backend, writable, rows, outcome, wrote)
      ensures !(fault.NoFault? && Ready(old(rows), baseURL)) ==> rows == old(rows) && !wrote && outcome in {NotReady, StateFailed}
      ensures fault.ReadURL? ==> outcome == StateFailed
      ensures !fault.ReadURL? && (baseURL.None? || baseURL.value == "") ==> outcome == NotReady
      ensures fault.ReadToken? && baseURL.Some? && baseURL.value != "" ==> outcome == StateFailed
      ensures (fault.ReadIdentity? || fault.MakeClient?) && Value(old(rows), "token") == "" ==> outcome == NotReady
      ensures fault.MakeClient? && Value(old(rows), "machine_id") == "" ==> outcome == NotReady
      ensures fault.NoFault? && !Ready(old(rows), baseURL) ==> outcome == NotReady
      ensures Ready(old(rows), baseURL) && !fault.NoFault? ==> outcome == StateFailed
    {
      KeysDiffer();
      wrote := false;
      if fault.ReadURL? {
        return StateFailed, false;
      }
      if baseURL.None? || baseURL.value == "" {
        return NotReady, false;
      }
      if fault.ReadToken? {
        return StateFailed, false;
      }
      if Value(rows, TOKEN) == "" {
        return NotReady, false;
      }
      if fault.ReadIdentity? {
        return StateFailed, false;
      }
      var uuid := ReadAgentUUID();
      if uuid.None? {
        return NotReady, false;
      }
      if fault.MakeClient? {
        return StateFailed, false;
      }
      var request, placement := Placement("", ""), Placement("", "");
      if readable {
        placement := ReadNodePlacement();
        if placement.nodeGroup != "" {
          request := request.(nodeGroup := placement.nodeGroup);
        }
        if placement.computeZone != "" {
          request := request.(computeZone := placement.computeZone);
        }
      }
      var response := backend(request);
      if response.None? {
        return BackendFailed, false;
      }
      var resolved := response.value;
      if readable && (resolved.nodeGroup != placement.nodeGroup || resolved.computeZone != placement.computeZone) {
        if !writable {
          return PersistFailed, false;
        }
        UpdateNodePlacement(Some(resolved.nodeGroup), Some(resolved.computeZone));
        wrote := true;
      }
      outcome := Success;
    }
  }

  /** The agent is enrolled, as `Export` checks it. */
  predicate Ready(rows: Rows, baseURL: Option<string>)
  {
    baseURL.Some? && baseURL.value != "" && Value(rows, "token") != "" && Value(rows, "machine_id") != ""
  }

  /** The guards of `Export` in their order: what ends it before the upsert, if anything does. */
  function Guard(rows: Rows, baseURL: Option<string>, fault: Fault): Option<Exported>
  {
    if fault.ReadURL? then Some(StateFailed)
    else if baseURL.None? || baseURL.value == "" then Some(NotReady)
    else if fault.ReadToken? then Some(StateFailed)
    else if Value(rows, TOKEN) == "" then Some(NotReady)
    else if fault.ReadIdentity? then Some(StateFailed)
    else if Identity(rows).None? then Some(NotReady)
    else if fault.MakeClient? then Some(StateFailed)
    else None
  }

  function ExportSpec(rows: Rows, baseURL: Option<string>, fault: Fault, readable: bool,
                      backend: Placement -> Option<Placement>, writable: bool): (Rows, Exported, bool)
  {
    var guard := Guard(rows, baseURL, fault);
    if guard.Some? then (rows, guard.value, false)
    else
      var sent := if readable then ReadPlacement(rows) else Placement("", "");
      var response := backend(sent);
      if response.None? then (rows, BackendFailed, false)
      else if !readable || response.value == sent then (rows, Success, false)
      else if !writable then (rows, PersistFailed, false)
      else (WritePlacement(rows, Some(response.value.nodeGroup), Some(response.value.computeZone)), Success, true)
  }

  /** What an export that reaches the backend does, case by case; `sent` is the pair in its request. */
  ghost predicate ExportsTo(before: Rows, sent: Placement, readable: bool, backend: Placement -> Option<Placement>, writable: bool,
                            rows: Rows, outcome: Exported, wrote: bool)
  {
    match backend(sent)
    case None => rows == before && !wrote && outcome == BackendFailed
    case Some(reply) =>
      if readable && reply != sent && writable then
        && wrote && outcome == Success && ReadPlacement(rows) == reply
        && forall key :: key != NODE_GROUP && key != COMPUTE_ZONE ==> Value(rows, key) == Value(before, key)
      else rows == before && !wrote && outcome == if readable && reply != sent then PersistFailed else Success
  }

  /** The upsert is reached exactly when nothing failed and the agent is enrolled. */
  lemma ReachesBackendIff(rows: Rows, baseURL: Option<string>, fault: Fault)
    ensures Guard(rows, baseURL, fault) == None <==> fault.NoFault? && Ready(rows, baseURL)
  {
  }

  /** A backend that answers its own answers with themselves. */
  ghost predicate Idempotent(backend: Placement -> Option<Placement>)
  {
    forall p :: backend(p).Some? ==> backend(backend(p).value) == backend(p)
  }

  /** After a successful export that read the placement, the store holds the backend's pair and nothing else has moved. */
  lemma ExportStoresBackendPair(rows: Rows, baseURL: Option<string>, fault: Fault, backend: Placement -> Option<Placement>, writable: bool)
    requires ExportSpec(rows, baseURL, fault, true, backend, writable).1.Success?
    ensures var rows' := ExportSpec(rows, baseURL, fault, true, backend, writable).0;
      && backend(ReadPlacement(rows)) == Some(ReadPlacement(rows'))
      && Ready(rows', baseURL)
      && forall key :: key != NODE_GROUP && key != COMPUTE_ZONE ==> (key in rows' <==> key in rows) && Value(rows', key) == Value(rows, key)
  {
    KeysDiffer();
  }

  /** With an idempotent backend, a second export succeeds and writes nothing. */
  lemma SecondExportWritesNothing(rows: Rows, baseURL: Option<string>, fault: Fault, backend: Placement -> Option<Placement>, writable: bool, again: bool)
    requires Idempotent(backend)
    requires ExportSpec(rows, baseURL, fault, true, backend, writable).1.Success?
    ensures var rows' := ExportSpec(rows, baseURL, fault, true, backend, writable).0;
      ExportSpec(rows', baseURL, NoFault, true, backend, again) == (rows', Success, false)
  {
    ExportStoresBackendPair(rows, baseURL, fault, backend, writable);
  }
}
