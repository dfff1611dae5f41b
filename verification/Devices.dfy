/**
 The relay's device table (internal/database/pairing.go, db.go) and the check made when a device
 connects (internal/relay/handler.go). Names, timestamps other than the expiry, and the legacy
 public key are left out of a row. The schema declares paired_with a reference that deleting a row
 sets to NULL; whether it does depends on the database enforcing foreign keys, so deletion has a
 parameter for that.
 */
module Devices {
  import opened Core

  datatype Row = Row(token: string, staticKey: string, pairedWith: Option<DeviceId>, expiresAt: Option<int>)

  type Table = map<DeviceId, Row>

  datatype DbError = NoError | NotFound | AlreadyPaired | StaticKeyMismatch | Conflict

  datatype Outcome = Outcome(table: Table, err: DbError)

  /** CreateDevice: the identifier is the primary key and the token is unique; the rest starts empty. */
  function Create(t: Table, id: DeviceId, token: string, expiresAt: Option<int>): (r: Outcome)
  {
    if id in t || (exists d :: d in t && t[d].token == token) then Outcome(t, Conflict)
    else Outcome(t[id := Row(token, "", None, expiresAt)], NoError)
  }

  function Linked(r: Row, peer: DeviceId): Row
  {
    r.(pairedWith := Some(peer), expiresAt := None)
  }

  /** PairDevices: both must exist and be unpaired; the first failing identifier decides the error. */
  function Pair(t: Table, a: DeviceId, b: DeviceId): (r: Outcome)
  {
    if a !in t then Outcome(t, NotFound)
    else if t[a].pairedWith.Some? then Outcome(t, AlreadyPaired)
    else if b !in t then Outcome(t, NotFound)
    else if t[b].pairedWith.Some? then Outcome(t, AlreadyPaired)
    else Outcome(t[a := Linked(t[a], b)][b := Linked(t[b], a)], NoError)
  }

  /** UnpairDevice: one statement clears the device and whoever points at it. */
  function Unpair(t: Table, id: DeviceId): (r: Table)
  {
    map d | d in t :: if d == id || t[d].pairedWith == Some(id) then t[d].(pairedWith := None) else t[d]
  }

  /** The first statement of DeleteDevice. */
  function ClearReferences(t: Table, id: DeviceId): (r: Table)
  {
    map d | d in t :: if t[d].pairedWith == Some(id) then t[d].(pairedWith := None) else t[d]
  }

  /** The second statement of DeleteDevice: enforced foreign keys clear the references to the row with it. */
  function DeleteRow(t: Table, id: DeviceId, keys: bool): (r: Table)
  {
    (if keys then ClearReferences(t, id) else t) - {id}
  }

  /** SetStaticKeyIfUnset: the first announced key is locked. */
  function SetStaticKey(t: Table, id: DeviceId, key: string): (r: Outcome)
  {
    if id !in t then Outcome(t, NotFound)
    else if t[id].staticKey != "" then Outcome(t, if t[id].staticKey == key then NoError else StaticKeyMismatch)
    else Outcome(t[id := t[id].(staticKey := key)], NoError)
  }

  datatype Admission = BadRequest | Unauthorized | Expired | Admitted(pairedWith: Option<DeviceId>)

  /** The checks of the connection handler, in order. */
  function Admit(t: Table, id: DeviceId, token: string, now: int): (r: Admission)
  {
    if id == "" || token == "" then BadRequest
    else if id !in t || t[id].token != token then Unauthorized
    else if t[id].expiresAt.Some? && now > t[id].expiresAt.value then Expired
    else Admitted(t[id].pairedWith)
  }

  class DB {
    const foreignKeys: bool
    var rows: Table

    constructor (foreignKeys: bool)
      ensures rows == map[] && this.foreignKeys == foreignKeys
    {
      this.foreignKeys, rows := foreignKeys, map[];
    }

    method CreateDevice(id: DeviceId, token: string, expiresAt: Option<int>) returns (err: DbError)
      modifies this
      ensures Outcome(rows, err) == Create(old(rows), id, token, expiresAt)
    {
      if id in rows || (exists d :: d in rows && rows[d].token == token) {
        return Conflict;
      }
      rows := rows[id := Row(token, "", None, expiresAt)];
      return NoError;
    }

    /** PairDevices. The verification loop runs over the two identifiers in order, the update loop over a Go map,
        whose order is arbitrary: the result does not depend on it. */
    method PairDevices(idA: DeviceId, idB: DeviceId) returns (err: DbError)
      modifies this
      ensures Outcome(rows, err) == Pair(old(rows), idA, idB)
    {
      var ids := [idA, idB];
      for i := 0 to |ids|
        invariant rows == old(rows)
        invariant forall k :: 0 <= k < i ==> ids[k] in rows && rows[ids[k]].pairedWith.None?
      {
        assert i > 0 ==> ids[0] in rows && rows[ids[0]].pairedWith.None?;
        if ids[i] !in rows {
          return NotFound;
        }
        if rows[ids[i]].pairedWith.Some? {
          return AlreadyPaired;
        }
      }
      assert ids[0] in rows && ids[1] in rows;
      var links := map[idA := idB, idB := idA];
      var todo := links.Keys;
      while todo != {}
        invariant todo <= links.Keys && rows.Keys == old(rows).Keys
        invariant forall d :: d in rows ==>
                    rows[d] == if d in links && d !in todo then Linked(old(rows)[d], links[d]) else old(rows)[d]
        decreases todo
      {
        var thisId :| thisId in todo;
        rows := rows[thisId := Linked(rows[thisId], links[thisId])];
        todo := todo - {thisId};
      }
      assert rows == Pair(old(rows), idA, idB).table;
      return NoError;
    }

    method UnpairDevice(id: DeviceId)
      modifies this
      ensures rows == Unpair(old(rows), id)
    {
      rows := map d | d in rows :: if d == id || rows[d].pairedWith == Some(id) then rows[d].(pairedWith := None) else rows[d];
    }

    /** SetStaticKeyIfUnset. */
    method SetStaticKeyIfUnset(id: DeviceId, staticKey: string) returns (err: DbError)
      modifies this
      ensures Outcome(rows, err) == SetStaticKey(old(rows), id, staticKey)
    {
      if id !in rows {
        return NotFound;
      }
      var existing := rows[id].staticKey;
      if existing != "" {
        if existing != staticKey {
          return StaticKeyMismatch;
        }
        return NoError;
      }
      rows := rows[id := rows[id].(staticKey := staticKey)];
      return NoError;
    }

    /** DeleteDevice, when nothing runs between its two statements. */
    method DeleteDevice(id: DeviceId)
      modifies this
      ensures rows == DeleteRow(ClearReferences(old(rows), id), id, foreignKeys)
    {
      rows := map d | d in rows :: if rows[d].pairedWith == Some(id) then rows[d].(pairedWith := None) else rows[d];
      if foreignKeys {
        rows := map d | d in rows :: if rows[d].pairedWith == Some(id) then rows[d].(pairedWith := None) else rows[d];
      }
      rows := rows - {id};
    }
  }

  // ----- Every run of table operations -----

  datatype Op =
    | CreateOp(id: DeviceId, token: string, expiresAt: Option<int>)
    | PairOp(a: DeviceId, b: DeviceId)
    | UnpairOp(id: DeviceId)
    | SetKeyOp(id: DeviceId, key: string)
    | DeleteFirst(id: DeviceId)
    | DeleteSecond(id: DeviceId)

  /** The table and, with multiplicity, the devices whose deletion has run its first statement only. */
  datatype Db = Db(table: Table, deleting: multiset<DeviceId>)

  function Apply(s: Db, op: Op, keys: bool): (r: Db)
  {
    match op
    case CreateOp(id, token, exp) => s.(table := Create(s.table, id, token, exp).table)
    case PairOp(a, b) => s.(table := Pair(s.table, a, b).table)
    case UnpairOp(id) => s.(table := Unpair(s.table, id))
    case SetKeyOp(id, key) => s.(table := SetStaticKey(s.table, id, key).table)
    case DeleteFirst(id) => Db(ClearReferences(s.table, id), s.deleting + multiset{id})
    case DeleteSecond(id) =>
      if id in s.deleting then Db(DeleteRow(s.table, id, keys), s.deleting - multiset{id}) else s
  }

  function ApplyAll(s: Db, ops: seq<Op>, keys: bool): (r: Db)
    decreases |ops|
  {
    if ops == [] then s else ApplyAll(Apply(s, ops[0], keys), ops[1..], keys)
  }

  const EMPTY := Db(map[], multiset{})

  /** paired_with is a symmetric partial map onto existing rows. */
  predicate Symmetric(t: Table)
  {
    forall a :: a in t && t[a].pairedWith.Some? ==>
      var b := t[a].pairedWith.value;
      b in t && t[b].pairedWith == Some(a)
  }

  // ----- With foreign keys -----

  /** Every reference is to an existing row, and is returned unless its own device is being deleted. */
  predicate Referenced(s: Db)
  {
    forall a :: a in s.table && s.table[a].pairedWith.Some? ==>
      var b := s.table[a].pairedWith.value;
      b in s.table && (s.table[b].pairedWith == Some(a) || a in s.deleting)
  }

  lemma DeleteKeepsReferenced(s: Db, id: DeviceId)
    requires Referenced(s)
    ensures Referenced(Apply(s, DeleteFirst(id), true)) && Referenced(Apply(s, DeleteSecond(id), true))
  {
  }

  lemma ApplyKeepsReferenced(s: Db, op: Op)
    requires Referenced(s)
    ensures Referenced(Apply(s, op, true))
  {
    match op
    case DeleteFirst(id) => DeleteKeepsReferenced(s, id);
    case DeleteSecond(id) => DeleteKeepsReferenced(s, id);
    case _ =>
  }

  lemma {:induction false} RunKeepsReferenced(s: Db, ops: seq<Op>)
    requires Referenced(s)
    ensures Referenced(ApplyAll(s, ops, true))
    decreases |ops|
  {
    if ops != [] {
      ApplyKeepsReferenced(s, ops[0]);
      RunKeepsReferenced(Apply(s, ops[0], true), ops[1..]);
    }
  }

  /** From the empty table on, in every run, whenever no deletion is half done the pairing is symmetric. */
  lemma PairingIsSymmetric(ops: seq<Op>)
    ensures ApplyAll(EMPTY, ops, true).deleting == multiset{} ==> Symmetric(ApplyAll(EMPTY, ops, true).table)
  {
    RunKeepsReferenced(EMPTY, ops);
  }

  // ----- Without foreign keys -----

  /** Symmetry for the devices that are not being deleted; none of them points at one that is. */
  predicate SymmetricApart(s: Db)
  {
    forall a :: a in s.table && a !in s.deleting && s.table[a].pairedWith.Some? ==>
      var b := s.table[a].pairedWith.value;
      b in s.table && b !in s.deleting && s.table[b].pairedWith == Some(a)
  }

  /** A pairing of two unpaired devices of which one is in the middle of its deletion and the other is not. */
  predicate PairsDuringDelete(s: Db, op: Op)
  {
    && op.PairOp? && op.a in s.table && op.b in s.table
    && s.table[op.a].pairedWith.None? && s.table[op.b].pairedWith.None?
    && (op.a in s.deleting) != (op.b in s.deleting)
  }

  predicate Undisturbed(s: Db, ops: seq<Op>)
    decreases |ops|
  {
    ops == [] || (!PairsDuringDelete(s, ops[0]) && Undisturbed(Apply(s, ops[0], false), ops[1..]))
  }

  /** A pairing keeps the table symmetric exactly when it is not of that kind. */
  lemma PairKeepsSymmetricIff(s: Db, a: DeviceId, b: DeviceId)
    requires SymmetricApart(s)
    ensures SymmetricApart(Apply(s, PairOp(a, b), false)) <==> !PairsDuringDelete(s, PairOp(a, b))
  {
    var t := Apply(s, PairOp(a, b), false).table;
    if PairsDuringDelete(s, PairOp(a, b)) {
      assert a in t && t[a].pairedWith == Some(b) && b in t && t[b].pairedWith == Some(a);
    }
  }

  lemma DeleteKeepsSymmetric(s: Db, id: DeviceId)
    requires SymmetricApart(s)
    ensures SymmetricApart(Apply(s, DeleteFirst(id), false)) && SymmetricApart(Apply(s, DeleteSecond(id), false))
  {
  }

  lemma ApplyKeepsSymmetric(s: Db, op: Op)
    requires SymmetricApart(s) && !PairsDuringDelete(s, op)
    ensures SymmetricApart(Apply(s, op, false))
  {
    match op
    case PairOp(a, b) => PairKeepsSymmetricIff(s, a, b);
    case DeleteFirst(id) => DeleteKeepsSymmetric(s, id);
    case DeleteSecond(id) => DeleteKeepsSymmetric(s, id);
    case _ =>
  }

  lemma {:induction false} RunKeepsSymmetric(s: Db, ops: seq<Op>)
    requires SymmetricApart(s) && Undisturbed(s, ops)
    ensures SymmetricApart(ApplyAll(s, ops, false))
    decreases |ops|
  {
    if ops != [] {
      ApplyKeepsSymmetric(s, ops[0]);
      RunKeepsSymmetric(Apply(s, ops[0], false), ops[1..]);
    }
  }

  predicate AlwaysSymmetric(s: Db, ops: seq<Op>)
    decreases |ops|
  {
    SymmetricApart(s) && (ops == [] || AlwaysSymmetric(Apply(s, ops[0], false), ops[1..]))
  }

  /** Over a whole run: every state is symmetric if and only if no pairing is of that kind. */
  lemma {:induction false} SymmetricIffUndisturbed(s: Db, ops: seq<Op>)
    requires SymmetricApart(s)
    ensures AlwaysSymmetric(s, ops) <==> Undisturbed(s, ops)
    decreases |ops|
  {
    if ops != [] {
      if PairsDuringDelete(s, ops[0]) {
        PairKeepsSymmetricIff(s, ops[0].a, ops[0].b);
      } else {
        ApplyKeepsSymmetric(s, ops[0]);
        SymmetricIffUndisturbed(Apply(s, ops[0], false), ops[1..]);
      }
    }
  }

  /** The operations only finish deletions. */
  predicate OnlyFinishes(ops: seq<Op>)
  {
    forall i :: 0 <= i < |ops| ==> ops[i].DeleteSecond?
  }

  /** However the deletions under way are finished, the table is then symmetric. */
  ghost predicate SettlesSymmetric(s: Db)
  {
    forall ops :: OnlyFinishes(ops) && ApplyAll(s, ops, false).deleting == multiset{} ==>
      Symmetric(ApplyAll(s, ops, false).table)
  }

  lemma {:induction false} FinishingKeepsSymmetric(s: Db, ops: seq<Op>)
    requires SymmetricApart(s) && OnlyFinishes(ops)
    ensures SymmetricApart(ApplyAll(s, ops, false))
    decreases |ops|
  {
    if ops != [] {
      DeleteKeepsSymmetric(s, ops[0].id);
      FinishingKeepsSymmetric(Apply(s, ops[0], false), ops[1..]);
    }
  }

  /** The rows that are not being deleted. */
  function Staying(s: Db): (t: Table)
  {
    map a | a in s.table && a !in s.deleting :: s.table[a]
  }

  lemma FinishingOneStays(s: Db, id: DeviceId)
    requires id in s.deleting
    ensures var s' := Apply(s, DeleteSecond(id), false);
            Staying(s') == Staying(s) && |s'.deleting| < |s.deleting|
  {
    var s' := Apply(s, DeleteSecond(id), false);
    assert s'.table == s.table - {id} && s'.deleting == s.deleting - multiset{id};
    forall a | a in s.table && a != id ensures a in s'.deleting <==> a in s.deleting {}
  }

  /** Finishing every deletion removes exactly the rows being deleted. */
  lemma {:induction false} FinishAll(s: Db) returns (ops: seq<Op>)
    ensures OnlyFinishes(ops) && ApplyAll(s, ops, false) == Db(Staying(s), multiset{})
    decreases |s.deleting|
  {
    if s.deleting == multiset{} {
      ops := [];
      assert Staying(s) == s.table;
    } else {
      var id :| id in s.deleting;
      FinishingOneStays(s, id);
      var rest := FinishAll(Apply(s, DeleteSecond(id), false));
      ops := [DeleteSecond(id)] + rest;
      assert ops[1..] == rest;
    }
  }

  lemma SettlesIffApart(s: Db)
    ensures SettlesSymmetric(s) <==> SymmetricApart(s)
  {
    if SymmetricApart(s) {
      forall ops | OnlyFinishes(ops) && ApplyAll(s, ops, false).deleting == multiset{}
        ensures Symmetric(ApplyAll(s, ops, false).table)
      {
        FinishingKeepsSymmetric(s, ops);
      }
    } else {
      var ops := FinishAll(s);
      var t := Staying(s);
      assert ApplyAll(s, ops, false) == Db(t, multiset{});
      var a :| a in s.table && a !in s.deleting && s.table[a].pairedWith.Some?
               && var b := s.table[a].pairedWith.value;
               !(b in s.table && b !in s.deleting && s.table[b].pairedWith == Some(a));
      assert a in t && !Symmetric(t);
    }
  }

  ghost predicate AlwaysSettles(s: Db, ops: seq<Op>)
    decreases |ops|
  {
    SettlesSymmetric(s) && (ops == [] || AlwaysSettles(Apply(s, ops[0], false), ops[1..]))
  }

  /** The same about the table itself: from every state of a run, finishing the deletions under way leaves paired_with
      symmetric, if and only if no pairing of the run is of that kind. */
  lemma {:induction false} SettlesIffUndisturbed(s: Db, ops: seq<Op>)
    requires SettlesSymmetric(s)
    ensures AlwaysSettles(s, ops) <==> Undisturbed(s, ops)
    decreases |ops|
  {
    SettlesIffApart(s);
    if ops != [] {
      var s' := Apply(s, ops[0], false);
      SettlesIffApart(s');
      if PairsDuringDelete(s, ops[0]) {
        PairKeepsSymmetricIff(s, ops[0].a, ops[0].b);
      } else {
        ApplyKeepsSymmetric(s, ops[0]);
        SettlesIffUndisturbed(s', ops[1..]);
      }
    }
  }

  /** When the deletion finishes after such a pairing, the other device points nowhere. */
  lemma PairDuringDeleteDangles(s: Db, a: DeviceId, b: DeviceId)
    requires SymmetricApart(s) && PairsDuringDelete(s, PairOp(a, b))
    ensures var dying, other := if a in s.deleting then a else b, if a in s.deleting then b else a;
            var s' := Apply(Apply(s, PairOp(a, b), false), DeleteSecond(dying), false);
            && other in s'.table && s'.table[other].pairedWith == Some(dying) && dying !in s'.table
            && !SymmetricApart(s')
  {
    var dying, other := if a in s.deleting then a else b, if a in s.deleting then b else a;
    var s' := Apply(Apply(s, PairOp(a, b), false), DeleteSecond(dying), false);
    assert other in s'.table && other !in s'.deleting;
  }

  /** Two devices, one of which is deleted while they pair. */
  function DeleteAroundPair(a: DeviceId, b: DeviceId, x: string, y: string): (ops: seq<Op>)
  {
    [CreateOp(a, x, None), CreateOp(b, y, None), DeleteFirst(a), PairOp(a, b), DeleteSecond(a)]
  }

  /** With the second statement of the deletion yet to come. */
  lemma PairedWhileDeleting(a: DeviceId, b: DeviceId, x: string, y: string, keys: bool)
    requires a != b && x != y
    ensures var s := Apply(Apply(EMPTY, CreateOp(a, x, None), keys), CreateOp(b, y, None), keys);
            Apply(Apply(s, DeleteFirst(a), keys), PairOp(a, b), keys)
            == Db(map[a := Row(x, "", Some(b), None), b := Row(y, "", Some(a), None)], multiset{a})
  {
    var s := Apply(Apply(EMPTY, CreateOp(a, x, None), keys), CreateOp(b, y, None), keys);
    assert s.table == map[a := Row(x, "", None, None), b := Row(y, "", None, None)];
    var s3 := Apply(s, DeleteFirst(a), keys);
    assert s3.table == s.table && s3.deleting == multiset{a};
  }

  lemma LastStatement(a: DeviceId, b: DeviceId, x: string, y: string, keys: bool)
    requires a != b
    ensures Apply(Db(map[a := Row(x, "", Some(b), None), b := Row(y, "", Some(a), None)], multiset{a}), DeleteSecond(a), keys)
            == Db(map[b := Row(y, "", if keys then None else Some(a), None)], multiset{})
  {
    var t := map[a := Row(x, "", Some(b), None), b := Row(y, "", Some(a), None)];
    assert multiset{a} - multiset{a} == multiset{};
    assert DeleteRow(t, a, keys) == map[b := Row(y, "", if keys then None else Some(a), None)];
  }

  lemma ApplyFive(s: Db, o1: Op, o2: Op, o3: Op, o4: Op, o5: Op, keys: bool)
    ensures ApplyAll(s, [o1, o2, o3, o4, o5], keys)
            == Apply(Apply(Apply(Apply(Apply(s, o1, keys), o2, keys), o3, keys), o4, keys), o5, keys)
  {
    assert [o1, o2, o3, o4, o5][1..] == [o2, o3, o4, o5] && [o2, o3, o4, o5][1..] == [o3, o4, o5];
    assert [o3, o4, o5][1..] == [o4, o5] && [o4, o5][1..] == [o5] && [o5][1..] == [];
    var s1 := Apply(s, o1, keys);
    var s2 := Apply(s1, o2, keys);
    var s3 := Apply(s2, o3, keys);
    assert ApplyAll(s, [o1, o2, o3, o4, o5], keys) == ApplyAll(s1, [o2, o3, o4, o5], keys);
    assert ApplyAll(s1, [o2, o3, o4, o5], keys) == ApplyAll(s2, [o3, o4, o5], keys) == ApplyAll(s3, [o4, o5], keys);
    assert ApplyAll(s3, [o4, o5], keys) == ApplyAll(Apply(s3, o4, keys), [o5], keys);
  }

  /** The run that gets there, for any two devices: without foreign keys it ends with a dangling reference and no
      deletion half done, and with them the same run clears the reference. */
  lemma DanglingIsReached(a: DeviceId, b: DeviceId, x: string, y: string, keys: bool)
    requires a != b && x != y
    ensures ApplyAll(EMPTY, DeleteAroundPair(a, b, x, y), keys)
            == Db(map[b := Row(y, "", if keys then None else Some(a), None)], multiset{})
  {
    ApplyFive(EMPTY, CreateOp(a, x, None), CreateOp(b, y, None), DeleteFirst(a), PairOp(a, b), DeleteSecond(a), keys);
    PairedWhileDeleting(a, b, x, y, keys);
    LastStatement(a, b, x, y, keys);
  }

  // ----- A device that has paired never expires -----

  /** A paired row has no expiry. */
  predicate PairedNeverExpires(t: Table)
  {
    forall d :: d in t && t[d].pairedWith.Some? ==> t[d].expiresAt.None?
  }

  lemma ApplyKeepsExpiry(s: Db, op: Op, keys: bool)
    requires PairedNeverExpires(s.table)
    ensures PairedNeverExpires(Apply(s, op, keys).table)
  {
  }

  lemma ApplyKeepsCleared(s: Db, op: Op, d: DeviceId, keys: bool)
    requires d in s.table && s.table[d].expiresAt.None? && op != DeleteSecond(d)
    ensures var t := Apply(s, op, keys).table; d in t && t[d].expiresAt.None? && t[d].token == s.table[d].token
  {
  }

  lemma {:induction false} ClearedStaysCleared(s: Db, ops: seq<Op>, d: DeviceId, keys: bool)
    requires PairedNeverExpires(s.table) && d in s.table && s.table[d].expiresAt.None?
    requires forall i :: 0 <= i < |ops| ==> ops[i] != DeleteSecond(d)
    ensures var t := ApplyAll(s, ops, keys).table;
            d in t && t[d].expiresAt.None? && t[d].token == s.table[d].token
    decreases |ops|
  {
    if ops != [] {
      ApplyKeepsExpiry(s, ops[0], keys);
      ApplyKeepsCleared(s, ops[0], d, keys);
      ClearedStaysCleared(Apply(s, ops[0], keys), ops[1..], d, keys);
    }
  }

  lemma {:induction false} RunKeepsExpiry(s: Db, ops: seq<Op>, keys: bool)
    requires PairedNeverExpires(s.table)
    ensures PairedNeverExpires(ApplyAll(s, ops, keys).table)
    decreases |ops|
  {
    if ops != [] {
      ApplyKeepsExpiry(s, ops[0], keys);
      RunKeepsExpiry(Apply(s, ops[0], keys), ops[1..], keys);
    }
  }

  /** A device that was paired at some point of a run is, until it is deleted, admitted with its token at any
      later time, whether or not it is still paired. */
  lemma PairedDeviceIsAdmitted(before: seq<Op>, after: seq<Op>, d: DeviceId, now: int, keys: bool)
    requires var s := ApplyAll(EMPTY, before, keys);
             && d in s.table && s.table[d].pairedWith.Some? && d != "" && s.table[d].token != ""
    requires forall i :: 0 <= i < |after| ==> after[i] != DeleteSecond(d)
    ensures var s := ApplyAll(EMPTY, before, keys);
            Admit(ApplyAll(s, after, keys).table, d, s.table[d].token, now).Admitted?
  {
    RunKeepsExpiry(EMPTY, before, keys);
    ClearedStaysCleared(ApplyAll(EMPTY, before, keys), after, d, keys);
  }

  // ----- A locked key stays -----

  lemma ApplyKeepsKey(s: Db, op: Op, d: DeviceId, keys: bool)
    requires d in s.table && s.table[d].staticKey != "" && op != DeleteSecond(d)
    ensures d in Apply(s, op, keys).table && Apply(s, op, keys).table[d].staticKey == s.table[d].staticKey
  {
  }

  /** The first announced key of a device is its key until it is deleted, and exactly that key can be announced again. */
  lemma {:induction false} FirstKeyStays(s: Db, ops: seq<Op>, d: DeviceId, key: string, keys: bool)
    requires d in s.table && s.table[d].staticKey != ""
    requires forall i :: 0 <= i < |ops| ==> ops[i] != DeleteSecond(d)
    ensures var t := ApplyAll(s, ops, keys).table;
            && d in t && t[d].staticKey == s.table[d].staticKey
            && SetStaticKey(t, d, key) == Outcome(t, if key == s.table[d].staticKey then NoError else StaticKeyMismatch)
    decreases |ops|
  {
    if ops != [] {
      ApplyKeepsKey(s, ops[0], d, keys);
      FirstKeyStays(Apply(s, ops[0], keys), ops[1..], d, key, keys);
    }
  }

  // ----- What creating and deleting a device do -----

  /** A device is created exactly if neither its identifier nor its token is taken; it is then let in with that token until
      its expiry, unpaired, and everybody else as before. */
  lemma CreatedDeviceGetsIn(t: Table, id: DeviceId, token: string, expiresAt: Option<int>, d: DeviceId, x: string, now: int)
    requires id != "" && token != ""
    ensures var o := Create(t, id, token, expiresAt);
            && (o.err == NoError <==> id !in t && forall e :: e in t ==> t[e].token != token)
            && (o.err != NoError ==> o.table == t)
            && (o.err == NoError ==>
                  && Admit(o.table, id, token, now) == (if expiresAt.Some? && now > expiresAt.value then Expired else Admitted(None))
                  && (d != id ==> Admit(o.table, d, x, now) == Admit(t, d, x, now)))
  {
  }

  /** A deleted device is not let in and nobody is paired with it; the other rows lose at most their pairing with it. */
  lemma DeletedDeviceIsGone(t: Table, id: DeviceId, token: string, now: int, keys: bool)
    requires id != "" && token != ""
    ensures var t' := DeleteRow(ClearReferences(t, id), id, keys);
            && Admit(t', id, token, now) == Unauthorized
            && t'.Keys == t.Keys - {id}
            && forall d :: d in t' ==>
                 t'[d] == if t[d].pairedWith == Some(id) then t[d].(pairedWith := None) else t[d]
  {
  }
}
