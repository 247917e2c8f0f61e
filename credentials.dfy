/** The credential store and the resolver every batch handler runs first:
    look the requested client IDs up, and name the ones with no record. */
module Credentials {
  import opened Common

  /** One record of the credential collection; client_id is its key. */
  datatype Credential = Credential(clientId: string, apiKey: string, authToken: string)

  predicate HasRecord(records: seq<Credential>, id: string) {
    exists i :: 0 <= i < |records| && records[i].clientId == id
  }

  /** `find({client_id: {$in: ids}})`: the records whose client_id is requested,
      in store order (not in the order of `ids`). */
  function Lookup(records: seq<Credential>, ids: seq<string>): (found: seq<Credential>)
    ensures |found| <= |records|
    ensures forall c :: c in found <==> c in records && c.clientId in ids
  {
    if records == [] then []
    else (if records[0].clientId in ids then [records[0]] else []) + Lookup(records[1..], ids)
  }

  /** The lookup keeps store order: it filters each part of the store in turn. */
  lemma {:induction false} LookupAppend(a: seq<Credential>, b: seq<Credential>, ids: seq<string>)
    ensures Lookup(a + b, ids) == Lookup(a, ids) + Lookup(b, ids)
  {
    if a == [] {
      assert a + b == b;
    } else {
      var rest := Lookup(a[1..] + b, ids);
      assert (a + b)[1..] == a[1..] + b;
      assert Lookup(a + b, ids) == (if a[0].clientId in ids then [a[0]] else []) + rest;
      LookupAppend(a[1..], b, ids);
    }
  }

  /** A single record is kept iff its client_id is requested. */
  lemma LookupOne(r: Credential, ids: seq<string>)
    ensures Lookup([r], ids) == if r.clientId in ids then [r] else []
  {
    assert [r][1..] == [];
  }

  /** `ids.filter(id => !found.find(c => c.client_id === id))`. */
  function Missing(ids: seq<string>, found: seq<Credential>): (missing: seq<string>)
    ensures |missing| <= |ids|
    ensures forall id :: id in missing <==> id in ids && !HasRecord(found, id)
  {
    if ids == [] then []
    else (if HasRecord(found, ids[0]) then [] else [ids[0]]) + Missing(ids[1..], found)
  }

  /** The missing list keeps the input order: it distributes over concatenation. */
  lemma {:induction false} MissingAppend(a: seq<string>, b: seq<string>, found: seq<Credential>)
    ensures Missing(a + b, found) == Missing(a, found) + Missing(b, found)
  {
    if a != [] {
      assert (a + b)[1..] == a[1..] + b;
      MissingAppend(a[1..], b, found);
    } else {
      assert a + b == b;
    }
  }

  /** Two record lists that agree on which of `ids` have a record leave the same IDs missing. */
  lemma {:induction false} MissingAgrees(ids: seq<string>, r1: seq<Credential>, r2: seq<Credential>)
    requires forall id :: id in ids ==> (HasRecord(r1, id) <==> HasRecord(r2, id))
    ensures Missing(ids, r1) == Missing(ids, r2)
  {
    if ids != [] {
      MissingAgrees(ids[1..], r1, r2);
    }
  }

  /** Filtering the store by the requested IDs first changes nothing: an ID is
      missing after the lookup exactly when the whole store has no record for it. */
  lemma MissingAfterLookup(ids: seq<string>, records: seq<Credential>)
    ensures Missing(ids, Lookup(records, ids)) == Missing(ids, records)
  {
    var found := Lookup(records, ids);
    forall id | id in ids
      ensures HasRecord(found, id) <==> HasRecord(records, id)
    {
      if HasRecord(records, id) {
        var i :| 0 <= i < |records| && records[i].clientId == id;
        assert records[i] in found;
        var k :| 0 <= k < |found| && found[k] == records[i];
      }
      if HasRecord(found, id) {
        var k :| 0 <= k < |found| && found[k].clientId == id;
        assert found[k] in records;
        var i :| 0 <= i < |records| && records[i] == found[k];
      }
    }
    MissingAgrees(ids, found, records);
  }

  /** The MO8003 message: every missing ID, joined by ", ". */
  function MissingMessage(missing: seq<string>): string {
    "No credentials found for client IDs: " + Join(missing, ", ")
  }

  /** The message names the missing IDs in order: one ID is named alone, and a
      longer list is the message for its first ID, ", ", then the rest. */
  lemma MissingMessageNamesEach(missing: seq<string>)
    ensures |missing| == 1 ==> MissingMessage(missing) == "No credentials found for client IDs: " + missing[0]
    ensures |missing| > 1 ==>
      MissingMessage(missing) == MissingMessage(missing[..1]) + ", " + Join(missing[1..], ", ")
  {
    if |missing| > 1 {
      assert missing[..1] == [missing[0]];
      assert Join(missing[..1], ", ") == missing[0];
    }
  }

  /** `updateOne({client_id: id}, {$set: {auth_token: token}})` on a list of records:
      the first record with that client_id gets the new token. */
  function WithToken(records: seq<Credential>, id: string, token: string): (r: seq<Credential>)
    ensures |r| == |records|
    ensures forall i :: 0 <= i < |r| ==>
      r[i] == if records[i].clientId == id && (forall j :: 0 <= j < i ==> records[j].clientId != id)
              then records[i].(authToken := token) else records[i]
  {
    if records == [] then []
    else if records[0].clientId == id then [records[0].(authToken := token)] + records[1..]
    else [records[0]] + WithToken(records[1..], id, token)
  }

  /** The credential collection; its records are the only state it has. */
  class CredentialStore {
    var records: seq<Credential>

    constructor (initial: seq<Credential>)
      ensures records == initial
    {
      records := initial;
    }

    /** Writes a refreshed token back to the first record of `id`; a store without one is left alone. */
    method UpdateToken(id: string, token: string)
      modifies this
      ensures records == WithToken(old(records), id, token)
    {
      var i := 0;
      while i < |records| && records[i].clientId != id
        invariant 0 <= i <= |records|
        invariant forall j :: 0 <= j < i ==> records[j].clientId != id
      {
        i := i + 1;
      }
      if i < |records| {
        records := records[i := records[i].(authToken := token)];
      }
    }
  }
}
