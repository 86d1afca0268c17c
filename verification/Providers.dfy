/**
 Storage providers: credentials encrypted at rest, and one default provider.
 */
module Providers {
  import opened Bytes
  import opened Aead

  // ------------------------------------------------- credential encryption

  /** CredentialEncryptor.Encrypt; None when the random nonce cannot be read. */
  function Encrypt(c: Cipher, nonce: Option<Bytes>, text: Bytes): Option<Bytes> {
    match nonce
    case None => None
    case Some(n) => Some(n + c.seal(n, text))
  }

  function Decrypt(c: Cipher, data: Bytes): Option<Bytes> {
    if |data| < NONCE_SIZE then None else c.open(data[..NONCE_SIZE], data[NONCE_SIZE..])
  }

  /** Falls back to storing the plaintext. */
  function MustEncrypt(c: Cipher, nonce: Option<Bytes>, text: Bytes): Bytes {
    if text == [] then []
    else
      match Encrypt(c, nonce, text)
      case None => text
      case Some(data) => data
  }

  /** Falls back to returning the data as it is. */
  function MustDecrypt(c: Cipher, data: Bytes): Bytes {
    if data == [] then []
    else
      match Decrypt(c, data)
      case None => data
      case Some(text) => text
  }

  /** What a stored credential is read back as: when no nonce could be drawn, whatever its plaintext decrypts to. */
  function ReadBack(c: Cipher, nonce: Option<Bytes>, text: Bytes): Bytes {
    if nonce == None then MustDecrypt(c, text) else text
  }

  predicate NonceSized(nonce: Option<Bytes>) {
    nonce.Some? ==> |nonce.value| == NONCE_SIZE
  }

  lemma StoredReadsBack(c: Cipher, nonce: Option<Bytes>, text: Bytes)
    requires c.Sound() && NonceSized(nonce)
    ensures MustDecrypt(c, MustEncrypt(c, nonce, text)) == ReadBack(c, nonce, text)
  {
    if nonce.Some? && text != [] {
      var data := nonce.value + c.seal(nonce.value, text);
      assert data[..NONCE_SIZE] == nonce.value;
      assert data[NONCE_SIZE..] == c.seal(nonce.value, text);
    }
  }

  /** With a nonce, what is stored is that nonce and a ciphertext that opens to the key; a key is never in the clear. */
  lemma StoredIsSealed(c: Cipher, nonce: Bytes, text: Bytes)
    requires c.Sound() && |nonce| == NONCE_SIZE && text != []
    ensures var stored := MustEncrypt(c, Some(nonce), text);
            |stored| == 12 + |text| + 16 && stored[..12] == nonce && c.open(nonce, stored[12..]) == Some(text)
  {
    var stored := MustEncrypt(c, Some(nonce), text);
    assert stored[..12] == nonce && stored[12..] == c.seal(nonce, text);
  }

  // ------------------------------------------------------------ the records

  type Id = string

  /** Six bullets, U+2022 in UTF-8. */
  const BULLET: Bytes := [0xE2, 0x80, 0xA2]
  const MASK: Bytes := BULLET + BULLET + BULLET + BULLET + BULLET + BULLET

  datatype Provider = Provider(name: string, kind: string, endpoint: string, region: string, bucket: string,
                               accessKey: Bytes, secretKey: Bytes, pathStyle: bool, isDefault: bool)

  type Table = map<Id, Provider>

  /** An access key and a secret key in the clear. */
  type Keys = (Bytes, Bytes)

  /** What GetDecrypted would return for a record: its usable credentials. */
  function Credentials(c: Cipher, p: Provider): Keys {
    (MustDecrypt(c, p.accessKey), MustDecrypt(c, p.secretKey))
  }

  /** The view that leaves the service: access key in the clear, secret key masked. */
  function Masked(c: Cipher, p: Provider): Provider {
    p.(accessKey := MustDecrypt(c, p.accessKey), secretKey := MASK)
  }

  predicate KeepsKey(key: Bytes) {
    key == MASK || key == []
  }

  /** The stored key after an update: the old one when none was submitted. */
  function NextKey(c: Cipher, nonce: Option<Bytes>, submitted: Bytes, existing: Bytes): Bytes {
    if KeepsKey(submitted) then existing else MustEncrypt(c, nonce, submitted)
  }

  /** The record Update writes. */
  function Merged(c: Cipher, n1: Option<Bytes>, n2: Option<Bytes>, p: Provider, existing: Provider): Provider {
    p.(accessKey := NextKey(c, n1, p.accessKey, existing.accessKey),
       secretKey := NextKey(c, n2, p.secretKey, existing.secretKey),
       kind := if p.kind == "" then existing.kind else p.kind,
       region := if p.region == "" then existing.region else p.region)
  }

  /** The record Create writes. */
  function Prepared(c: Cipher, n1: Option<Bytes>, n2: Option<Bytes>, p: Provider): Provider {
    p.(accessKey := MustEncrypt(c, n1, p.accessKey), secretKey := MustEncrypt(c, n2, p.secretKey),
       kind := if p.kind == "" then "s3" else p.kind,
       region := if p.region == "" then "auto" else p.region)
  }

  predicate ValidNew(p: Provider) {
    p.name != "" && p.endpoint != "" && p.bucket != ""
  }

  /** UPDATE ... SET is_default = 0 WHERE id != $1 */
  function Cleared(t: Table, except: Id): Table {
    map id | id in t :: if id == except then t[id] else t[id].(isDefault := false)
  }

  function Defaults(t: Table): set<Id> {
    set id | id in t && t[id].isDefault
  }

  /** At most one provider is the default. */
  predicate OneDefault(t: Table) {
    forall a, b :: a in Defaults(t) && b in Defaults(t) ==> a == b
  }

  // ----------------------------------------------------------- the requests

  /** How far the two table updates of a request get. */
  datatype Db = ClearFails | WriteFails | Works

  datatype Request =
    | Create(id: Id, p: Provider)
    | Update(id: Id, p: Provider)
    | SetDefault(id: Id)
    | Delete(id: Id)

  function WriteWithDefault(t: Table, id: Id, row: Provider, except: Id, db: Db): Table {
    if row.isDefault && db.ClearFails? then t
    else
      var t' := if row.isDefault then Cleared(t, except) else t;
      if db.Works? then t'[id := row] else t'
  }

  function Handle(c: Cipher, n1: Option<Bytes>, n2: Option<Bytes>, t: Table, req: Request, db: Db): Table {
    match req
    case Create(id, p) =>
      if !ValidNew(p) then t else WriteWithDefault(t, id, Prepared(c, n1, n2, p), "", db)
    case Update(id, p) =>
      if id !in t then t else WriteWithDefault(t, id, Merged(c, n1, n2, p, t[id]), id, db)
    case SetDefault(id) =>
      if id !in t then t
      else WriteWithDefault(t, id, Merged(c, n1, n2, Masked(c, t[id]).(isDefault := true), t[id]), id, db)
    case Delete(id) => if db.Works? then t - {id} else t
  }

  /** Each key on its own: the submitted one, or the old one when it is empty or masked. */
  function Replaced(p: Provider, now: Keys): Keys {
    (if KeepsKey(p.accessKey) then now.0 else p.accessKey, if KeepsKey(p.secretKey) then now.1 else p.secretKey)
  }

  /** The keys a record reads back as, once these are sent for it and the others kept as they are `now`. */
  function Leaves(c: Cipher, n1: Option<Bytes>, n2: Option<Bytes>, sent: Keys, now: Keys): Keys {
    (if KeepsKey(sent.0) then now.0 else ReadBack(c, n1, sent.0),
     if KeepsKey(sent.1) then now.1 else ReadBack(c, n2, sent.1))
  }

  /** The keys a provider should have after a request that had them at `now`: a submitted key replaces the old one. */
  function Intended(req: Request, now: Keys): Keys {
    match req
    case Create(_, p) => (p.accessKey, p.secretKey)
    case Update(_, p) => Replaced(p, now)
    case SetDefault(_) => now
    case Delete(_) => now
  }

  /** The keys last submitted for each provider, after one more request. */
  function Ledger(submitted: map<Id, Keys>, t: Table, req: Request, db: Db): map<Id, Keys> {
    if !db.Works? then submitted
    else
      var now := if req.id in submitted then submitted[req.id] else ([], []);
      match req
      case Create(id, p) => if ValidNew(p) then submitted[id := Intended(req, now)] else submitted
      case Delete(id) => submitted - {id}
      case _ => if req.id in t then submitted[req.id := Intended(req, now)] else submitted
  }

  /** What every provider decrypts to is what was last submitted for it. */
  ghost predicate KeysKept(c: Cipher, t: Table, submitted: map<Id, Keys>) {
    && t.Keys == submitted.Keys
    && forall id :: id in t ==> Credentials(c, t[id]) == submitted[id]
  }

  /** Both keys can be encrypted. */
  ghost predicate CanEncrypt(c: Cipher, n1: Option<Bytes>, n2: Option<Bytes>) {
    c.Sound() && NonceSized(n1) && NonceSized(n2) && n1.Some? && n2.Some?
  }

  /** A UUID is new and not empty, which is what `id != ''` relies on. */
  predicate FreshId(t: Table, req: Request) {
    req.Create? ==> req.id !in t && req.id != ""
  }

  lemma ClearedLaws(t: Table, except: Id)
    ensures Cleared(t, except).Keys == t.Keys
    ensures Defaults(Cleared(t, except)) == Defaults(t) * {except}
  {
  }

  /** Those laws determine the table. */
  lemma ClearedUnique(t: Table, t': Table, except: Id)
    requires t'.Keys == t.Keys && Defaults(t') == Defaults(t) * {except}
    requires forall id :: id in t' ==> t'[id] == t[id].(isDefault := t'[id].isDefault)
    ensures t' == Cleared(t, except)
  {
    forall id | id in t ensures t'[id] == Cleared(t, except)[id] {
      assert id in Defaults(t') <==> id in Defaults(t) * {except};
    }
  }

  lemma WriteLaws(t: Table, id: Id, row: Provider)
    ensures Defaults(t[id := row]) == Defaults(t) - {id} + (if row.isDefault then {id} else {})
  {
  }

  lemma WriteKeepsOneDefault(t: Table, id: Id, row: Provider, except: Id, db: Db)
    requires OneDefault(t) && (except == id || except !in t)
    ensures OneDefault(WriteWithDefault(t, id, row, except, db))
    ensures WriteWithDefault(t, id, row, except, db).Keys <= t.Keys + {id}
  {
    ClearedLaws(t, except);
    WriteLaws(t, id, row);
    WriteLaws(Cleared(t, except), id, row);
  }

  lemma HandleKeepsOneDefault(c: Cipher, n1: Option<Bytes>, n2: Option<Bytes>, t: Table, req: Request, db: Db)
    requires OneDefault(t) && "" !in t && FreshId(t, req)
    ensures OneDefault(Handle(c, n1, n2, t, req, db)) && "" !in Handle(c, n1, n2, t, req, db)
  {
    match req
    case Create(id, p) => WriteKeepsOneDefault(t, id, Prepared(c, n1, n2, p), "", db);
    case Update(id, p) =>
      if id in t {
        WriteKeepsOneDefault(t, id, Merged(c, n1, n2, p, t[id]), id, db);
      }
    case SetDefault(id) =>
      if id in t {
        WriteKeepsOneDefault(t, id, Merged(c, n1, n2, Masked(c, t[id]).(isDefault := true), t[id]), id, db);
      }
    case Delete(id) => assert Defaults(t - {id}) <= Defaults(t);
  }

  // ------------------------------------------- what a request leaves, field by field

  /** Not submitted: empty, or six bullets in UTF-8. */
  predicate EmptyOrBullets(key: Bytes) {
    || key == []
    || (|key| == 18 && forall i :: 0 <= i < 18 ==> key[i] == [0xE2, 0x80, 0xA2][i % 3])
  }

  lemma KeepsKeyIff(key: Bytes)
    ensures KeepsKey(key) <==> EmptyOrBullets(key)
  {
    assert |MASK| == 18 && forall i :: 0 <= i < 18 ==> MASK[i] == [0xE2, 0x80, 0xA2][i % 3];
    if |key| == 18 && forall i :: 0 <= i < 18 ==> key[i] == [0xE2, 0x80, 0xA2][i % 3] {
      assert key == MASK;
    }
  }

  /** Every other provider is as before, except that it may have lost its flag. */
  predicate OthersKept(t: Table, t': Table, id: Id, cleared: bool) {
    forall x :: x in t && x != id ==> x in t' && t'[x] == t[x].(isDefault := t[x].isDefault && !cleared)
  }

  /** A working update writes what was submitted; an empty kind, region or key and a masked key keep the old one. */
  lemma UpdateLeaves(c: Cipher, n1: Option<Bytes>, n2: Option<Bytes>, t: Table, id: Id, p: Provider)
    requires id in t
    ensures var t' := Handle(c, n1, n2, t, Update(id, p), Works);
            && t'.Keys == t.Keys && OthersKept(t, t', id, p.isDefault)
            && t'[id].name == p.name && t'[id].endpoint == p.endpoint && t'[id].bucket == p.bucket
            && t'[id].pathStyle == p.pathStyle && t'[id].isDefault == p.isDefault
            && t'[id].kind == (if p.kind == "" then t[id].kind else p.kind)
            && t'[id].region == (if p.region == "" then t[id].region else p.region)
            && t'[id].accessKey == (if EmptyOrBullets(p.accessKey) then t[id].accessKey
                                    else MustEncrypt(c, n1, p.accessKey))
            && t'[id].secretKey == (if EmptyOrBullets(p.secretKey) then t[id].secretKey
                                    else MustEncrypt(c, n2, p.secretKey))
  {
    KeepsKeyIff(p.accessKey);
    KeepsKeyIff(p.secretKey);
  }

  /** A working create writes what was submitted, with kind "s3" and region "auto" for empty ones. */
  lemma CreateLeaves(c: Cipher, n1: Option<Bytes>, n2: Option<Bytes>, t: Table, id: Id, p: Provider)
    requires FreshId(t, Create(id, p)) && p.name != "" && p.endpoint != "" && p.bucket != "" && "" !in t
    ensures var t' := Handle(c, n1, n2, t, Create(id, p), Works);
            && t'.Keys == t.Keys + {id} && OthersKept(t, t', id, p.isDefault)
            && t'[id].name == p.name && t'[id].endpoint == p.endpoint && t'[id].bucket == p.bucket
            && t'[id].pathStyle == p.pathStyle && t'[id].isDefault == p.isDefault
            && t'[id].kind == (if p.kind == "" then "s3" else p.kind)
            && t'[id].region == (if p.region == "" then "auto" else p.region)
            && t'[id].accessKey == MustEncrypt(c, n1, p.accessKey)
            && t'[id].secretKey == MustEncrypt(c, n2, p.secretKey)
  {
  }

  /** A working set-default changes only the flag, and how the access key is stored. */
  lemma SetDefaultLeaves(c: Cipher, n1: Option<Bytes>, n2: Option<Bytes>, t: Table, id: Id)
    requires id in t
    ensures var t' := Handle(c, n1, n2, t, SetDefault(id), Works);
            var key := MustDecrypt(c, t[id].accessKey);
            && t'.Keys == t.Keys && OthersKept(t, t', id, true)
            && t'[id] == t[id].(isDefault := true, accessKey := t'[id].accessKey)
            && t'[id].accessKey == (if EmptyOrBullets(key) then t[id].accessKey else MustEncrypt(c, n1, key))
  {
    KeepsKeyIff(MustDecrypt(c, t[id].accessKey));
    KeepsKeyIff(MASK);
  }

  /** The request has something to write: a complete new provider, or one that is there. */
  predicate Acceptable(t: Table, req: Request) {
    match req
    case Create(_, p) => p.name != "" && p.endpoint != "" && p.bucket != ""
    case Update(id, _) => id in t
    case SetDefault(id) => id in t
    case Delete(_) => true
  }

  /**
   A request that fails adds, removes and changes nothing, except that when the
   write of a new default fails the other flags are gone already.
   */
  lemma FailureLeaves(c: Cipher, n1: Option<Bytes>, n2: Option<Bytes>, t: Table, req: Request, db: Db)
    requires FreshId(t, req) && "" !in t && (db.Works? ==> !Acceptable(t, req))
    ensures var t' := Handle(c, n1, n2, t, req, db);
            var cleared := && db.WriteFails? && Acceptable(t, req)
                           && (req.SetDefault? || (!req.Delete? && req.p.isDefault));
            && t'.Keys == t.Keys && OthersKept(t, t', req.id, cleared)
            && (req.id in t ==> t'[req.id] == t[req.id])
  {
  }

  lemma DeleteLeaves(c: Cipher, n1: Option<Bytes>, n2: Option<Bytes>, t: Table, id: Id)
    ensures var t' := Handle(c, n1, n2, t, Delete(id), Works);
            id !in t' && OthersKept(t, t', id, false) && t'.Keys <= t.Keys
  {
  }

  // --------------------------------------------------- credentials survive

  /** The keys a request is meant to leave. */
  lemma IntendedKeys(req: Request, now: Keys)
    ensures req.Create? ==> Intended(req, now) == (req.p.accessKey, req.p.secretKey)
    ensures req.Update? ==>
              Intended(req, now) == (if EmptyOrBullets(req.p.accessKey) then now.0 else req.p.accessKey,
                                     if EmptyOrBullets(req.p.secretKey) then now.1 else req.p.secretKey)
    ensures req.SetDefault? ==> Intended(req, now) == now
  {
    if req.Update? {
      KeepsKeyIff(req.p.accessKey);
      KeepsKeyIff(req.p.secretKey);
    }
  }

  lemma PreparedKeys(c: Cipher, n1: Option<Bytes>, n2: Option<Bytes>, p: Provider)
    requires c.Sound() && NonceSized(n1) && NonceSized(n2)
    ensures Credentials(c, Prepared(c, n1, n2, p)) == (ReadBack(c, n1, p.accessKey), ReadBack(c, n2, p.secretKey))
  {
    StoredReadsBack(c, n1, p.accessKey);
    StoredReadsBack(c, n2, p.secretKey);
  }

  lemma MergedKeys(c: Cipher, n1: Option<Bytes>, n2: Option<Bytes>, p: Provider, existing: Provider)
    requires c.Sound() && NonceSized(n1) && NonceSized(n2)
    ensures Credentials(c, Merged(c, n1, n2, p, existing))
         == Leaves(c, n1, n2, (p.accessKey, p.secretKey), Credentials(c, existing))
  {
    StoredReadsBack(c, n1, p.accessKey);
    StoredReadsBack(c, n2, p.secretKey);
  }

  /** A request whose nonces are drawn, served by itself, keeps what was last submitted readable. */
  lemma HandleKeepsKeys(c: Cipher, n1: Option<Bytes>, n2: Option<Bytes>, t: Table, req: Request, db: Db,
        submitted: map<Id, Keys>)
    requires CanEncrypt(c, n1, n2)
    requires KeysKept(c, t, submitted)
    ensures KeysKept(c, Handle(c, n1, n2, t, req, db), Ledger(submitted, t, req, db))
  {
    match req
    case Create(id, p) =>
      PreparedKeys(c, n1, n2, p);
      WriteKeepsKeys(c, t, submitted, id, Prepared(c, n1, n2, p), "", db);
    case Update(id, p) =>
      if id in t {
        MergedKeys(c, n1, n2, p, t[id]);
        WriteKeepsKeys(c, t, submitted, id, Merged(c, n1, n2, p, t[id]), id, db);
      }
    case SetDefault(id) =>
      if id in t {
        var view := Masked(c, t[id]).(isDefault := true);
        MergedKeys(c, n1, n2, view, t[id]);
        WriteKeepsKeys(c, t, submitted, id, Merged(c, n1, n2, view, t[id]), id, db);
      }
    case Delete(id) =>
  }

  lemma WriteKeepsKeys(c: Cipher, t: Table, submitted: map<Id, Keys>, id: Id, row: Provider, except: Id, db: Db)
    requires KeysKept(c, t, submitted)
    ensures KeysKept(c, WriteWithDefault(t, id, row, except, db),
                     if db.Works? then submitted[id := Credentials(c, row)] else submitted)
  {
    ClearedLaws(t, except);
  }

  // ------------------------------------------------------------ the service

  class ProviderService {
    const cipher: Cipher
    var table: Table
    /** The keys last submitted for each provider. */
    ghost var submitted: map<Id, Keys>

    /** Every provider decrypts to the keys last submitted for it. */
    ghost predicate Readable()
      reads this
    {
      KeysKept(cipher, table, submitted)
    }

    constructor (cipher: Cipher)
      ensures table == map[] && submitted == map[] && this.cipher == cipher && Readable()
    {
      this.cipher := cipher;
      table, submitted := map[], map[];
    }

    /** Takes a request into the history. */
    ghost method Log(t: Table, req: Request, n1: Option<Bytes>, n2: Option<Bytes>, db: Db)
      requires table == Handle(cipher, n1, n2, t, req, db)
      modifies this`submitted
      ensures submitted == Ledger(old(submitted), t, req, db)
      ensures CanEncrypt(cipher, n1, n2) && KeysKept(cipher, t, old(submitted)) ==> Readable()
    {
      if CanEncrypt(cipher, n1, n2) && KeysKept(cipher, t, submitted) {
        HandleKeepsKeys(cipher, n1, n2, t, req, db, submitted);
      }
      submitted := Ledger(submitted, t, req, db);
    }

    // --- repository

    /** The excepted provider keeps its flag, no other has it, and nothing else changes. */
    method ClearDefault(except: Id)
      modifies this`table
      ensures table.Keys == old(table).Keys
      ensures Defaults(table) == Defaults(old(table)) * {except}
      ensures forall id :: id in table ==> table[id] == old(table)[id].(isDefault := table[id].isDefault)
    {
      table := map id | id in table :: if id == except then table[id] else table[id].(isDefault := false);
    }

    method FirstDefault() returns (id: Option<Id>)
      ensures id == None <==> Defaults(table) == {}
      ensures id.Some? ==> id.value in Defaults(table)
    {
      var found := Defaults(table);
      if found == {} {
        return None;
      }
      var some :| some in found;
      id := Some(some);
    }

    // --- service

    /** The record without its secret key; the access key is in the clear. */
    ghost predicate ShowsMasked(id: Id, p: Provider)
      reads this
    {
      && id in table
      && p == table[id].(accessKey := p.accessKey, secretKey := p.secretKey)
      && p.secretKey != [] && EmptyOrBullets(p.secretKey)
      && (Readable() ==> p.accessKey == submitted[id].0)
    }

    method GetByID(id: Id) returns (p: Option<Provider>)
      ensures p == if id in table then Some(Masked(cipher, table[id])) else None
      ensures p.Some? ==> ShowsMasked(id, p.value)
    {
      KeepsKeyIff(MASK);
      if id !in table {
        return None;
      }
      var found := table[id];
      found := found.(accessKey := MustDecrypt(cipher, found.accessKey));
      found := found.(secretKey := MASK);
      p := Some(found);
    }

    /** The record, with the keys last submitted for it in the clear. */
    method GetDecrypted(id: Id) returns (p: Option<Provider>)
      ensures p.Some? <==> id in table
      ensures p.Some? ==> p.value.(accessKey := table[id].accessKey, secretKey := table[id].secretKey) == table[id]
      ensures p.Some? && Readable() ==> (p.value.accessKey, p.value.secretKey) == submitted[id]
    {
      if id !in table {
        return None;
      }
      var found := table[id];
      found := found.(accessKey := MustDecrypt(cipher, found.accessKey));
      found := found.(secretKey := MustDecrypt(cipher, found.secretKey));
      p := Some(found);
    }

    /** The default provider, its secret key masked. */
    method GetDefault() returns (p: Option<Provider>)
      ensures p == None <==> Defaults(table) == {}
      ensures p.Some? ==> exists id :: id in Defaults(table) && ShowsMasked(id, p.value)
      ensures forall id :: Defaults(table) == {id} ==> p.Some? && ShowsMasked(id, p.value)
    {
      var id := FirstDefault();
      if id == None {
        return None;
      }
      p := GetByID(id.value);
      assert forall x :: Defaults(table) == {x} ==> id.value == x;
    }

    method Create(id: Id, p: Provider, n1: Option<Bytes>, n2: Option<Bytes>, db: Db) returns (ok: bool)
      modifies this
      ensures table == Handle(cipher, n1, n2, old(table), Request.Create(id, p), db)
      ensures submitted == Ledger(old(submitted), old(table), Request.Create(id, p), db)
      ensures CanEncrypt(cipher, n1, n2) && old(Readable()) ==> Readable()
      ensures ok <==> p.name != "" && p.endpoint != "" && p.bucket != "" && db.Works?
    {
      ok := CreateRecord(id, p, n1, n2, db);
      Log(old(table), Request.Create(id, p), n1, n2, db);
    }

    method CreateRecord(id: Id, p: Provider, n1: Option<Bytes>, n2: Option<Bytes>, db: Db) returns (ok: bool)
      modifies this`table
      ensures table == Handle(cipher, n1, n2, old(table), Request.Create(id, p), db)
      ensures ok <==> p.name != "" && p.endpoint != "" && p.bucket != "" && db.Works?
    {
      if p.name == "" || p.endpoint == "" || p.bucket == "" {
        return false;
      }
      var row := p;
      if row.kind == "" {
        row := row.(kind := "s3");
      }
      if row.region == "" {
        row := row.(region := "auto");
      }
      row := row.(accessKey := MustEncrypt(cipher, n1, row.accessKey));
      row := row.(secretKey := MustEncrypt(cipher, n2, row.secretKey));
      ok := Write(id, row, "", db);
    }

    /** The end of Create and Update: clear other defaults when needed, then write. */
    method Write(id: Id, row: Provider, except: Id, db: Db) returns (ok: bool)
      modifies this`table
      ensures table == WriteWithDefault(old(table), id, row, except, db)
      ensures ok ==> db.Works?
      ensures db.Works? ==> ok
    {
      if row.isDefault {
        if db.ClearFails? {
          return false;
        }
        ClearDefault(except);
        ClearedUnique(old(table), table, except);
      }
      if !db.Works? {
        return false;
      }
      table := table[id := row];
      ok := true;
    }

    method Update(id: Id, p: Provider, n1: Option<Bytes>, n2: Option<Bytes>, db: Db) returns (ok: bool)
      modifies this
      ensures table == Handle(cipher, n1, n2, old(table), Request.Update(id, p), db)
      ensures submitted == Ledger(old(submitted), old(table), Request.Update(id, p), db)
      ensures CanEncrypt(cipher, n1, n2) && old(Readable()) ==> Readable()
      ensures ok <==> id in old(table) && db.Works?
    {
      ok := UpdateRecord(id, p, n1, n2, db);
      Log(old(table), Request.Update(id, p), n1, n2, db);
    }

    method UpdateRecord(id: Id, p: Provider, n1: Option<Bytes>, n2: Option<Bytes>, db: Db) returns (ok: bool)
      modifies this`table
      ensures table == Handle(cipher, n1, n2, old(table), Request.Update(id, p), db)
      ensures ok <==> id in old(table) && db.Works?
    {
      if id !in table {
        return false;
      }
      var existing := table[id];
      var row := p;
      if row.accessKey == MASK || row.accessKey == [] {
        row := row.(accessKey := existing.accessKey);
      } else {
        row := row.(accessKey := MustEncrypt(cipher, n1, row.accessKey));
      }
      if row.secretKey == MASK || row.secretKey == [] {
        row := row.(secretKey := existing.secretKey);
      } else {
        row := row.(secretKey := MustEncrypt(cipher, n2, row.secretKey));
      }
      if row.kind == "" {
        row := row.(kind := existing.kind);
      }
      if row.region == "" {
        row := row.(region := existing.region);
      }
      ok := Write(id, row, id, db);
    }

    /** The set-default request: the masked view goes back through Update. */
    method SetDefault(id: Id, n1: Option<Bytes>, n2: Option<Bytes>, db: Db) returns (ok: bool)
      modifies this
      ensures table == Handle(cipher, n1, n2, old(table), Request.SetDefault(id), db)
      ensures submitted == Ledger(old(submitted), old(table), Request.SetDefault(id), db)
      ensures CanEncrypt(cipher, n1, n2) && old(Readable()) ==> Readable()
      ensures ok <==> id in old(table) && db.Works?
    {
      var p := GetByID(id);
      if p == None {
        return false;
      }
      ok := UpdateRecord(id, p.value.(isDefault := true), n1, n2, db);
      Log(old(table), Request.SetDefault(id), n1, n2, db);
    }

    method Delete(id: Id, db: Db)
      modifies this
      ensures table == if db.Works? then old(table) - {id} else old(table)
      ensures submitted == Ledger(old(submitted), old(table), Request.Delete(id), db)
      ensures old(Readable()) ==> Readable()
    {
      if db.Works? {
        table, submitted := table - {id}, submitted - {id};
      }
    }
  }
}
