/**
 The signer's encrypted seed vault: the envelope
 (services/sign-service/internal/keystore/crypto.go) and the locked operations on seed
 slots (services/sign-service/internal/keystore/keys.go). The cipher is a parameter;
 random bytes are inputs.
 */
module SeedVault {
  import opened Wrappers
  import opened Text
  import opened ByteStrings

  // ---------------------------------------------------------------- the envelope

  /** Key derivation from password, storage key and salt; AEAD over key, nonce, text and associated data. */
  datatype Cipher = Cipher(
    kdf: (string, string, Bytes) -> Bytes,
    seal: (Bytes, Bytes, Bytes, string) -> Bytes,
    open: (Bytes, Bytes, Bytes, string) -> Option<Bytes>)

  /** All that is assumed of the cipher. */
  ghost predicate OpenInvertsSeal(c: Cipher) {
    forall key: Bytes, nonce: Bytes, text: Bytes, ad: string ::
      c.open(key, nonce, c.seal(key, nonce, text, ad), ad) == Some(text)
  }

  type Salt = b: Bytes | |b| == 16 witness Zeros(16)
  type Nonce = b: Bytes | |b| == 12 witness Zeros(12)

  /** The three bytes "sv1". */
  const PREFIX: Bytes := [115, 118, 49]

  datatype VaultError = BadPayload | BadVersion | UnlockFailed | MissingSlot | MissingSeed
                      | NotProvisioned | AlreadyExists | StoreFailed

  function EncryptSeed(c: Cipher, password: string, storageKey: string, seed: Bytes, salt: Salt, nonce: Nonce): Bytes {
    PREFIX + salt + nonce + c.seal(c.kdf(password, storageKey, salt), nonce, seed, storageKey)
  }

  function DecryptSeed(c: Cipher, password: string, storageKey: string, payload: Bytes): Result<Bytes, VaultError> {
    if |payload| < |PREFIX| + 16 + 12 then Failure(BadPayload)
    else if payload[..3] != PREFIX then Failure(BadVersion)
    else
      var salt, nonce, text := payload[3..19], payload[19..31], payload[31..];
      match c.open(c.kdf(password, storageKey, salt), nonce, text, storageKey)
      case None => Failure(UnlockFailed)
      case Some(seed) => Success(seed)
  }

  lemma EnvelopeRoundTrip(c: Cipher, password: string, storageKey: string, seed: Bytes, salt: Salt, nonce: Nonce)
    requires OpenInvertsSeal(c)
    ensures DecryptSeed(c, password, storageKey, EncryptSeed(c, password, storageKey, seed, salt, nonce)) ==
            Success(seed)
  {
    var text := c.seal(c.kdf(password, storageKey, salt), nonce, seed, storageKey);
    var payload := EncryptSeed(c, password, storageKey, seed, salt, nonce);
    assert payload[..3] == PREFIX && payload[3..19] == salt && payload[19..31] == nonce && payload[31..] == text;
  }

  /** The envelope: three bytes "sv1", 16 of salt, 12 of nonce, and the sealed seed bound to its storage key. */
  lemma EnvelopeLayout(c: Cipher, password: string, storageKey: string, seed: Bytes, salt: Salt, nonce: Nonce)
    ensures var e := EncryptSeed(c, password, storageKey, seed, salt, nonce);
            && |e| >= 31 && e[..3] == [0x73, 0x76, 0x31] && e[3..19] == salt && e[19..31] == nonce
            && e[31..] == c.seal(c.kdf(password, storageKey, salt), nonce, seed, storageKey)
  {
    var e := EncryptSeed(c, password, storageKey, seed, salt, nonce);
    assert e == PREFIX + (salt + (nonce + c.seal(c.kdf(password, storageKey, salt), nonce, seed, storageKey)));
  }

  /** What opens, and what is wrong with the rest. */
  lemma EnvelopeOpens(c: Cipher, password: string, storageKey: string, e: Bytes)
    ensures var r := DecryptSeed(c, password, storageKey, e);
            && (|e| < 31 ==> r == Failure(BadPayload))
            && (|e| >= 31 && e[..3] != [0x73, 0x76, 0x31] ==> r == Failure(BadVersion))
            && (|e| >= 31 && e[..3] == [0x73, 0x76, 0x31] ==>
                  var plain := c.open(c.kdf(password, storageKey, e[3..19]), e[19..31], e[31..], storageKey);
                  if plain.Some? then r == Success(plain.value) else r == Failure(UnlockFailed))
  {
  }

  // ---------------------------------------------------------------- the locked operations

  type Store = map<string, Bytes>

  datatype Vault = Vault(cipher: Cipher, namespace: string, password: string, autoCreate: bool) {
    function StorageKey(slot: string): string {
      Trim(namespace) + ":" + Trim(slot)
    }
  }

  /** The seed in a slot; an absent or empty entry counts as not provisioned. */
  function Load(v: Vault, store: Store, slot: string): Result<Bytes, VaultError> {
    var key := v.StorageKey(slot);
    if Trim(slot) == "" then Failure(MissingSlot)
    else if key !in store || store[key] == [] then Failure(NotProvisioned)
    else DecryptSeed(v.cipher, v.password, key, store[key])
  }

  function ProvisionError(v: Vault, store: Store, slot: string, seed: Bytes): Option<VaultError> {
    var key := v.StorageKey(slot);
    if Trim(slot) == "" then Some(MissingSlot)
    else if seed == [] then Some(MissingSeed)
    else if key in store && store[key] != [] then Some(AlreadyExists)
    else None
  }

  function Written(v: Vault, store: Store, slot: string, seed: Bytes, salt: Salt, nonce: Nonce): Store {
    var key := v.StorageKey(slot);
    store[key := EncryptSeed(v.cipher, v.password, key, seed, salt, nonce)]
  }

  /** Writing an envelope makes its seed the one that loads from the slot, and touches no other slot. */
  lemma WrittenLoads(v: Vault, store: Store, slot: string, seed: Bytes, salt: Salt, nonce: Nonce)
    requires OpenInvertsSeal(v.cipher) && Trim(slot) != ""
    ensures Load(v, Written(v, store, slot, seed, salt, nonce), slot) == Success(seed)
    ensures forall key :: key != v.StorageKey(slot) && key in store ==>
              var written := Written(v, store, slot, seed, salt, nonce);
              key in written && written[key] == store[key]
  {
    EnvelopeRoundTrip(v.cipher, v.password, v.StorageKey(slot), seed, salt, nonce);
  }

  class Keys {
    const vault: Vault
    var store: Store

    constructor (vault: Vault, store: Store)
      ensures this.vault == vault && this.store == store
    {
      this.vault := vault;
      this.store := store;
    }

    method LoadSeed(slot: string) returns (r: Result<Bytes, VaultError>)
      ensures r == Load(vault, store, slot)
      ensures var key := Trim(vault.namespace) + ":" + Trim(slot);
              && (Trim(slot) == "" ==> r == Failure(MissingSlot))
              && (Trim(slot) != "" && (key !in store || store[key] == []) ==> r == Failure(NotProvisioned))
              && (Trim(slot) != "" && key in store && store[key] != [] ==>
                    r == DecryptSeed(vault.cipher, vault.password, key, store[key]))
    {
      if Trim(slot) == "" {
        return Failure(MissingSlot);
      }
      var key := vault.StorageKey(slot);
      if key !in store {
        return Failure(NotProvisioned);
      }
      var payload := store[key];
      if |payload| == 0 {
        return Failure(NotProvisioned);
      }
      r := DecryptSeed(vault.cipher, vault.password, key, payload);
    }

    /** None for success. A slot that holds anything is never overwritten. */
    method ProvisionSeed(slot: string, seed: Bytes, salt: Salt, nonce: Nonce) returns (e: Option<VaultError>)
      modifies this`store
      ensures e == ProvisionError(vault, old(store), slot, seed)
      ensures var key := Trim(vault.namespace) + ":" + Trim(slot);
              && (e.None? <==> Trim(slot) != "" && seed != [] && (key !in old(store) || old(store)[key] == []))
              && (Trim(slot) != "" && seed != [] && key in old(store) && old(store)[key] != [] ==>
                    e == Some(AlreadyExists))
      ensures store == if e.None? then Written(vault, old(store), slot, seed, salt, nonce) else old(store)
    {
      if Trim(slot) == "" {
        return Some(MissingSlot);
      }
      if |seed| == 0 {
        return Some(MissingSeed);
      }
      var key := vault.StorageKey(slot);
      if key in store && |store[key]| > 0 {
        return Some(AlreadyExists);
      }
      store := store[key := EncryptSeed(vault.cipher, vault.password, key, seed, salt, nonce)];
      e := None;
    }

    method ReplaceSeed(slot: string, seed: Bytes, salt: Salt, nonce: Nonce) returns (e: Option<VaultError>)
      modifies this`store
      ensures e == if Trim(slot) == "" then Some(MissingSlot) else if seed == [] then Some(MissingSeed) else None
      ensures store == if e.None? then Written(vault, old(store), slot, seed, salt, nonce) else old(store)
    {
      if Trim(slot) == "" {
        return Some(MissingSlot);
      }
      if |seed| == 0 {
        return Some(MissingSeed);
      }
      var key := vault.StorageKey(slot);
      store := store[key := EncryptSeed(vault.cipher, vault.password, key, seed, salt, nonce)];
      e := None;
    }
  }

  // ---------------------------------------------------------------- interleaved calls

  /** Where one LoadOrCreateSeed call stands. Load and provision are separate critical sections. */
  datatype Call =
    | Starting(slot: string)
    | Missing(slot: string)
    | Returned(slot: string, seed: Bytes)
    | Failed(slot: string, error: VaultError)

  datatype State = State(store: Store, calls: map<nat, Call>)

  datatype Step =
    | Begin(id: nat, slot: string)
    | LoadStep(id: nat, getFails: bool)
    | ProvisionStep(id: nat, seed: Bytes, salt: Salt, nonce: Nonce, put: Outcome)
    | DirectProvision(slot: string, seed: Bytes, salt: Salt, nonce: Nonce, put: Outcome)
    | Replace(slot: string, seed: Bytes, salt: Salt, nonce: Nonce, put: Outcome)

  /** One critical section, chosen by the scheduler; a step that is not enabled changes nothing. */
  function Next(v: Vault, s: State, step: Step): State {
    match step
    case Begin(id, slot) =>
      if id in s.calls then s else s.(calls := s.calls[id := Starting(slot)])
    case LoadStep(id, getFails) =>
      if id !in s.calls || !s.calls[id].Starting? then s
      else s.(calls := s.calls[id := AfterLoad(v, s.store, s.calls[id].slot, getFails)])
    case ProvisionStep(id, seed, salt, nonce, put) =>
      if id !in s.calls || !s.calls[id].Missing? then s
      else
        var slot := s.calls[id].slot;
        var store := AfterPut(v, s.store, slot, seed, salt, nonce, put);
        var error := ProvisionError(v, s.store, slot, seed);
        var call := if error.Some? then Failed(slot, error.value)
                    else if put == Applied then Returned(slot, seed) else Failed(slot, StoreFailed);
        State(store, s.calls[id := call])
    case DirectProvision(slot, seed, salt, nonce, put) =>
      s.(store := AfterPut(v, s.store, slot, seed, salt, nonce, put))
    case Replace(slot, seed, salt, nonce, put) =>
      if Trim(slot) == "" || seed == [] || put == Lost then s
      else s.(store := Written(v, s.store, slot, seed, salt, nonce))
  }

  function AfterLoad(v: Vault, store: Store, slot: string, getFails: bool): Call {
    if Trim(slot) != "" && getFails then Failed(slot, StoreFailed)
    else
      match Load(v, store, slot)
      case Success(seed) => Returned(slot, seed)
      case Failure(e) => if e == NotProvisioned && v.autoCreate then Missing(slot) else Failed(slot, e)
  }

  function AfterPut(v: Vault, store: Store, slot: string, seed: Bytes, salt: Salt, nonce: Nonce, put: Outcome): Store
  {
    if ProvisionError(v, store, slot, seed).Some? || put == Lost then store
    else Written(v, store, slot, seed, salt, nonce)
  }

  function Run(v: Vault, s: State, steps: seq<Step>): State {
    if steps == [] then s else Next(v, Run(v, s, steps[..|steps| - 1]), steps[|steps| - 1])
  }

  predicate ReplacesSlot(v: Vault, step: Step, key: string) {
    step.Replace? && v.StorageKey(step.slot) == key
  }

  /** Every successful call on the slot returned the seed that the stored envelope opens to. */
  ghost predicate Agrees(v: Vault, s: State, key: string) {
    forall id :: id in s.calls && s.calls[id].Returned? && v.StorageKey(s.calls[id].slot) == key ==>
      Trim(s.calls[id].slot) != "" && Load(v, s.store, s.calls[id].slot) == Success(s.calls[id].seed)
  }

  lemma SameSlotLoadsTheSame(v: Vault, store: Store, a: string, b: string)
    requires v.StorageKey(a) == v.StorageKey(b)
    ensures Load(v, store, a) == Load(v, store, b)
  {
    var n := |Trim(v.namespace)| + 1;
    assert Trim(a) == v.StorageKey(a)[n..] && Trim(b) == v.StorageKey(b)[n..];
  }

  /** A slot that holds a seed is never changed except by Replace. */
  lemma PutKeepsProvisioned(v: Vault, store: Store, slot: string, seed: Bytes, salt: Salt, nonce: Nonce,
                            put: Outcome, other: string)
    requires Load(v, store, other).Success?
    ensures Load(v, AfterPut(v, store, slot, seed, salt, nonce, put), other) == Load(v, store, other)
  {
    if v.StorageKey(slot) == v.StorageKey(other) {
      SameSlotLoadsTheSame(v, store, slot, other);
    }
  }

  lemma NextKeepsAgreement(v: Vault, s: State, step: Step, key: string)
    requires OpenInvertsSeal(v.cipher) && Agrees(v, s, key) && !ReplacesSlot(v, step, key)
    ensures Agrees(v, Next(v, s, step), key)
  {
    var s' := Next(v, s, step);
    forall id | id in s'.calls && s'.calls[id].Returned? && v.StorageKey(s'.calls[id].slot) == key
      ensures Trim(s'.calls[id].slot) != "" && Load(v, s'.store, s'.calls[id].slot) == Success(s'.calls[id].seed)
    {
      var slot := s'.calls[id].slot;
      match step
      case Begin(_, _) =>
      case LoadStep(_, _) =>
      case ProvisionStep(caller, seed, salt, nonce, put) =>
        if s' != s {
          var own := s.calls[caller].slot;
          if id == caller {
            WrittenLoads(v, s.store, own, seed, salt, nonce);
          } else {
            PutKeepsProvisioned(v, s.store, own, seed, salt, nonce, put, slot);
          }
        }
      case DirectProvision(own, seed, salt, nonce, put) =>
        PutKeepsProvisioned(v, s.store, own, seed, salt, nonce, put, slot);
      case Replace(_, _, _, _, _) =>
    }
  }

  /**
   Over every interleaving of calls, from every initial store, with every outcome of
   reads and writes and with direct provisioning allowed: as long as the slot's seed is
   not replaced, each successful call holds the seed the slot's envelope opens to.
   */
  lemma {:induction false} RunKeepsAgreement(v: Vault, store: Store, steps: seq<Step>, key: string)
    requires OpenInvertsSeal(v.cipher)
    requires forall i :: 0 <= i < |steps| ==> !ReplacesSlot(v, steps[i], key)
    ensures Agrees(v, Run(v, State(store, map[]), steps), key)
  {
    if steps != [] {
      var n := |steps| - 1;
      RunKeepsAgreement(v, store, steps[..n], key);
      NextKeepsAgreement(v, Run(v, State(store, map[]), steps[..n]), steps[n], key);
    }
  }

  /** The first call on an empty slot creates the seed, where that is allowed, and the slot then loads it. */
  lemma FirstCallCreates(v: Vault, store: Store, id: nat, slot: string, seed: Bytes, salt: Salt, nonce: Nonce)
    requires OpenInvertsSeal(v.cipher) && Trim(slot) != "" && seed != []
    requires v.StorageKey(slot) !in store || store[v.StorageKey(slot)] == []
    ensures var begun := Next(v, State(store, map[]), Begin(id, slot));
            var looked := Next(v, begun, LoadStep(id, false));
            var done := Next(v, looked, ProvisionStep(id, seed, salt, nonce, Applied));
            if v.autoCreate then done.calls[id] == Returned(slot, seed) && Load(v, done.store, slot) == Success(seed)
            else done.calls[id] == Failed(slot, NotProvisioned) && done.store == store
  {
    WrittenLoads(v, store, slot, seed, salt, nonce);
  }

  /** And a later call on it returns that seed without changing anything. */
  lemma LaterCallLoads(v: Vault, s: State, id: nat, slot: string, seed: Bytes)
    requires id !in s.calls && Load(v, s.store, slot) == Success(seed)
    ensures var looked := Next(v, Next(v, s, Begin(id, slot)), LoadStep(id, false));
            looked.calls == s.calls[id := Returned(slot, seed)] && looked.store == s.store
  {
    var begun := Next(v, s, Begin(id, slot));
    assert begun.calls[id := Returned(slot, seed)] == s.calls[id := Returned(slot, seed)];
  }

  /** So any two successful calls on one slot return the same seed. */
  lemma SeedsAgree(v: Vault, store: Store, steps: seq<Step>, a: nat, b: nat)
    requires OpenInvertsSeal(v.cipher)
    requires var calls := Run(v, State(store, map[]), steps).calls;
             && a in calls && b in calls && calls[a].Returned? && calls[b].Returned?
             && v.StorageKey(calls[a].slot) == v.StorageKey(calls[b].slot)
             && forall i :: 0 <= i < |steps| ==> !ReplacesSlot(v, steps[i], v.StorageKey(calls[a].slot))
    ensures var s := Run(v, State(store, map[]), steps);
            s.calls[a].seed == s.calls[b].seed && Load(v, s.store, s.calls[a].slot) == Success(s.calls[a].seed)
  {
    var s := Run(v, State(store, map[]), steps);
    RunKeepsAgreement(v, store, steps, v.StorageKey(s.calls[a].slot));
    SameSlotLoadsTheSame(v, s.store, s.calls[a].slot, s.calls[b].slot);
  }
}
