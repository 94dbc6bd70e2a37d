/**
 Envelope encryption with AES-256-GCM taken symbolically: a box opens under the key and
 nonce it was made with and nothing else (sections 7.1 and 7.2 of NIST SP 800-38D).
 Fresh data keys and nonces are parameters.
 */
module Envelope {
  import opened Prelude

  type Key = nat
  type Nonce = nat

  datatype Box<M> = Gcm(key: Key, nonce: Nonce, message: M)

  /** A stored wrapped key: too short to carry a nonce, or a nonce followed by a box. */
  datatype Wrapped = TooShort | Wrapped(nonce: Nonce, box: Box<Key>)

  datatype Sealed = Sealed(kekId: string, dekWrapped: Wrapped, nonce: Nonce, ciphertext: Box<string>)

  datatype CryptoError = UnknownKek(id: string) | Corrupt

  datatype Keyring = Keyring(active: string, keks: map<string, Key>)

  function Decrypt<M>(key: Key, nonce: Nonce, box: Box<M>): Option<M> {
    if box.key == key && box.nonce == nonce then Some(box.message) else None
  }

  /** A previous master under the active label takes the active one's place. */
  function NewKeyring(activeId: string, activeKey: Key, previous: Option<(string, Key)>): (ring: Keyring)
    ensures ring.active in ring.keks
  {
    var keks := map[activeId := activeKey];
    Keyring(activeId, match previous { case Some((id, key)) => keks[id := key] case None => keks })
  }

  function Wrap(ring: Keyring, dek: Key, nonce: Nonce): Wrapped
    requires ring.active in ring.keks
  {
    Wrapped(nonce, Gcm(ring.keks[ring.active], nonce, dek))
  }

  function Unwrap(ring: Keyring, kekId: string, w: Wrapped): Result<Key, CryptoError> {
    if w.TooShort? then Failure(Corrupt)
    else if kekId !in ring.keks then Failure(UnknownKek(kekId))
    else
      match Decrypt(ring.keks[kekId], w.nonce, w.box)
      case Some(dek) => Success(dek)
      case None => Failure(Corrupt)
  }

  function Seal(ring: Keyring, value: string, dek: Key, nonce: Nonce, wrapNonce: Nonce): Sealed
    requires ring.active in ring.keks
  {
    Sealed(ring.active, Wrap(ring, dek, wrapNonce), nonce, Gcm(dek, nonce, value))
  }

  function Open(ring: Keyring, s: Sealed): Result<string, CryptoError> {
    match Unwrap(ring, s.kekId, s.dekWrapped)
    case Failure(e) => Failure(e)
    case Success(dek) =>
      match Decrypt(dek, s.nonce, s.ciphertext)
      case Some(value) => Success(value)
      case None => Failure(Corrupt)
  }

  function Rewrap(ring: Keyring, s: Sealed, wrapNonce: Nonce): Result<Sealed, CryptoError>
    requires ring.active in ring.keks
  {
    match Unwrap(ring, s.kekId, s.dekWrapped)
    case Failure(e) => Failure(e)
    case Success(dek) => Success(s.(kekId := ring.active, dekWrapped := Wrap(ring, dek, wrapNonce)))
  }

  /** A row some keyring made for this value, with `master` around its data key. */
  predicate Genuine(s: Sealed, master: Key, value: string) {
    && s.dekWrapped.Wrapped?
    && s.dekWrapped.box.key == master
    && s.dekWrapped.box.nonce == s.dekWrapped.nonce
    && s.ciphertext == Gcm(s.dekWrapped.box.message, s.nonce, value)
  }

  /** What is sealed opens, and a genuine row opens for a keyring exactly when its label names the
      master that wrapped it. */
  lemma OpensExactlyForItsMaster(ring: Keyring, s: Sealed, master: Key, value: string)
    requires Genuine(s, master, value)
    ensures Open(ring, s) == Success(value) <==> s.kekId in ring.keks && ring.keks[s.kekId] == master
    ensures Open(ring, s).Failure? ==>
              Open(ring, s).error == if s.kekId in ring.keks then Corrupt else UnknownKek(s.kekId)
  {
  }

  lemma SealIsGenuine(ring: Keyring, value: string, dek: Key, nonce: Nonce, wrapNonce: Nonce)
    requires ring.active in ring.keks
    ensures Genuine(Seal(ring, value, dek, nonce, wrapNonce), ring.keks[ring.active], value)
    ensures Open(ring, Seal(ring, value, dek, nonce, wrapNonce)) == Success(value)
    ensures var s := Seal(ring, value, dek, nonce, wrapNonce);
            && s.kekId == ring.active && s.nonce == nonce
            && s.dekWrapped.nonce == wrapNonce && s.dekWrapped.box.message == dek
  {
  }

  /** Rotation: a re-wrap succeeds exactly when the old master is held, leaves the ciphertext alone,
      and from then on only the new master matters. */
  lemma RewrapMovesMaster(ring: Keyring, s: Sealed, master: Key, value: string, wrapNonce: Nonce)
    requires ring.active in ring.keks && Genuine(s, master, value)
    ensures Rewrap(ring, s, wrapNonce).Success? <==> s.kekId in ring.keks && ring.keks[s.kekId] == master
    ensures Rewrap(ring, s, wrapNonce).Success? ==>
              var s' := Rewrap(ring, s, wrapNonce).value;
              && Genuine(s', ring.keks[ring.active], value) && s'.kekId == ring.active
              && s'.nonce == s.nonce && s'.ciphertext == s.ciphertext
              && s'.dekWrapped.nonce == wrapNonce && s'.dekWrapped.box.message == s.dekWrapped.box.message
  {
  }

  /**
   A whole rotation from one master to the next: the overlapping keyring re-wraps the row, and a
   process that holds only the new master opens it, exactly when the new master has a label of
   its own (or is the old key); under a reused label the overlap keeps wrapping with the old one.
   */
  lemma RotationCompletesExactly(oldId: string, oldKey: Key, newId: string, newKey: Key, value: string,
                                 dek: Key, nonce: Nonce, wrap1: Nonce, wrap2: Nonce)
    ensures var row := Seal(NewKeyring(oldId, oldKey, None), value, dek, nonce, wrap1);
            var moved := Rewrap(NewKeyring(newId, newKey, Some((oldId, oldKey))), row, wrap2);
            && moved.Success? && moved.value.ciphertext == row.ciphertext
            && (Open(NewKeyring(newId, newKey, None), moved.value) == Success(value) <==>
                  oldId != newId || oldKey == newKey)
  {
    var row := Seal(NewKeyring(oldId, oldKey, None), value, dek, nonce, wrap1);
    var overlap := NewKeyring(newId, newKey, Some((oldId, oldKey)));
    RewrapMovesMaster(overlap, row, oldKey, value, wrap2);
    var moved := Rewrap(overlap, row, wrap2).value;
    OpensExactlyForItsMaster(NewKeyring(newId, newKey, None), moved, overlap.keks[newId], value);
  }
}
