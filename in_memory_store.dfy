/** The reference secret store: two hash maps and an optional certificate, updated in
    place. Each mutating method is proved to perform the matching transition of
    `StoreModel`; the read-only operations are the functions of `StoreModel` applied to
    `State()`. None of these operations can fail. */
module InMemoryStore {
  import opened Types
  import M = StoreModel

  class InMemoryStorage {
    var applicationKeys: map<ApplicationParameter, ApplicationKey>
    var attestationCertificate: Option<AttestationCertificate>
    var counters: map<ApplicationParameter, Counter>

    /** The store's logical content. */
    function State(): M.StoreState
      reads this
    {
      M.StoreState(applicationKeys, attestationCertificate, counters)
    }

    /** A store with no keys, no counters and an empty certificate slot. */
    constructor ()
      ensures State() == M.EMPTY_STORE
    {
      applicationKeys := map[];
      attestationCertificate := None;
      counters := map[];
    }

    /** Upserts the key under its application. */
    method AddApplicationKey(key: ApplicationKey)
      modifies this
      ensures State() == M.AddApplicationKey(old(State()), key)
    {
      applicationKeys := applicationKeys[key.application := key];
    }

    /** Overwrites the certificate slot. */
    method SetAttestationCertificate(certificate: AttestationCertificate)
      modifies this
      ensures State() == M.SetAttestationCertificate(old(State()), certificate)
    {
      attestationCertificate := Some(certificate);
    }

    /** Returns the application's counter and bumps the stored value in place; an
        unseen application gets 0 stored and 0 returned. */
    method GetThenIncrementCounter(application: ApplicationParameter) returns (counter: Counter)
      modifies this
      ensures (State(), counter) == M.GetThenIncrementCounter(old(State()), application)
      ensures old(application in counters) ==> counter == old(counters[application])
      ensures !old(application in counters) ==> counter == 0
    {
      if application in counters {
        counter := counters[application];
        counters := counters[application := M.WrappingIncrement(counter)];
        return;
      }
      var initialCounter: Counter := 0;
      counters := counters[application := initialCounter];
      counter := initialCounter;
    }
  }
}
