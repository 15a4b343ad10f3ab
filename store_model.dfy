/** The in-memory secret store as a value: its three pieces of state and each of its
    operations as a transition on that value. The class `InMemoryStore.InMemoryStorage`
    is proved to perform exactly these transitions. */
module StoreModel {
  import opened Types

  /** The logical content of the store: one key per application, at most one
      attestation certificate, and one replay counter per application. */
  datatype StoreState = StoreState(
    applicationKeys: map<ApplicationParameter, ApplicationKey>,
    attestationCertificate: Option<AttestationCertificate>,
    counters: map<ApplicationParameter, Counter>)

  /** A newly created store holds nothing. */
  const EMPTY_STORE: StoreState := StoreState(map[], None, map[])

  /** The two maps agree on every application other than `application`. */
  ghost predicate AgreeOutside<V>(m: map<ApplicationParameter, V>, m': map<ApplicationParameter, V>,
                                  application: ApplicationParameter)
  {
    forall a :: a != application ==> (a in m <==> a in m') && (a in m ==> m[a] == m'[a])
  }

  /** `+= 1` on an unsigned 32-bit counter, wrapping at the top. */
  function WrappingIncrement(c: Counter): (next: Counter)
    ensures c < COUNTER_MAX ==> next == c + 1
    ensures c == COUNTER_MAX ==> next == 0
  {
    (c + 1) % COUNTER_MODULUS
  }

  /** Stores `key` under its own application, replacing whatever was there; nothing
      else changes. */
  function AddApplicationKey(s: StoreState, key: ApplicationKey): (s': StoreState)
    ensures key.application in s'.applicationKeys && s'.applicationKeys[key.application] == key
    ensures s'.applicationKeys.Keys == s.applicationKeys.Keys + {key.application}
    ensures AgreeOutside(s.applicationKeys, s'.applicationKeys, key.application)
    ensures s'.counters == s.counters && s'.attestationCertificate == s.attestationCertificate
  {
    s.(applicationKeys := s.applicationKeys[key.application := key])
  }

  /** Reads the certificate slot: a certificate exactly when one was stored. */
  function GetAttestationCertificate(s: StoreState): (slot: Option<AttestationCertificate>)
    ensures slot == s.attestationCertificate
  {
    s.attestationCertificate
  }

  /** Fills the certificate slot; keys and counters are left alone. */
  function SetAttestationCertificate(s: StoreState, certificate: AttestationCertificate): (s': StoreState)
    ensures GetAttestationCertificate(s') == Some(certificate)
    ensures s'.applicationKeys == s.applicationKeys && s'.counters == s.counters
  {
    s.(attestationCertificate := Some(certificate))
  }

  /** Returns the application's counter and advances it. An application never seen
      before gets the counter 0 stored and 0 returned, so its next call returns 0
      again. Other applications' counters, the keys and the certificate slot are
      untouched. */
  function GetThenIncrementCounter(s: StoreState, application: ApplicationParameter): (out: (StoreState, Counter))
    ensures application in out.0.counters
    ensures application !in s.counters ==> out.1 == 0 && out.0.counters[application] == 0
    ensures application in s.counters ==>
              out.1 == s.counters[application] && out.0.counters[application] == WrappingIncrement(out.1)
    ensures AgreeOutside(s.counters, out.0.counters, application)
    ensures out.0.applicationKeys == s.applicationKeys
    ensures out.0.attestationCertificate == s.attestationCertificate
  {
    if application in s.counters then
      var value := s.counters[application];
      (s.(counters := s.counters[application := WrappingIncrement(value)]), value)
    else
      (s.(counters := s.counters[application := 0]), 0)
  }

  /** Looks a key up by application only: the handle takes no part in the lookup. */
  function RetrieveApplicationKey(s: StoreState, application: ApplicationParameter, handle: KeyHandle): (found: Option<ApplicationKey>)
    ensures found.Some? <==> application in s.applicationKeys
    ensures found.Some? ==> found.value == s.applicationKeys[application]
  {
    if application in s.applicationKeys then Some(s.applicationKeys[application]) else None
  }

  /** Whatever handle is presented, the lookup answers the same. */
  lemma RetrieveIgnoresHandle(s: StoreState, application: ApplicationParameter, h: KeyHandle, h': KeyHandle)
    ensures RetrieveApplicationKey(s, application, h) == RetrieveApplicationKey(s, application, h')
  {
  }

  /** After a key is added, every handle resolves to it under its application, and
      every other application resolves as before. */
  lemma RetrieveAfterAdd(s: StoreState, key: ApplicationKey, application: ApplicationParameter, handle: KeyHandle)
    ensures application == key.application ==>
              RetrieveApplicationKey(AddApplicationKey(s, key), application, handle) == Some(key)
    ensures application != key.application ==>
              RetrieveApplicationKey(AddApplicationKey(s, key), application, handle) ==
              RetrieveApplicationKey(s, application, handle)
  {
  }

  /** Applies `n` successive counter reads for one application and collects the
      values returned. */
  function CounterReadings(s: StoreState, application: ApplicationParameter, n: nat): (out: (StoreState, seq<Counter>))
    decreases n
  {
    if n == 0 then (s, [])
    else
      var (s1, c) := GetThenIncrementCounter(s, application);
      var (s2, rest) := CounterReadings(s1, application, n - 1);
      (s2, [c] + rest)
  }

  /** From a stored counter value `c`, `n` reads return c, c+1, ..., c+n-1 and leave
      c+n stored, as long as no read wraps around. */
  lemma {:induction false} CounterReadingsFrom(s: StoreState, application: ApplicationParameter, n: nat)
    requires application in s.counters
    requires s.counters[application] + n <= COUNTER_MAX
    ensures var (s', values) := CounterReadings(s, application, n);
            && |values| == n
            && (forall i :: 0 <= i < n ==> values[i] == s.counters[application] + i)
            && application in s'.counters
            && s'.counters[application] == s.counters[application] + n
    decreases n
  {
    if n > 0 {
      var (s1, c) := GetThenIncrementCounter(s, application);
      CounterReadingsFrom(s1, application, n - 1);
    }
  }

  /** The counter sequence of an application never seen before is 0, 0, 1, 2, ...:
      the first read stores 0 rather than 1, so the value 0 is handed out twice. */
  lemma {:induction false} CounterReadingsFresh(s: StoreState, application: ApplicationParameter, n: nat)
    requires application !in s.counters
    requires 0 < n <= COUNTER_MAX + 1
    ensures var (s', values) := CounterReadings(s, application, n);
            && |values| == n
            && values[0] == 0
            && (forall i :: 1 <= i < n ==> values[i] == i - 1)
  {
    var (s1, c) := GetThenIncrementCounter(s, application);
    CounterReadingsFrom(s1, application, n - 1);
  }
}
