/**
  Sequence-store keys (crates/client/src/sequence.rs): `identity:scope` texts, the reserved
  publisher scopes, and the observations that may be recorded under a key.
*/
module SequenceKeys {
  import opened Base
  import opened Text

  const PUBLISHER_PREFIX: string := "v1:publisher:"
  const LOCATOR_PREFIX: string := "v1:locator:"
  const MAX_SCOPE_BYTES: int := 128

  predicate ScopeChar(c: char) {
    'a' <= c <= 'z' || 'A' <= c <= 'Z' || '0' <= c <= '9' || c == '-' || c == '_' || c == ':'
  }

  predicate ValidScope(scope: string) {
    0 < |scope| <= MAX_SCOPE_BYTES && forall i :: 0 <= i < |scope| ==> ScopeChar(scope[i])
  }

  predicate Reserved(scope: string) {
    PUBLISHER_PREFIX <= scope
  }

  /** `state_key`. */
  function StateKey(identity: string, scope: string): Option<string> {
    if CanonicalKey(identity) && ValidScope(scope) then Some(identity + ":" + scope) else None
  }

  /** `publisher_key`. */
  function PublisherKey(identity: string, control: string): Option<string> {
    if CanonicalKey(control) then StateKey(identity, PUBLISHER_PREFIX + control) else None
  }

  /** `valid_publisher_scope`. */
  predicate ValidPublisherScope(scope: string) {
    PUBLISHER_PREFIX <= scope && CanonicalKey(scope[|PUBLISHER_PREFIX|..])
  }

  /** A state key is taken apart again by `split_once`. */
  lemma StateKeySplits(identity: string, scope: string)
    requires StateKey(identity, scope).Some?
    ensures SplitOnce(StateKey(identity, scope).value, ':') == Some(Split(identity, scope))
  {
    assert ':' !in Z32_ALPHABET;
    assert forall i :: 0 <= i < |identity| ==> identity[i] in Z32_ALPHABET;
    SplitOnceJoin(identity, ':', scope);
  }

  /** Two different (identity, scope) pairs never share a key. */
  lemma StateKeyInjective(identity: string, scope: string, identity': string, scope': string)
    requires StateKey(identity, scope).Some?
    requires StateKey(identity, scope) == StateKey(identity', scope')
    ensures identity == identity' && scope == scope'
  {
    StateKeySplits(identity, scope);
    StateKeySplits(identity', scope');
  }

  /** Publisher counters and authenticated floors never share a key. */
  lemma PublisherKeysApart(identity: string, control: string, identity': string, scope: string)
    requires PublisherKey(identity, control).Some?
    requires StateKey(identity', scope).Some? && !Reserved(scope)
    ensures PublisherKey(identity, control) != StateKey(identity', scope)
  {
    if PublisherKey(identity, control) == StateKey(identity', scope) {
      StateKeyInjective(identity, PUBLISHER_PREFIX + control, identity', scope);
    }
  }

  /** Counters of different control keys never share a key either. */
  lemma PublisherKeyInjective(identity: string, control: string, identity': string, control': string)
    requires PublisherKey(identity, control).Some?
    requires PublisherKey(identity, control) == PublisherKey(identity', control')
    ensures identity == identity' && control == control'
  {
    StateKeyInjective(identity, PUBLISHER_PREFIX + control, identity', PUBLISHER_PREFIX + control');
    assert control == (PUBLISHER_PREFIX + control)[|PUBLISHER_PREFIX|..];
    assert control' == (PUBLISHER_PREFIX + control')[|PUBLISHER_PREFIX|..];
  }

  lemma KeyCharIsScopeChar(x: char)
    requires x in Z32_ALPHABET
    ensures ScopeChar(x)
  {
  }

  lemma PrefixesValid()
    ensures ValidScope(PUBLISHER_PREFIX) && ValidScope(LOCATOR_PREFIX)
  {
  }

  /** A scope prefix in front of a key is a scope. */
  lemma PrefixedKeyIsScope(prefix: string, key: string)
    requires ValidScope(prefix) && |prefix| + 52 <= MAX_SCOPE_BYTES && CanonicalKey(key)
    ensures ValidScope(prefix + key)
  {
    hide ScopeChar;
    forall i | 0 <= i < |prefix + key| ensures ScopeChar((prefix + key)[i]) {
      if i >= |prefix| {
        assert key[i - |prefix|] in Z32_ALPHABET;
        KeyCharIsScopeChar(key[i - |prefix|]);
      }
    }
  }
}
