/** Parsers and encoders taken from libraries: YAML for payloads, JSON for the state file. */
module Codecs {
  import opened Wrappers

  type Bytes = seq<bv8>

  /** None is a failure. */
  datatype Codec<!V> = Codec(decode: Bytes -> Option<V>, encode: V -> Option<Bytes>)

  /** An encoded value decodes to itself. */
  ghost predicate RoundTrips<V(!new)>(c: Codec<V>) {
    forall v :: c.encode(v).Some? ==> c.decode(c.encode(v).value) == Some(v)
  }
}
