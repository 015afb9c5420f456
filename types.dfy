/**
 * The values the agent cache stores and hands out. Certificates, private keys
 * and federated bundles are foreign crypto material; here they are opaque
 * byte strings that the cache only copies around.
 */
module CacheTypes {
  import opened Selectors

  datatype Option<T> = None | Some(value: T)

  /** An X.509 certificate, kept as its DER encoding. */
  datatype Certificate = Certificate(raw: seq<bv8>)

  /** The private key matching an SVID. */
  datatype PrivateKey = PrivateKey(raw: seq<bv8>)

  /** The part of a registration entry the cache uses: its id and its selectors. */
  datatype RegistrationEntry = RegistrationEntry(entryId: string, selectors: seq<Selector>)

  /**
   * One cache entry: the registration entry, the SVID issued for it, its key,
   * and the federated bundles by trust-domain id.
   */
  datatype Entry = Entry(
    registrationEntry: RegistrationEntry,
    svid: Certificate,
    privateKey: PrivateKey,
    bundles: map<string, seq<bv8>>)
  {
    /** The key under which the cache stores this entry. */
    function Id(): string { registrationEntry.entryId }

    /** The selectors that decide which subscribers see this entry. */
    function Selectors(): seq<Selector> { registrationEntry.selectors }
  }

  /** What a subscriber receives: its visible entries and the trust bundle. */
  datatype WorkloadUpdate = WorkloadUpdate(entries: seq<Entry>, bundle: seq<Certificate>)
}
