/** The parts of Go's `crypto/tls` and `crypto/x509` values that the gossip transport
    and its configuration loader fill in or pass around. Certificates and certificate
    pools are opaque: only where they came from is recorded. */
module Tls {
  import opened Base

  /** `tls.ClientAuthType`; the zero value of a `tls.Config` is NoClientCert. */
  datatype ClientAuthType =
    | NoClientCert
    | RequestClientCert
    | RequireAnyClientCert
    | VerifyClientCertIfGiven
    | RequireAndVerifyClientCert

  /** A loaded X.509 key pair, carried as the certificate bytes the loader returned. */
  datatype Certificate = Certificate(chain: seq<uint8>)

  /** An `x509.CertPool` built with `AppendCertsFromPEM` from the given file contents. */
  datatype CertPool = CertPool(pem: seq<uint8>)

  /** What a `GetCertificate` callback does on every handshake: load the key pair from
      these two files again. */
  datatype CertificateSource = KeyPairFiles(certPath: string, keyPath: string)

  /** The fields of a `tls.Config` that this model sets; a nil callback or pool is None. */
  datatype Config = Config(
    getCertificate: Option<CertificateSource>,
    insecureSkipVerify: bool,
    clientCAs: Option<CertPool>,
    clientAuth: ClientAuthType)

  /** `&tls.Config{}`: every field at its zero value. */
  const EmptyConfig: Config := Config(None, false, None, NoClientCert)
}
