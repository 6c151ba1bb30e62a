/** Loading of the gossip TLS configuration: the YAML `tlsConfig` section is checked
    in a fixed order (certificate path, key path, key pair loads, client CA file
    reads, ClientAuth names a policy, client CAs come with a policy that asks for
    client certificates) and turned into a `tls.Config`. File access and key-pair
    loading are supplied by an Environment. */
module GossipConfig {
  import opened Base
  import opened Tls

  /** `TLSStruct`, the `tlsConfig` section of the file. */
  datatype TlsStruct = TlsStruct(
    tlsCertPath: string,
    tlsKeyPath: string,
    clientAuth: string,
    clientCAs: string,
    insecureSkipVerify: bool)

  /** `TLSGossipConfig`, the whole file. */
  datatype TlsGossipConfig = TlsGossipConfig(tlsConfig: TlsStruct)

  /** The file system and `tls.LoadX509KeyPair`, as seen by the loader. */
  datatype Environment = Environment(
    readFile: string -> Result<seq<uint8>>,
    loadX509KeyPair: (string, string) -> Result<Certificate>)

  /** The spelling of each policy in the configuration file. */
  function ClientAuthName(p: ClientAuthType): string {
    match p
    case NoClientCert => "NoClientCert"
    case RequestClientCert => "RequestClientCert"
    case RequireAnyClientCert => "RequireClientCert"
    case VerifyClientCertIfGiven => "VerifyClientCertIfGiven"
    case RequireAndVerifyClientCert => "RequireAndVerifyClientCert"
  }

  /** The `switch` on `ClientAuth`. */
  function ParseClientAuth(s: string): (r: Result<ClientAuthType>)
    ensures r.Ok? ==> s == "" || s == ClientAuthName(r.value)
    ensures s == "" ==> r == Ok(NoClientCert)
    ensures r.Err? ==> r.error == "Invalid ClientAuth: " + s
  {
    if s == "NoClientCert" then Ok(NoClientCert)
    else if s == "RequestClientCert" then Ok(RequestClientCert)
    else if s == "RequireClientCert" then Ok(RequireAnyClientCert)
    else if s == "VerifyClientCertIfGiven" then Ok(VerifyClientCertIfGiven)
    else if s == "RequireAndVerifyClientCert" then Ok(RequireAndVerifyClientCert)
    else if s == "" then Ok(NoClientCert)
    else Err("Invalid ClientAuth: " + s)
  }

  /** Every policy's spelling parses back to it. */
  lemma ParseClientAuthName(p: ClientAuthType)
    ensures ParseClientAuth(ClientAuthName(p)) == Ok(p)
  {
  }

  /** The only strings accepted are the five spellings and the empty string (which
      means NoClientCert); every other string is rejected with its own text. */
  lemma ParseClientAuthAccepts(s: string)
    ensures ParseClientAuth(s).Err? <==> s != "" && forall p: ClientAuthType :: s != ClientAuthName(p)
  {
  }

  /** `loadCert`. */
  function LoadCert(c: TlsStruct, env: Environment): (r: Result<Certificate>)
    ensures r.Ok? <==> env.loadX509KeyPair(c.tlsCertPath, c.tlsKeyPath).Ok?
    ensures r.Ok? ==> r.value == env.loadX509KeyPair(c.tlsCertPath, c.tlsKeyPath).value
    ensures r.Err? ==> r.error == Wrap(env.loadX509KeyPair(c.tlsCertPath, c.tlsKeyPath).error, "failed to load X509KeyPair")
  {
    match env.loadX509KeyPair(c.tlsCertPath, c.tlsKeyPath)
    case Err(e) => Err(Wrap(e, "failed to load X509KeyPair"))
    case Ok(cert) => Ok(cert)
  }

  /** The policy the configuration ends with: the zero value when ClientAuth is empty. */
  function Policy(c: TlsStruct): Result<ClientAuthType> {
    if |c.clientAuth| > 0 then ParseClientAuth(c.clientAuth) else Ok(NoClientCert)
  }

  /** Independent statement of when the configuration is accepted. */
  predicate Acceptable(c: TlsStruct, env: Environment) {
    && c.tlsCertPath != ""
    && c.tlsKeyPath != ""
    && env.loadX509KeyPair(c.tlsCertPath, c.tlsKeyPath).Ok?
    && (c.clientCAs != "" ==> env.readFile(c.clientCAs).Ok?)
    && (c.clientAuth == "" || exists p: ClientAuthType :: c.clientAuth == ClientAuthName(p))
    && (c.clientCAs != "" ==> c.clientAuth != "" && c.clientAuth != "NoClientCert")
  }

  /** `configToTLSConfig`. */
  function ConfigToTlsConfig(c: TlsStruct, env: Environment): (r: Result<Config>)
    ensures r.Ok? <==> Acceptable(c, env)
    ensures r.Ok? ==>
              && r.value.getCertificate == Some(KeyPairFiles(c.tlsCertPath, c.tlsKeyPath))
              && r.value.insecureSkipVerify == c.insecureSkipVerify
              && r.value.clientAuth == Policy(c).value
              && (r.value.clientCAs.Some? <==> c.clientCAs != "")
              && (c.clientCAs != "" ==> r.value.clientCAs == Some(CertPool(env.readFile(c.clientCAs).value)))
              && (c.clientCAs != "" ==> r.value.clientAuth != NoClientCert)
  {
    ParseClientAuthAccepts(c.clientAuth);
    if |c.tlsCertPath| == 0 then Err("missing TLSCertPath")
    else if |c.tlsKeyPath| == 0 then Err("missing TLSKeyPath")
    else
      match LoadCert(c, env)
      case Err(e) => Err(e)
      case Ok(_) =>
        var cfg := EmptyConfig.(
          getCertificate := Some(KeyPairFiles(c.tlsCertPath, c.tlsKeyPath)),
          insecureSkipVerify := c.insecureSkipVerify);
        var withCAs :=
          if |c.clientCAs| > 0 then
            match env.readFile(c.clientCAs)
            case Err(e) => Err(e)
            case Ok(pem) => Ok(cfg.(clientCAs := Some(CertPool(pem))))
          else Ok(cfg);
        match withCAs
        case Err(e) => Err(e)
        case Ok(cfg) =>
          match Policy(c)
          case Err(e) => Err(e)
          case Ok(policy) =>
            if |c.clientCAs| > 0 && policy == NoClientCert then
              Err("Client CA's have been configured without a Client Auth Policy")
            else Ok(cfg.(clientAuth := policy))
  }

  /** The checks run in source order: each failure is reported only when every earlier
      check has passed, and then with its own message. */
  lemma ErrorOrder(c: TlsStruct, env: Environment)
    ensures c.tlsCertPath == "" ==> ConfigToTlsConfig(c, env) == Err("missing TLSCertPath")
    ensures c.tlsCertPath != "" && c.tlsKeyPath == "" ==> ConfigToTlsConfig(c, env) == Err("missing TLSKeyPath")
    ensures c.tlsCertPath != "" && c.tlsKeyPath != "" && env.loadX509KeyPair(c.tlsCertPath, c.tlsKeyPath).Err? ==>
              ConfigToTlsConfig(c, env)
              == Err(Wrap(env.loadX509KeyPair(c.tlsCertPath, c.tlsKeyPath).error, "failed to load X509KeyPair"))
    ensures && c.tlsCertPath != "" && c.tlsKeyPath != "" && env.loadX509KeyPair(c.tlsCertPath, c.tlsKeyPath).Ok?
            && c.clientCAs != "" && env.readFile(c.clientCAs).Err? ==>
              ConfigToTlsConfig(c, env) == Err(env.readFile(c.clientCAs).error)
    ensures && c.tlsCertPath != "" && c.tlsKeyPath != "" && env.loadX509KeyPair(c.tlsCertPath, c.tlsKeyPath).Ok?
            && (c.clientCAs != "" ==> env.readFile(c.clientCAs).Ok?) && Policy(c).Err? ==>
              ConfigToTlsConfig(c, env) == Err("Invalid ClientAuth: " + c.clientAuth)
    ensures && c.tlsCertPath != "" && c.tlsKeyPath != "" && env.loadX509KeyPair(c.tlsCertPath, c.tlsKeyPath).Ok?
            && c.clientCAs != "" && env.readFile(c.clientCAs).Ok? && Policy(c) == Ok(NoClientCert) ==>
              ConfigToTlsConfig(c, env) == Err("Client CA's have been configured without a Client Auth Policy")
  {
  }

  /** A missing path or a key pair that does not load is reported the same way
      whatever the ClientAuth, ClientCAs and InsecureSkipVerify settings are: the
      later checks are never reached. */
  lemma EarlyFailuresIgnoreLaterSettings(c: TlsStruct, c': TlsStruct, env: Environment)
    requires c'.tlsCertPath == c.tlsCertPath && c'.tlsKeyPath == c.tlsKeyPath
    requires c.tlsCertPath == "" || c.tlsKeyPath == "" || env.loadX509KeyPair(c.tlsCertPath, c.tlsKeyPath).Err?
    ensures ConfigToTlsConfig(c', env) == ConfigToTlsConfig(c, env)
    ensures ConfigToTlsConfig(c, env).Err?
  {
  }

  /** `GetTLSConfig`: read the file, parse it as YAML (by `parseYaml`), then convert its
      `tlsConfig` section; a read or parse error is returned as it is. */
  function GetTlsConfig(configPath: string, env: Environment, parseYaml: seq<uint8> -> Result<TlsGossipConfig>)
    : (r: Result<Config>)
    ensures env.readFile(configPath).Err? ==> r == Err(env.readFile(configPath).error)
    ensures env.readFile(configPath).Ok? && parseYaml(env.readFile(configPath).value).Err? ==>
              r == Err(parseYaml(env.readFile(configPath).value).error)
    ensures env.readFile(configPath).Ok? && parseYaml(env.readFile(configPath).value).Ok? ==>
              r == ConfigToTlsConfig(parseYaml(env.readFile(configPath).value).value.tlsConfig, env)
    ensures r.Ok? ==> Acceptable(parseYaml(env.readFile(configPath).value).value.tlsConfig, env)
  {
    match env.readFile(configPath)
    case Err(e) => Err(e)
    case Ok(content) =>
      match parseYaml(content)
      case Err(e) => Err(e)
      case Ok(c) => ConfigToTlsConfig(c.tlsConfig, env)
  }
}
