/** Applications, deployments and the names built from them (internal/types/app.go): container,
    image and network names, proxy addresses, and file-system paths. */
module Types {
  import opened Wrappers
  import opened Text
  import opened Uuids

  const SarabiDataPath: string := "/var/sarabi/data"

  /** Instance types are free-form strings in the source; these are the four it names. */
  type InstanceType = string
  const InstanceTypeFrontend: InstanceType := "frontend"
  const InstanceTypeBackend: InstanceType := "backend"
  const InstanceTypeProxy: InstanceType := "proxy"
  const InstanceTypeDatabase: InstanceType := "database"

  const DeploymentStatusActive: string := "ACTIVE"
  const DeploymentStatusCreated: string := "CREATED"
  const DeploymentStatusStopped: string := "STOPPED"

  const StorageEnginePostgres: string := "postgres"
  const StorageEngineMysql: string := "mysql"
  const StorageEngineMongo: string := "mongo"
  const StorageEngineRedis: string := "redis"

  datatype Application = Application(id: Uuid, name: string, domain: string, storageEngines: seq<string>)

  datatype Deployment = Deployment(
    id: Uuid,
    applicationId: Uuid,
    environment: string,
    status: string,
    instances: int,
    port: string,
    instanceType: InstanceType,
    identifier: string,
    application: Application)

  /** `strings.ReplaceAll(u.String(), "-", "")`: the 32 hexadecimal digits of the id. */
  function Dashless(u: Uuid): (s: string)
    ensures s == Hex(u)
    ensures |s| == 32 && AllHex(s) && '-' !in s && ':' !in s
  {
    DashlessUuidString(u);
    RemoveChar(UuidString(u), '-')
  }

  /** `ImageName`: dashless deployment id, ':', environment. */
  function ImageName(d: Deployment): (name: string)
    ensures Cut(name, ':') == Some((Hex(d.id), d.environment))
  {
    CutJoin(Dashless(d.id), ':', d.environment);
    Dashless(d.id) + ":" + d.environment
  }

  /** `NetworkName`: "network-", dashless application id, '-', environment. */
  function NetworkName(d: Deployment): (name: string)
    ensures |name| == 41 + |d.environment|
    ensures name[..8] == "network-" && name[8..40] == Hex(d.applicationId)
    ensures name[40] == '-' && name[41..] == d.environment
  {
    "network-" + Dashless(d.applicationId) + "-" + d.environment
  }

  /** A network name determines the application and the environment it was built from. */
  lemma NetworkNameInjective(d: Deployment, e: Deployment)
    requires NetworkName(d) == NetworkName(e)
    ensures d.applicationId == e.applicationId && d.environment == e.environment
  {
    HexInjective(d.applicationId, e.applicationId);
  }

  /** `ContainerName`: dashless deployment id, '-', environment, '-', the instance index in decimal. */
  function ContainerName(d: Deployment, instanceId: int): (name: string)
    ensures ':' in d.environment || ':' !in name
  {
    Dashless(d.id) + "-" + d.environment + "-" + IntToString(instanceId)
  }

  /** For one deployment, different instance indexes give different container names. */
  lemma ContainerNameInjective(d: Deployment, i: int, j: int)
    requires ContainerName(d, i) == ContainerName(d, j)
    ensures i == j
  {
    var prefix := Dashless(d.id) + "-" + d.environment + "-";
    assert ContainerName(d, i) == prefix + IntToString(i);
    assert ContainerName(d, j) == prefix + IntToString(j);
    assert IntToString(i) == ContainerName(d, i)[|prefix|..];
    assert IntToString(j) == ContainerName(d, j)[|prefix|..];
    IntToStringInjective(i, j);
  }

  /** `AccessURL`: instance type, '-', environment, '.', application domain. */
  function AccessURL(d: Deployment, instanceType: InstanceType): string
  {
    instanceType + "-" + d.environment + "." + d.application.domain
  }

  /** A dash-free instance type is recovered from the host by cutting at the first '-'. */
  lemma AccessURLParts(d: Deployment, instanceType: InstanceType)
    requires '-' !in instanceType
    ensures Cut(AccessURL(d, instanceType), '-') == Some((instanceType, d.environment + "." + d.application.domain))
  {
    assert AccessURL(d, instanceType) == instanceType + ['-'] + (d.environment + "." + d.application.domain);
    CutJoin(instanceType, '-', d.environment + "." + d.application.domain);
  }

  /** Instance types without dashes, such as the four named ones, get distinct public hosts. */
  lemma AccessURLSeparatesTypes(d: Deployment, s: InstanceType, t: InstanceType)
    requires '-' !in s && '-' !in t && s != t
    ensures AccessURL(d, s) != AccessURL(d, t)
  {
    AccessURLParts(d, s);
    AccessURLParts(d, t);
  }

  /** `InternalAccessURL`: the container name, ':', the deployment's port. */
  function InternalAccessURL(d: Deployment, instanceId: int): string
  {
    ContainerName(d, instanceId) + ":" + d.port
  }

  /** With a colon-free environment the address splits back into container name and port. */
  lemma InternalAccessURLParts(d: Deployment, instanceId: int)
    requires ':' !in d.environment
    ensures Cut(InternalAccessURL(d, instanceId), ':') == Some((ContainerName(d, instanceId), d.port))
  {
    CutJoin(ContainerName(d, instanceId), ':', d.port);
  }

  /** Each instance of a deployment is dialled at its own address. */
  lemma InternalAccessURLInjective(d: Deployment, i: int, j: int)
    requires ':' !in d.environment
    requires InternalAccessURL(d, i) == InternalAccessURL(d, j)
    ensures i == j
  {
    InternalAccessURLParts(d, i);
    InternalAccessURLParts(d, j);
    ContainerNameInjective(d, i, j);
  }

  /** `SiteContentPath`: where the proxy serves a frontend deployment's files from. */
  function SiteContentPath(d: Deployment): (path: string)
    ensures HasPrefix(path, "/var/caddy/share/") && path[17..] == Hex(d.id)
  {
    "/var/caddy/share/" + Dashless(d.id)
  }

  lemma SiteContentPathInjective(d: Deployment, e: Deployment)
    requires SiteContentPath(d) == SiteContentPath(e)
    ensures d.id == e.id
  {
    HexInjective(d.id, e.id);
  }

  /** `BinPath`: the uploaded bundle's path, with both ids in their dashed form. */
  function BinPath(d: Deployment): (path: string)
    ensures |path| == 22 + 36 + 13 + 36 + 7
    ensures path[22..58] == UuidString(d.applicationId) && path[71..107] == UuidString(d.id)
  {
    var front := SarabiDataPath + "/bins/" + UuidString(d.applicationId) + "/deployments/";
    MiddleOfJoin(SarabiDataPath + "/bins/", UuidString(d.applicationId), "/deployments/" + UuidString(d.id) + ".tar.gz");
    MiddleOfJoin(front, UuidString(d.id), ".tar.gz");
    front + UuidString(d.id) + ".tar.gz"
  }

  /** The middle piece of a three-part join starts at the first piece's length. */
  lemma MiddleOfJoin(a: string, b: string, c: string)
    ensures (a + b + c)[|a|..|a| + |b|] == b
  {
  }

  /** Two deployments share a bundle path only if they share both ids. */
  lemma BinPathInjective(d: Deployment, e: Deployment)
    requires BinPath(d) == BinPath(e)
    ensures d.applicationId == e.applicationId && d.id == e.id
  {
    UuidStringInjective(d.applicationId, e.applicationId);
    UuidStringInjective(d.id, e.id);
  }

  /** `LogFilename`: application name, instance type and environment joined by '-', then ".log". */
  function LogFilename(d: Deployment): string
  {
    d.application.name + "-" + d.instanceType + "-" + d.environment + ".log"
  }

  /** With dash-free parts the file name splits back into them. */
  lemma LogFilenameParts(d: Deployment)
    requires '-' !in d.application.name && '-' !in d.instanceType && '-' !in d.environment
    ensures Split(LogFilename(d), '-') == [d.application.name, d.instanceType, d.environment + ".log"]
  {
    assert LogFilename(d) == d.application.name + ['-'] + d.instanceType + ['-'] + (d.environment + ".log");
    SplitThree(d.application.name, d.instanceType, d.environment + ".log", '-');
  }

  /** A database provider's `ContainerName`: engine, '-', application name, '-', environment
      (internal/components/database/providers/postgres/postgres.go and its siblings). */
  function DatabaseContainerName(engine: string, d: Deployment): string
  {
    engine + "-" + d.application.name + "-" + d.environment
  }

  lemma DatabaseContainerNameParts(engine: string, d: Deployment)
    requires '-' !in engine && '-' !in d.application.name && '-' !in d.environment
    ensures Split(DatabaseContainerName(engine, d), '-') == [engine, d.application.name, d.environment]
  {
    SplitThree(engine, d.application.name, d.environment, '-');
  }
}
