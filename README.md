# sarabi core rules in Dafny

sarabi is a deployment server for applications made of frontend, backend and database
deployments, with a command-line client. Under its Docker, Caddy, nftables and SQLite plumbing
sit deterministic rules, and this project states them in Dafny and proves properties of them:

- the bounded, evicting log buffer;
- the naming scheme for containers, images, networks, URLs and paths, and the parser that reads a
  container name back;
- validation of log queries;
- the manager's pure rules: merging secrets, URL normalisation, the list filters, what `Destroy`
  selects, Deploy's domain collection, application lookup, and database network access;
- the Caddy route table, held as a value that every client method reads and writes back;
- the service-layer tables (secrets and their deployment links, domains, backup settings and
  backups, applications and deployments), each repository modelled as an in-memory `seq`;
- the firewall rule chain;
- two client helpers: `KEY=value` parsing and the filter of `deployments list`.

Modules follow the source files: `Logs`, `Types`, `Misc`, `LogQuery`, `Manager`, `Caddy`, `Secrets`,
`Domains`, `Backups`, `Applications`, `Firewall`, `VarsUpdate`, `DeploymentsList`, and `HelperTest`
for the unit test of the container-name parser. Four helper modules model the pieces of Go's
standard library and dependencies that the core relies on:

- `Text`: `strings.Split`, `strings.Cut`, `strings.ReplaceAll`, `strings.ToLower` over a code-point lowering, `%d` and `strconv.Atoi`;
- `Uuids`: `uuid.UUID.String()`, `hex.EncodeToString` and `hex.DecodeString`;
- `Seqs`: the `lo.Filter` of the samber/lo library;
- `Wrappers`: `Result`, `Option` and `Outcome`.

Code that changes state in place is modelled as classes whose `seq` and `map` fields the methods
reassign: `Logs.EvictingList`, `Applications.ApplicationService`, `Secrets.SecretService`,
`Domains.DomainService`, `Backups.BackupService`, `Caddy.CaddyClient`, `Firewall.Manager` and
`Manager.Manager`. Each of these methods is proved against a specification function over the old
state. The lemmas beside it state what the source promises about that function.

Several things outside the core are parameters or abstract function values:

- identifiers from `uuid.New`;
- the encryptor;
- `net.ParseIP`, `time.Parse`, the cron parser, JSON encoding and decoding of storage
  credentials, and the backup executors;
- whether a repository lookup failed for a reason other than "not found".

## Model

| member | source | states |
|---|---|---|
| Logs.Added | internal/logs/list.go:21-29 | the new value is last; with a positive capacity a list at capacity loses exactly its oldest element, and the length never passes the capacity; otherwise every earlier element stays in order |
| Logs.AddedAllKeepsNewest | internal/logs/list.go:25-28 | adding any history to a list within a positive capacity keeps exactly the newest `capacity` elements of everything added, in order |
| Logs.AddedAllUnbounded | internal/logs/list.go:25-28 | with capacity 0 or less nothing is ever evicted |
| Logs.UnitTestScenario | internal/logs/list_test.go:10-19 | with capacity 5, adding 1..3 gives [1,2,3] and then adding 4..7 gives [3,4,5,6,7] |
| Logs.EvictingList.constructor | internal/logs/list.go:14-19 | an empty list with the given capacity, which never changes afterwards |
| Logs.EvictingList.Add | internal/logs/list.go:21-29 | the contents become `Added(old contents, capacity, value)` |
| Logs.EvictingList.Len | internal/logs/list.go:31-35 | returns the number of elements |
| Logs.EvictingList.Capacity | internal/logs/list.go:37-39 | returns the fixed capacity |
| Logs.EvictingList.PopFront | internal/logs/list.go:41-52 | reports false on an empty list and leaves it empty; otherwise returns the oldest element with true and keeps the rest in order |
| Logs.EvictingList.Values | internal/logs/list.go:54-63 | returns the elements oldest first and changes nothing |
| Logs.EvictingList.UnitTest | internal/logs/list_test.go:10-19 | the test's two scenarios, stated on the class, yield [1,2,3] and [3,4,5,6,7] |
| Types.Dashless | internal/types/app.go:177-179 | an id with its dashes removed is the 32 hexadecimal digits of its bytes, with no '-' or ':' |
| Types.ImageName | internal/types/app.go:177-179 | cutting the image name at its first ':' gives back the dashless deployment id and the environment |
| Types.NetworkName | internal/types/app.go:181-183 | "network-", then the dashless application id, '-', and the environment |
| Types.NetworkNameInjective | internal/types/app.go:181-183 | a network name determines the application and the environment |
| Types.ContainerName | internal/types/app.go:189-191 | a container name holds no ':' unless the environment does |
| Types.ContainerNameInjective | internal/types/app.go:189-191 | for one deployment, different instance indexes give different container names |
| Types.AccessURLParts | internal/types/app.go:193-195 | a dash-free instance type is recovered from the public host, followed by the environment, '.' and the domain |
| Types.AccessURLSeparatesTypes | internal/types/app.go:193-195 | distinct dash-free instance types get distinct public hosts |
| Types.InternalAccessURLParts | internal/types/app.go:197-199 | the internal address is the container name, ':', and the port |
| Types.InternalAccessURLInjective | internal/types/app.go:197-199 | each instance of a deployment has its own internal address |
| Types.SiteContentPath | internal/types/app.go:201-203 | "/var/caddy/share/" followed by the dashless deployment id |
| Types.SiteContentPathInjective | internal/types/app.go:201-203 | distinct deployments get distinct site directories |
| Types.BinPath | internal/types/app.go:205-207 | the bundle path holds both ids in dashed form at fixed positions |
| Types.BinPathInjective | internal/types/app.go:205-207 | two deployments share a bundle path only if both their ids agree |
| Types.LogFilenameParts | internal/types/app.go:209-211 | with dash-free parts the log file name splits into application name, instance type and environment plus ".log" |
| Types.DatabaseContainerNameParts | internal/components/database/providers/postgres/postgres.go:15-17 | a database container name splits into engine, application name and environment |
| Uuids.HexRoundTrip | internal/misc/helper.go:96-101 | hexadecimal decoding undoes encoding |
| Uuids.HexDecodeAccepts | internal/misc/helper.go:96-99 | decoding succeeds exactly on even-length strings of hexadecimal digits |
| Uuids.DashlessUuidString | internal/types/app.go:189-191 | removing the dashes from an id's canonical form leaves the hexadecimal digits of its 16 bytes |
| Uuids.UuidStringInjective | internal/types/app.go:205-207 | distinct ids have distinct canonical forms |
| Text.AtoiIntToString | internal/misc/helper.go:122-125 | `strconv.Atoi` reads back every 64-bit integer printed with `%d` |
| Text.SplitThree | internal/misc/helper.go:105-108 | three separator-free pieces joined by the separator split back into those three pieces |
| Text.CutJoin | client/pkg/cmd/vars/update/update.go:85 | cutting at the first separator undoes joining a separator-free prefix to any suffix |
| Text.SameLowerAsciiAll | service/application.go:93 | under any code-point lowering that agrees with `unicode.ToLower` on ASCII, two ASCII environments compare equal if and only if they have the same length and agree at every position once capital letters are lowered |
| Text.SameLowerAscii | service/application.go:93 | examples of the comparison: "Staging" and "sTAGING" are equal, "staging" and "stagin" are not, "Prod" and "prom" are not |
| Misc.StrContains | internal/misc/helper.go:18-25 | true exactly when some element equals the string |
| Misc.HexToUUID | internal/misc/helper.go:92-94 | any input whose length is not 32 is refused |
| Misc.HexToUUIDSpec | internal/misc/helper.go:91-102 | accepted exactly when the input is 32 hexadecimal digits; byte k is then the value of characters 2k and 2k+1 |
| Misc.HexToUUIDOfDashless | internal/misc/helper.go:91-102 | the dashless form of an id decodes back to the id |
| Misc.ParseContainerIdentity | internal/misc/helper.go:124-129 | a parsed identity carries the given id and a non-empty environment |
| Misc.ParseContainerIdentitySpec | internal/misc/helper.go:104-130 | the name must split into exactly three parts, with a non-empty middle, a hexadecimal id and a decimal instance; on success the parts are what is returned |
| Misc.ContainerNameRoundTrip | internal/misc/helper.go:104-130 | for a non-negative instance and a non-empty dash-free environment, parsing a container name gives back the deployment id, the environment and the instance |
| Misc.NegativeInstanceNotParsed | internal/misc/helper.go:104-130 | a container name built with a negative instance has four parts and is refused |
| HelperTest.TestIdHex | internal/misc/helper_test.go:18-25 | the test's deployment id prints as "582ef9e6ec2d452bb0816dc704cb29a3" |
| HelperTest.ContainerNameOfFirstInstance | internal/misc/helper_test.go:18-25 | the test's container name is that id followed by "-s-0" |
| HelperTest.TestCallAsWritten | internal/misc/helper_test.go:31 | the name the test passes, "parse deployment container name", fails to parse |
| HelperTest.TestCallIntended | internal/misc/helper_test.go:18-25 | the test's argument parses to the expected deployment, environment "s" and instance 0 |
| LogQuery.LineParts | internal/types/log.go:54-56 | a line is the owner, a space, then the log text, and cutting at the first space gives both back |
| LogQuery.SinceMatchesCount | internal/types/log.go:63-68 | a count followed by one character is accepted exactly when the count is positive and the character is s, m, h, d or w |
| LogQuery.SinceMatchesShape | internal/types/log.go:63-68 | every accepted `since` is a positive decimal count with no leading zero followed by a unit |
| LogQuery.ParseTimeSpec | internal/types/log.go:107-119 | a string parses when either layout accepts it, and the date-and-time layout takes precedence |
| LogQuery.Validate | internal/types/log.go:58-105 | refuses an empty environment and a malformed `since`; on success it copies the environment and `since`, and the limit is the given positive limit or 50 |
| LogQuery.ValidateSpec | internal/types/log.go:58-105 | validation succeeds exactly when the environment is set, `since` is empty or well formed, both given bounds parse, and a non-zero start is not combined with `since`; the bounds are the parsed ones |
| LogQuery.StartExcludesSince | internal/types/log.go:90-92 | a start that parses to a non-zero time together with a non-empty `since` is refused |
| Manager.KeptIsFilter | internal/manager/manager.go:931-948 | the old secrets that are kept are exactly those whose name no new key has, in order |
| Manager.MergedSpec | internal/manager/manager.go:929-950 | the merge starts with every new variable, unchanged and in order; an old secret follows exactly when no new key has its name; no kept entry repeats a new key |
| Manager.MergeSecrets | internal/manager/manager.go:929-950 | the nested loops compute the new variables followed by the kept old ones |
| Manager.ToURL | internal/manager/manager.go:976-981 | the result starts with "https" and ends with the input |
| Manager.ToURLIdempotent | internal/manager/manager.go:976-981 | normalising twice is the same as normalising once |
| Manager.ListBackupsSpec | internal/manager/manager.go:623-635 | an error passes through; an empty environment returns every backup; otherwise a backup is listed exactly when it is in that environment, in order |
| Manager.ListVariablesSpec | internal/manager/manager.go:902-923 | an error passes through; without an environment every secret is answered; otherwise exactly the secrets of that environment are |
| Manager.PlanDestroySelects | internal/manager/manager.go:653-664 | a deployment is chosen when the environment is empty or its own, and lands in the list of its instance type |
| Manager.PlanDestroyStopsInstances | internal/manager/manager.go:666-672 | every instance container of a chosen backend is stopped |
| Manager.PlanDestroyStopsDatabases | internal/manager/manager.go:712-728 | for each storage engine and each chosen environment, the database container the provider named is stopped |
| Manager.PlanDestroyDatabasesOnly | internal/manager/manager.go:712-728 | no other database container is stopped |
| Manager.CollectDomainUrls | internal/manager/manager.go:273-280 | the frontend and backend lists grow by the normalised names of the domains of that environment and type, in order |
| Manager.CollectedUrlsSpec | internal/manager/manager.go:273-280 | a URL is collected for a type exactly when some domain of that environment and type normalises to it |
| Manager.GetById | internal/manager/manager.go:127-133 | finds an application with the id, and fails exactly when there is none |
| Manager.GetByName | internal/manager/manager.go:135-139 | finds an application with the name, and fails exactly when there is none |
| Manager.GetApplication | internal/manager/manager.go:122-140 | without an id or a name it fails; an id takes precedence over a name |
| Manager.FindByIPAsWritten | internal/database/network_access.go:30-34 | the repository lookup as written returns no records, whatever the table |
| Manager.LastRecorded | internal/manager/manager.go:859-866 | finds the last record of the address and environment, and nothing exactly when none exists |
| Manager.Ports | internal/manager/manager.go:829-833 | the parsed ports, one per deployment in order, up to the first port that does not parse |
| Manager.PortsStopAtError | internal/manager/manager.go:829-833 | once a port fails to parse, later deployments are not looked at |
| Manager.PortsAllParsed | internal/manager/manager.go:829-833 | when no port fails, the parsed ports are the deployments' ports in order |
| Manager.FindByIPRecorded | internal/manager/manager.go:790 | the intended lookup by address keeps every record of that address |
| Manager.ManageRejectsBadIp | internal/manager/manager.go:786-788 | an address that does not parse is refused before any lookup, and nothing changes |
| Manager.WhitelistDuplicateFails | internal/manager/manager.go:811-815 | whitelisting an address already recorded for the environment fails and changes nothing |
| Manager.BlacklistMissingFails | internal/manager/manager.go:859-870 | blacklisting an address not recorded for the environment fails and changes nothing |
| Manager.WhitelistSucceeds | internal/manager/manager.go:805-852 | a successful whitelisting records the pair once and appends one accept rule per database deployment of the environment, on that deployment's port |
| Manager.BlacklistSucceeds | internal/manager/manager.go:854-900 | blacklisting a recorded pair whose ports all parse removes its record and every rule that mentions the address |
| Manager.WhitelistThenBlacklist | internal/manager/manager.go:785-900 | whitelisting a new pair and then blacklisting it restores the records and leaves no rule that mentions the address |
| Manager.AsWrittenBlacklistAlwaysFails | internal/database/network_access.go:30-34 | with the lookup as written, blacklisting any address fails and changes nothing |
| Manager.AsWrittenMissesRecord | internal/database/network_access.go:30-34 | a table recording 10.0.0.1 for "staging": the written lookup finds nothing, and the intended one finds the record |
| Manager.AsWrittenIdsStayNil | internal/manager/manager.go:840-846 | whitelisting with the nil id, as the record built there has no `ID`, keeps every record id nil |
| Manager.AsWrittenBlacklistDeletesAll | internal/manager/manager.go:889-895 | when every record has the nil id, blacklisting a recorded address removes every record, whatever its address |
| Manager.AsWrittenLosesOtherRecord | internal/manager/manager.go:840-846 | 10.0.0.1 and 10.0.0.2 recorded for "staging" with nil ids: blacklisting 10.0.0.1 also deletes the record of 10.0.0.2 |
| Manager.WhitelistKeepsIdsUnique | internal/manager/manager.go:840-846 | whitelisting with a fresh id keeps record ids unique |
| Manager.BlacklistRemovesOnlyItsRecord | internal/manager/manager.go:855-900 | with unique ids, blacklisting removes the address's own record and keeps every other record |
| Manager.RemainingTwice | internal/firewall/manager.go:171-182 | blacklisting an address a second time changes nothing more |
| Manager.Manager.constructor | internal/manager/manager.go:785-803 | no network-access records, over the given firewall and application service |
| Manager.Manager.ManageDatabaseNetworkAccess | internal/manager/manager.go:785-803 | records, rules and outcome are those of `Manage`: refuse a bad address, then dispatch on add or remove and refuse any other operation |
| Manager.Manager.IsRecorded | internal/manager/manager.go:811-815 | the loop finds a record exactly when the address is recorded for the environment |
| Manager.Manager.FindLastRecorded | internal/manager/manager.go:859-866 | the loop keeps the last matching record |
| Manager.Manager.WhitelistPorts | internal/manager/manager.go:829-838 | one accept rule is appended per parsed port, and the first unparsable port is reported |
| Manager.Manager.BlacklistPorts | internal/manager/manager.go:884-898 | the address's rules are removed once a port parses, and the first unparsable port is reported |
| Manager.Manager.HandleIpWhiteList | internal/manager/manager.go:805-852 | records, rules and outcome are those of `Whitelist` |
| Manager.Manager.HandleIpBlacklist | internal/manager/manager.go:854-900 | records, rules and outcome are those of `Blacklist` |
| Caddy.RouteIndex | internal/integrations/caddy/caddy.go:208-218 | the smallest index of a route whose matchers list the host, or -1 exactly when no route does |
| Caddy.Upstreams | internal/integrations/caddy/caddy.go:135-140 | one upstream per instance |
| Caddy.BackendRouteSpec | internal/integrations/caddy/caddy.go:135-151 | a backend route has one reverse-proxy handler whose i-th upstream dials instance i, and it matches the backend address and the extra host when one is given |
| Caddy.BackendRouteMatches | internal/integrations/caddy/caddy.go:143-148 | a backend route is found by the backend address |
| Caddy.PatchedSpec | internal/integrations/caddy/caddy.go:153-160 | a missing route is appended after all others; an existing one is replaced in place; other routes are unchanged |
| Caddy.PatchedIsFound | internal/integrations/caddy/caddy.go:153-160 | after a patch the route is found where it was written, so patching again replaces it |
| Caddy.DomainHostsSpec | internal/integrations/caddy/caddy.go:106-115 | adding appends the domain to the hosts; removing keeps the other hosts in order and drops every occurrence of the domain |
| Caddy.RemovedRouteSpec | internal/integrations/caddy/caddy.go:199-205 | removing the found route shortens the table by one and keeps the other routes in order |
| Caddy.FindRouteIndex | internal/integrations/caddy/caddy.go:208-218 | the nested loops return `RouteIndex` |
| Caddy.BuildUpstreams | internal/integrations/caddy/caddy.go:135-140 | the append loop builds `Upstreams` |
| Caddy.RemoveHost | internal/integrations/caddy/caddy.go:109-115 | the loop keeps exactly the hosts other than the domain, in order |
| Caddy.CaddyClient.Init | internal/integrations/caddy/caddy.go:36-52 | no routes, listening on ":80" and ":443", with the admin API on ":2019" |
| Caddy.CaddyClient.ApplyConfig | internal/integrations/caddy/caddy.go:56-65 | a backend or frontend route is patched in; any other type is refused and nothing changes |
| Caddy.CaddyClient.ApplyDomainConfig | internal/integrations/caddy/caddy.go:89-123 | without a route for the domain's host, a backend route carrying the domain is patched in, whatever the domain's type; otherwise only the found route's hosts change |
| Caddy.CaddyClient.PatchBackendConfig | internal/integrations/caddy/caddy.go:125-161 | the routes become `Patched` with the backend route at the index found for the backend address |
| Caddy.CaddyClient.PatchFrontendConfig | internal/integrations/caddy/caddy.go:163-189 | the routes become `Patched` with the file-server route at the index found for the frontend address |
| Caddy.CaddyClient.RemoveConfig | internal/integrations/caddy/caddy.go:191-206 | nothing changes when no route matches; otherwise exactly the found route is deleted |
| Secrets.FindBy | internal/service/secret.go:54 | finds a row with the upsert key, and nothing exactly when none has it |
| Secrets.WithValue | internal/service/secret.go:55 | only the values of rows with the id change |
| Secrets.DecryptAllSpec | internal/service/secret.go:91-105 | decryption succeeds exactly when every value decrypts, and then only the values change |
| Secrets.LinkIds | internal/service/secret.go:203-215 | exactly the ids of the given links |
| Secrets.LinkedSecret | internal/service/secret.go:119-141 | the secret a link joins to has the link's secret id whenever one in the table does, and is the zero secret only when none does |
| Secrets.StorageCredentialsFromSpec | internal/service/secret.go:217-236 | credentials come from the first configuration named "object_storage", and its absence is an error |
| Secrets.FirstNamed | internal/service/secret.go:238-245 | finds a secret with the name, and nothing exactly when none has it |
| Secrets.FindSecret | internal/service/secret.go:238-245 | the first secret with the name, and an error exactly when none has it |
| Secrets.JoinAll | internal/service/secret.go:119-141 | one joined secret per link |
| Secrets.CreateManyStopsAtError | internal/service/secret.go:79-89 | once one creation fails, the later parameters are not looked at |
| Secrets.DecryptAllStopsAtError | internal/service/secret.go:91-105 | once one value fails to decrypt, the later ones are not looked at |
| Secrets.DecryptConfigsSpec | internal/service/secret.go:185-201 | decrypting the server configurations succeeds exactly when every value decrypts, and then each configuration keeps its place and fields with only its value decrypted |
| Secrets.DecryptConfigsStopsAtError | internal/service/secret.go:185-201 | the same for server configurations |
| Secrets.FilterUnlinked | internal/service/secret.go:203-215 | deleting the links one id at a time is deleting them all together |
| Secrets.CreateReturnsPlaintext | internal/service/secret.go:48-77 | `Create` fails exactly when encryption does, and otherwise answers with the key and the plaintext |
| Secrets.FoundRowIsUnique | internal/service/secret.go:54 | in a valid table the row found for a key is the only one with its id and the only one with the key |
| Secrets.CreateUpdatesExisting | internal/service/secret.go:54-62 | when a row has the key, only that row's value is replaced, by the encrypted input |
| Secrets.CreateInsertsNew | internal/service/secret.go:64-76 | when no row has the key, exactly one row is added with the key and the encrypted value |
| Secrets.CreateKeepsValid | internal/service/secret.go:48-77 | with a fresh non-nil id, the table keeps one row per key |
| Secrets.CreatedValueDecrypts | internal/service/secret.go:48-77 | the stored value decrypts back to the input |
| Secrets.CreateManyReturns | internal/service/secret.go:79-89 | one secret per parameter, in order, each with that parameter's key and plaintext value |
| Secrets.DeleteRemovesExactlyTheDeployment | internal/service/secret.go:203-215 | with unique link ids, a link survives exactly when it belongs to another deployment |
| Secrets.NewLinksOfDeployment | internal/service/secret.go:107-117 | the deployment's links grow by one link per secret, in order, each naming that secret |
| Secrets.FindDeploymentSecretsSpec | internal/service/secret.go:119-141 | one secret per link, in order, with the link's id, the linked secret's name and its value decrypted |
| Secrets.SecretService.constructor | internal/service/secret.go:38-46 | empty tables over the given encryptor |
| Secrets.SecretService.Create | internal/service/secret.go:48-77 | the table and the answer are those of `CreateOne`, and the other tables do not change |
| Secrets.SecretService.CreateAll | internal/service/secret.go:79-89 | the table and the answer are those of `CreateMany` |
| Secrets.SecretService.FindAll | internal/service/secret.go:91-105 | the application's secrets with their values decrypted |
| Secrets.SecretService.CreateDeploymentSecrets | internal/service/secret.go:107-117 | appends one new link per secret, and nothing else changes |
| Secrets.SecretService.FindDeploymentSecrets | internal/service/secret.go:119-141 | the deployment's joined secrets, decrypted |
| Secrets.SecretService.DeleteDeploymentSecrets | internal/service/secret.go:203-215 | deletes by id every link of the deployment, and nothing else |
| Secrets.SecretService.FindApplicationServerConfigs | internal/service/secret.go:185-201 | the application's configurations, decrypted |
| Secrets.SecretService.FindStorageCredentials | internal/service/secret.go:217-236 | the decoded first object-storage configuration |
| Secrets.FindConfig | internal/service/secret.go:160 | finds a configuration with the application, provider and name, and nothing exactly when none has them |
| Secrets.WithConfigValue | internal/service/secret.go:176 | only the values of configurations with the id change |
| Secrets.FindConfigAfterUpdate | internal/service/secret.go:175-180 | after the update the same configuration is found for the key, now with the new value |
| Secrets.UpsertConfigThenFind | internal/service/secret.go:143-183 | `CreateServerConfig` fails exactly when encoding or encryption fails, leaving the table unchanged; otherwise a lookup of the key finds the row with the answered id and the encrypted encoding |
| Secrets.UpsertConfigTwice | internal/service/secret.go:160-180 | a second call with the same key adds no row and answers with the same id |
| Secrets.UpsertConfigDecrypts | internal/service/secret.go:149-180 | the stored value decrypts back to the JSON encoding when decryption undoes encryption |
| Secrets.SecretService.CreateServerConfig | internal/service/secret.go:143-183 | the configuration table and the answer are those of `UpsertConfig`, and the other tables do not change |
| Domains.FindByName | internal/service/domain.go:34-37 | finds a row with the name, and nothing exactly when none has it |
| Domains.ForEnvironmentAndInstanceTypeSpec | internal/service/domain.go:76-85 | a domain is selected exactly when it is the application's and has both the environment and the type, in order |
| Domains.TakenSpec | internal/service/domain.go:39-41 | in a valid table a name is taken exactly when some domain, of any application, has it |
| Domains.DomainService.constructor | internal/service/domain.go:27-31 | an empty domain table |
| Domains.DomainService.AddDomain | internal/service/domain.go:33-57 | a lookup failure is returned, and a taken name refused, without saving; otherwise exactly one CREATED domain with the given fields is added |
| Domains.DomainService.RemoveDomain | internal/service/domain.go:59-70 | an unknown name is an error; another application's domain is "access denied"; otherwise exactly that domain is deleted and returned |
| Domains.AddKeepsValid | internal/service/domain.go:43-56 | adding a domain with a fresh non-nil id keeps names unique |
| Domains.RemoveDeletesExactly | internal/service/domain.go:59-70 | in a valid table removal deletes exactly the named domain and keeps every other one |
| Domains.FilterDropsOne | internal/service/domain.go:69 | deleting an id present once shortens the table by one |
| Backups.WithExpression | internal/service/backup.go:212-231 | only the expressions of rows with the id change |
| Backups.DatabaseVarsSpec | internal/service/backup.go:88-91 | a variable is passed exactly when it is a database variable of the settings' environment, in order |
| Backups.ProducedSpec | internal/service/backup.go:100-113 | every recorded backup is of a supported engine that its executor backed up, for the run's application and environment |
| Backups.ProducedStopsAt | internal/service/backup.go:100-113 | the first unsupported engine ends the run, and later engines are skipped |
| Backups.StorageForSpec | internal/service/backup.go:241-254 | "File" uses local storage, "S3" needs credentials, and any other type is refused |
| Backups.BackupById | internal/service/backup.go:234-237 | finds a backup with the id, and nothing exactly when none has it |
| Backups.ExistingSpec | internal/service/backup.go:187-190 | the settings row found belongs to the application and has the environment after lowering both sides with the given code-point lowering; when none is found, no row of the application has it |
| Backups.WithExpressionKeepsOnePerEnvironment | internal/service/backup.go:212-231 | changing an expression keeps one row per application and environment |
| Backups.AddKeepsOnePerEnvironment | internal/service/backup.go:197-209 | for any code-point lowering, adding a row only when none exists keeps one row per application and lowered environment |
| Backups.BackupService.constructor | internal/service/backup.go:46-61 | no settings, no backups and no scheduled jobs |
| Backups.BackupService.CreateBackupSettings | internal/service/backup.go:172-210 | a bad expression is refused first; an existing row (same application, same environment after `strings.ToLower` with the given code-point lowering) is kept, or updated and rescheduled when asked to; otherwise exactly one row is added and scheduled |
| Backups.BackupService.UpdateBackupSettings | internal/service/backup.go:212-231 | the row's expression and its job are replaced |
| Backups.CredentialOrNil | internal/service/backup.go:92-97 | the executor gets the credential exactly when its lookup succeeded; a failed lookup is dropped, not reported |
| Backups.BackupService.RunSettings | internal/service/backup.go:77-144 | application and variable lookup errors are returned with nothing recorded; a credential lookup error does not stop the run; otherwise the backups produced with the environment's database variables and the credential are appended |
| Backups.BackupService.Download | internal/service/backup.go:233-257 | an unknown backup is an error; otherwise the storage is chosen by the backup's storage type |
| Applications.LoadApplication | service/application.go:110-128 | the application a deployment is loaded with has the id whenever one in the table does, and is the zero application only when none does |
| Applications.WithStatus | service/application.go:101-103 | only the status of rows with the id changes |
| Applications.FirstInEnvironment | service/application.go:92-98 | for any code-point lowering, finds a deployment whose lowered environment equals the lowered argument, and nothing exactly when none exists |
| Applications.FirstInEnvironmentIsFirst | service/application.go:92-98 | the deployment found is the first whose lowered environment matches |
| Applications.ActiveDeploymentsSpec | service/application.go:70-84 | exactly the application's ACTIVE deployments of the type, in repository order |
| Applications.WithStatusOnlyStatus | service/application.go:101-103 | a status update touches only the status of rows with the id |
| Applications.ApplicationService.constructor | service/application.go:34-36 | empty application and deployment tables |
| Applications.ApplicationService.Create | service/application.go:38-56 | a taken name is refused; otherwise one application with the name, the domain and one storage engine is stored |
| Applications.ApplicationService.FindCurrentlyActiveDeployments | service/application.go:70-84 | the application's ACTIVE deployments of the type |
| Applications.ApplicationService.FindCurrentlyActiveDeploymentsEnv | service/application.go:86-99 | the first of those whose environment matches after `strings.ToLower` with the given code-point lowering, or an error |
| Applications.ApplicationService.UpdateDeploymentStatus | service/application.go:101-103 | the deployments become `WithStatus` of the old ones |
| Applications.ApplicationService.CreateDeployment | service/application.go:110-128 | appends one CREATED deployment with the given fields and returns it |
| Firewall.To4 | internal/firewall/manager.go:148 | an address's IPv4 form has 4 bytes, or none for an IPv6 address |
| Firewall.PortBytes | internal/firewall/manager.go:69-70 | two big-endian bytes of the port modulo 2^16 |
| Firewall.PortBytesInjective | internal/firewall/manager.go:69-70 | ports with the same encoding agree modulo 2^16 |
| Firewall.PortBytesOf8080 | internal/firewall/manager_test.go:49 | 8080 encodes as 0x1f 0x90 |
| Firewall.Remaining | internal/firewall/manager.go:171-182 | no remaining rule mentions the address, and the remaining rules keep their order |
| Firewall.RemainingMembers | internal/firewall/manager.go:171-182 | a rule remains exactly when it was there and does not mention the address |
| Firewall.DropRuleNeverMentions | internal/firewall/manager.go:173-174 | the port-drop rule compares no 4-byte value, so blacklisting keeps it |
| Firewall.AcceptRuleMentions | internal/firewall/manager.go:145-149 | an accept rule mentions its IPv4 address |
| Firewall.WhitelistThenBlacklist | internal/firewall/manager_test.go:108-160 | after a drop rule and an accept rule, blacklisting the address leaves the earlier survivors and the drop rule |
| Firewall.Manager.constructor | internal/firewall/manager.go:45-66 | an empty chain; a manager that is not enabled is the no-op manager of non-Linux hosts |
| Firewall.Manager.BlockPortAccess | internal/firewall/manager.go:68-105 | succeeds, and when enabled appends exactly the drop rule for the port |
| Firewall.Manager.WhitelistIP | internal/firewall/manager.go:107-159 | fails exactly on an unparsable address when enabled; on success when enabled it appends exactly the accept rule |
| Firewall.Manager.BlacklistIP | internal/firewall/manager.go:161-188 | fails exactly on an unparsable address when enabled; on success when enabled it deletes every rule that mentions the address |
| Firewall.Manager.RuleMentions | internal/firewall/manager.go:172-180 | the loop finds a 4-byte equality compare of the address exactly when the rule mentions it |
| VarsUpdate.ParseVarSpec | client/pkg/cmd/vars/update/update.go:85-92 | an argument parses exactly when it holds '='; the key holds no '=' and key, '=', value gives back the argument |
| VarsUpdate.ParseAllStopsAtError | client/pkg/cmd/vars/update/update.go:86-88 | once one argument fails, the whole parse fails with its error |
| VarsUpdate.ParseAllSpec | client/pkg/cmd/vars/update/update.go:82-95 | the parse succeeds exactly when every argument holds '=', and then gives one entry per argument, in order, each joining back to it |
| VarsUpdate.ParseAllNamesFirstBad | client/pkg/cmd/vars/update/update.go:86-88 | a failed parse names the first argument without '=' |
| VarsUpdate.ParseAllJoined | client/pkg/cmd/vars/update/update.go:85-92 | entries whose keys hold no '=' print to arguments that parse back to them, an empty key included |
| VarsUpdate.ParseVars | client/pkg/cmd/vars/update/update.go:82-95 | the loop computes `ParseAll` |
| VarsUpdate.UpdateRequestSpec | client/pkg/cmd/vars/update/update.go:24-45 | an empty environment aborts; `--var` values replace the file's entirely; the file's values are sent only without `--var` |
| DeploymentsList.SelectionSpec | client/pkg/cmd/deployments/list/list.go:71-89 | the instance filter wins and ignores the environment; otherwise the environment filter applies; with neither the list is unchanged; the result is always a sublist |
| DeploymentsList.ListDeployments | client/pkg/cmd/deployments/list/list.go:60-90 | a fetch error is returned unfiltered; otherwise the loops compute `Selection` |

## Left out

- Docker orchestration is not modelled: containers, images, networks, polling and the components under internal/components. Only the pure parts of Deploy, Destroy, Rollback, Scale and UpdateVariables are in the model.
- Destroy's effects are not modelled. The model states which deployments, instance containers and database containers it selects. It does not model removing files, deleting Caddy routes or secret links, or updating statuses.
- Concurrency is not modelled: the mutex of the evicting list, the event bus, the log collector's goroutines, and the gocron scheduler. The scheduler is a map from settings id to cron expression.
- Encryption is an abstract pair of functions that may fail. `Secrets.CreatedValueDecrypts` requires that decryption inverts encryption.
- Random ids, port generation and `uuid.New` are parameters. The network-access record's `newId` stands for the `uuid.New()` the source omits (see Findings).
- Timestamps (`CreatedAt`, `time.Now`) are not modelled.
- Unicode's case tables are not modelled. `unicode.ToLower` on one code point is the `lower` parameter of the case-insensitive environment comparisons, and `Text.LowersAscii` states its ASCII part.
- Strings are sequences of code points, where Go's `len` counts UTF-8 bytes. Misc.HexToUUID refuses a 31-character input holding one 2-byte character on its length, where Go refuses it in the hex decoder. Both are errors, with different messages.
- Several parsers are abstract function values: `net.ParseIP`, `time.Parse`, the cron parser, and JSON decoding of storage credentials. `json.Marshal` in `CreateServerConfig` is the `serialized` parameter. godotenv's `parseVarFile` is not modelled either; its outcome is the `fileVars` parameter of `VarsUpdate.UpdateRequest`.
- Repository, HTTP and nftables transport errors are not modelled. Where the source branches on them, the outcome is a parameter. Examples: the lookup failure given to `AddDomain`, and the application and variable lookups of a backup run.
- Backup executors are abstract: `Executor` reports where a backup went, or nothing. The exported `Run`, which only schedules `run` for every settings row, is not modelled apart from that; `Backups.BackupService.RunSettings` models `run`. Fetching the file in `Download` is not modelled; the model returns the chosen storage and the location.
- The Caddy admin API's GET, PATCH and DELETE calls are not modelled. The configuration is a field of `Caddy.CaddyClient`. `Wait` is not modelled.
- The legacy top-level tree is not modelled: manager/, service/ other than application.go, integrations/ and types/. The duplicate firewall files are not modelled either.
- Logs.EvictingList.PopFront: on an empty list the returned value is not stated to be the zero value, because a generic Dafny type has no zero value to compare with.
- LogQuery.Validate: requires that `since` be present whenever validation reaches the step that copies it. The source dereferences `since` there without a check.
- Manager.Manager.ManageDatabaseNetworkAccess: uses the intended lookup by address, `Manager.FindByIP`, and not the one as written, and saves the new record with the caller's `newId` where the source leaves the nil id (see Findings).
- Manager.Manager.HandleIpWhiteList: saves the record with the caller's `newId`, the intended `uuid.New()`; the source sets no `ID`, so its record has the nil id (see Findings).
- Manager.WhitelistSucceeds: states the record with the caller's `newId`, not the nil id the source stores (see Findings).
- Caddy.CaddyClient.PatchBackendConfig: requires a non-negative instance count. With a negative one, the source's `make` of the upstream slice panics; the panic is not modelled. The same requirement is on `Caddy.Upstreams`, `Caddy.BuildUpstreams`, `Caddy.BackendRoute`, `Caddy.CaddyClient.ApplyConfig` (for a backend) and `Caddy.CaddyClient.ApplyDomainConfig` (only when no route of the domain's instance type exists yet, the one path that builds upstreams).
- Firewall.Manager.BlockPortAccess: always succeeds, because a failed `Flush` is not modelled.
- Firewall.Manager.WhitelistIP: a failed `Flush` is not modelled.
- Firewall.Manager.BlacklistIP: a failed `Flush` or `DelRule` is not modelled.
- The conversion `uint(p)` of a parsed port is modelled modulo 2^64, and `uint16` modulo 2^16. `strconv.Atoi` is modelled with Go's 64-bit `int` range.
- `findDeploymentsByInstanceType` is modelled only inside the Destroy selection. Scale, its other caller, is not modelled.

## Findings

| source | as written | input that shows it | evidently intended | confidence | as-written member | corrected member |
|---|---|---|---|---|---|---|
| internal/database/network_access.go:30-34 | `FindByIP` returns no records even after its query succeeds | a table recording 10.0.0.1 for "staging", then blacklisting 10.0.0.1 in "staging" | return the records of the address, so that duplicates are refused and recorded addresses can be blacklisted | not executed | Manager.FindByIPAsWritten | Manager.WhitelistThenBlacklist |
| internal/manager/manager.go:840-846 | the saved network-access record sets no `ID`, so every record has the nil id, and blacklisting removes by that id (manager.go:894) | whitelist 10.0.0.1 and then 10.0.0.2 in "staging", then blacklist 10.0.0.1: the record of 10.0.0.2 is deleted too (a store that enforces the primary key refuses the second save instead, after its accept rules were installed) | give each record `ID: uuid.New()`, as the other services do, so that blacklisting removes only its own record | not executed | Manager.AsWrittenLosesOtherRecord | Manager.BlacklistRemovesOnlyItsRecord |
| internal/misc/helper_test.go:31 | the test parses `test.name` instead of `test.args` | "parse deployment container name" has no dashes and fails to parse | parse "582ef9e6ec2d452bb0816dc704cb29a3-s-0" | not executed | HelperTest.TestCallAsWritten | HelperTest.TestCallIntended |
