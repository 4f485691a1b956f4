/** The database rows that the edge and the renderer read (internal/store/models.go). */
module Hosts {
  import opened Options

  datatype Upstream = Upstream(scheme: string, host: string, port: int, weight: int)

  datatype Location = Location(pathPrefix: string, upstreams: seq<Upstream>, stripPrefix: bool) {
    /** Both routing paths skip a location without a prefix or without upstreams. */
    predicate Usable() { pathPrefix != "" && upstreams != [] }
  }

  datatype BackendGroup = BackendGroup(upstreams: seq<Upstream>, weight: int, percent: int)

  datatype Kind = Proxy | Redirection | Dead | Stream

  /** The mode is a free text; `TlsOther` is any but the four known ones, such as the empty one or "off". */
  datatype TlsMode = TlsNone | TlsAcme | TlsCustom | TlsExternal | TlsOther(text: string)

  /** A parsed per-host raw fragment: the names of the services and middlewares it defines. */
  datatype RawFragment = RawFragment(services: seq<string>, middlewares: seq<string>)

  /** `raw` is None when the host has no raw YAML or it does not parse. */
  datatype Host = Host(
    id: string, kind: Kind, enabled: bool, domains: seq<string>, upstreams: seq<Upstream>,
    cacheAssets: bool, locations: seq<Location>, errorStatuses: seq<string>, accessListIds: seq<string>,
    serviceMode: string, backendGroups: seq<BackendGroup>, waf: bool, cache: bool,
    redirectTo: string, redirectCode: int, redirectKeepPath: bool,
    streamProto: string, streamEntryPoint: string, tlsPassthrough: bool,
    tls: TlsMode, forceTls: bool, hsts: bool,
    corsEnabled: bool, corsAllowOrigins: seq<string>, corsAllowCredentials: bool,
    middlewareIds: seq<string>, raw: Option<RawFragment>)

  /** `builds` says whether the stored parameters decode into a Traefik middleware. */
  datatype UserMiddleware = UserMiddleware(id: string, builds: bool)

  datatype AccessUser = AccessUser(username: string, hash: string) {
    predicate Valid() { username != "" && hash != "" }
  }

  datatype AccessList = AccessList(id: string, users: seq<AccessUser>, allowIps: seq<string>, satisfyAny: bool)
}
