/** The part of Consul's service catalog that catalog sync touches: service
    instances on the one node that synced services are registered on. */
module Catalog {

  /** A service instance (an AgentService of the Consul API). */
  datatype AgentService = AgentService(
    id: string,
    name: string,
    ns: string,
    tags: seq<string>,
    meta: map<string, string>,
    address: string,
    port: int)

  /** A CatalogRegistration: a node header and one service instance. */
  datatype Registration = Registration(
    node: string,
    address: string,
    skipNodeUpdate: bool,
    nodeMeta: map<string, string>,
    service: AgentService)

  /** On a fixed node, Consul identifies an instance by namespace and service ID. */
  datatype Key = Key(ns: string, id: string)

  /** The instances on the node. */
  type Instances = map<Key, AgentService>

  /** The namespace a query, a registration or a deregistration addresses.
      Without Consul namespaces there is only one, written "". */
  function QueryNs(enableNamespaces: bool, ns: string): string {
    if enableNamespaces then ns else ""
  }

  /** The keys of tagged instances, as a filtered node listing returns them. */
  function TaggedKeys(c: Instances, tag: string): set<Key> {
    set k | k in c && tag in c[k].tags
  }

  /** The keys of the tagged instances of one service in one namespace. */
  function InstancesOf(c: Instances, tag: string, ns: string, name: string): set<Key> {
    set k | k in c && tag in c[k].tags && k.ns == ns && c[k].name == name
  }

  /** The IDs occurring in a set of keys. */
  function Ids(ks: set<Key>): set<string> {
    set k | k in ks :: k.id
  }
}
