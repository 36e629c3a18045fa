/** Kubernetes objects, as far as catalog sync reads them. */
module KubeTypes {
  import opened Common

  /** Whether a service is to be synced to Consul. */
  const ANNOTATION_SYNC := "consul.hashicorp.com/service-sync"

  datatype ServiceType = ClusterIP | NodePort | LoadBalancer | ExternalName

  datatype ServicePort = ServicePort(name: string, port: int, nodePort: int)

  datatype Ingress = Ingress(ip: string, hostname: string)

  datatype Service = Service(
    name: string,
    namespace: string,
    labels: map<string, string>,
    annotations: map<string, string>,
    kind: ServiceType,
    externalName: string,
    ports: seq<ServicePort>,
    externalIPs: seq<string>,
    ingress: seq<Ingress>)

  datatype TargetRef = TargetRef(name: string, kind: string)

  datatype EndpointAddress = EndpointAddress(
    ip: string, hostname: string, nodeName: Option<string>, targetRef: Option<TargetRef>)

  datatype EndpointPort = EndpointPort(name: string, port: int)

  datatype Subset = Subset(addresses: seq<EndpointAddress>, ports: seq<EndpointPort>)

  datatype Endpoints = Endpoints(subsets: seq<Subset>)

  datatype NodeAddressType = InternalIP | ExternalIP | OtherAddress

  datatype NodeAddress = NodeAddress(kind: NodeAddressType, address: string)
}
